/** The regular expressions the proxy validates names with, and what it means for a text to match one. */
module Patterns {
  /** A class of characters, as its ranges. */
  type Class = seq<(char, char)>

  /** Between `lo` and `hi` characters of a class; one pattern after another; a pattern or nothing. */
  datatype Pattern =
    | Run(class_: Class, lo: nat, hi: nat)
    | Then(first: Pattern, second: Pattern)
    | Maybe(inner: Pattern)

  predicate InClass(c: char, class_: Class) {
    exists i :: 0 <= i < |class_| && class_[i].0 <= c <= class_[i].1
  }

  /** The whole of s matches p. */
  ghost predicate InPattern(s: string, p: Pattern)
    decreases p
  {
    match p
    case Run(class_, lo, hi) => lo <= |s| <= hi && forall i :: 0 <= i < |s| ==> InClass(s[i], class_)
    case Then(first, second) => exists i :: 0 <= i <= |s| && InPattern(s[..i], first) && InPattern(s[i..], second)
    case Maybe(inner) => s == "" || InPattern(s, inner)
  }

  const HEX: Class := [('0', '9'), ('a', 'f'), ('A', 'F')]
  const HYPHEN := Run([('-', '-')], 1, 1)

  /** `[0-9a-fA-F]{n}` */
  function Hex(n: nat): Pattern {
    Run(HEX, n, n)
  }

  /** `^[0-9a-fA-F]{8}-[0-9a-fA-F]{4}-[0-9a-fA-F]{4}-[0-9a-fA-F]{4}-[0-9a-fA-F]{12}$` */
  const UUID :=
    Then(Hex(8), Then(HYPHEN, Then(Hex(4), Then(HYPHEN, Then(Hex(4), Then(HYPHEN,
      Then(Hex(4), Then(HYPHEN, Hex(12)))))))))

  const ALNUM: Class := [('a', 'z'), ('0', '9')]
  const INNER: Class := [('-', '-'), ('a', 'z'), ('0', '9')]

  /** `^[a-z0-9]([-a-z0-9]{0,61}[a-z0-9])?$` */
  const DNS_LABEL := Then(Run(ALNUM, 1, 1), Maybe(Then(Run(INNER, 0, 61), Run(ALNUM, 1, 1))))

  ghost predicate AllInPattern(names: seq<string>, p: Pattern) {
    forall i :: 0 <= i < |names| ==> InPattern(names[i], p)
  }

  /** A run of exactly n characters, followed by p: the split can only be at n. */
  lemma ThenAfterRun(s: string, class_: Class, n: nat, p: Pattern)
    ensures InPattern(s, Then(Run(class_, n, n), p)) <==>
            n <= |s| && InPattern(s[..n], Run(class_, n, n)) && InPattern(s[n..], p)
  {
  }
}
