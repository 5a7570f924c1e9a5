/** The text forms the proxy writes and the other side reads back: separated lists and decimal numbers. */
module Text {
  import opened Prelude

  /** strings.Join with a one-character separator. */
  function Join(parts: seq<string>, sep: char): string {
    if |parts| == 0 then ""
    else if |parts| == 1 then parts[0]
    else parts[0] + [sep] + Join(parts[1..], sep)
  }

  /** strings.Split with a one-character separator: always at least one part. */
  function Split(s: string, sep: char): (parts: seq<string>)
    ensures |parts| >= 1
  {
    if s == "" then [""]
    else
      var rest := Split(s[1..], sep);
      if s[0] == sep then [""] + rest else [[s[0]] + rest[0]] + rest[1..]
  }

  ghost predicate AllFree(parts: seq<string>, sep: char) {
    forall i :: 0 <= i < |parts| ==> sep !in parts[i]
  }

  lemma {:induction false} SplitHead(a: string, sep: char, rest: string)
    requires sep !in a
    ensures Split(a, sep) == [a]
    ensures Split(a + [sep] + rest, sep) == [a] + Split(rest, sep)
  {
    if a == "" {
      assert a + [sep] + rest == [sep] + rest;
    } else {
      SplitHead(a[1..], sep, rest);
      assert [a[0]] + a[1..] == a;
      assert (a + [sep] + rest)[1..] == a[1..] + [sep] + rest;
    }
  }

  /** Splitting undoes joining, for every non-empty list of separator-free parts. */
  lemma {:induction false} SplitUndoesJoin(parts: seq<string>, sep: char)
    requires |parts| > 0 && AllFree(parts, sep)
    ensures Split(Join(parts, sep), sep) == parts
  {
    if |parts| == 1 {
      SplitHead(parts[0], sep, "");
    } else {
      assert AllFree(parts[1..], sep);
      SplitUndoesJoin(parts[1..], sep);
      SplitHead(parts[0], sep, Join(parts[1..], sep));
    }
  }

  // ---------------------------------------------------------------------------
  // Decimal numbers
  // ---------------------------------------------------------------------------

  predicate IsDigit(c: char) {
    '0' <= c <= '9'
  }

  function DigitChar(d: nat): (c: char)
    requires d < 10
    ensures IsDigit(c)
  {
    ('0' as int + d) as char
  }

  function DigitValue(c: char): (d: nat)
    requires IsDigit(c)
    ensures d < 10
  {
    c as int - '0' as int
  }

  /** strconv.Itoa and strconv.FormatInt on a non-negative number. */
  function Itoa(n: nat): (s: string)
    ensures |s| > 0 && forall i :: 0 <= i < |s| ==> IsDigit(s[i])
  {
    if n < 10 then [DigitChar(n)] else Itoa(n / 10) + [DigitChar(n % 10)]
  }

  predicate AllDigits(s: string) {
    |s| > 0 && forall i :: 0 <= i < |s| ==> IsDigit(s[i])
  }

  function DigitsValue(s: string): nat
    requires forall i :: 0 <= i < |s| ==> IsDigit(s[i])
  {
    if s == "" then 0
    else DigitsValue(s[..|s| - 1]) * 10 + DigitValue(s[|s| - 1])
  }

  /** How ClickHouse reads an unsigned query parameter. */
  function ParseNat(s: string): Option<nat> {
    if AllDigits(s) then Some(DigitsValue(s)) else None
  }

  const INT64_MAX := 0x7FFF_FFFF_FFFF_FFFF

  /** strconv.Atoi: an optional sign, then digits, within 64 bits. */
  function Atoi(s: string): Option<int> {
    var signed := s != "" && (s[0] == '-' || s[0] == '+');
    var digits := if signed then s[1..] else s;
    if !AllDigits(digits) then None
    else
      var v: int := if signed && s[0] == '-' then -(DigitsValue(digits) as int) else DigitsValue(digits);
      if -INT64_MAX - 1 <= v <= INT64_MAX then Some(v) else None
  }

  lemma {:induction false} ParseUndoesItoa(n: nat)
    ensures ParseNat(Itoa(n)) == Some(n)
  {
    if n < 10 {
      assert Itoa(n) == [DigitChar(n)] && Itoa(n)[..0] == "";
      assert DigitsValue(Itoa(n)) == DigitsValue("") * 10 + DigitValue(DigitChar(n));
    } else {
      ParseUndoesItoa(n / 10);
      var s := Itoa(n);
      assert s[..|s| - 1] == Itoa(n / 10);
    }
  }

  function Zeros(k: nat): string {
    seq(k, i => '0')
  }

  /** s is the decimal writing of v with `k` leading zeros: unsigned or with a plus, or with a minus. */
  predicate Written(s: string, v: int, k: nat) {
    var digits := Zeros(k) + Itoa(if v < 0 then -v else v);
    (v >= 0 && (s == digits || s == "+" + digits)) || (v <= 0 && s == "-" + digits)
  }

  /** Atoi reads exactly the writings of 64-bit numbers, and nothing else. */
  lemma AtoiMeaning(s: string, v: int)
    ensures Atoi(s) == Some(v) <==>
            -0x8000_0000_0000_0000 <= v <= 0x7FFF_FFFF_FFFF_FFFF && exists k: nat :: Written(s, v, k)
  {
    if k: nat :| -0x8000_0000_0000_0000 <= v <= 0x7FFF_FFFF_FFFF_FFFF && Written(s, v, k) {
      WrittenIsRead(s, v, k);
    }
    if Atoi(s) == Some(v) {
      var k := ReadIsWritten(s, v);
    }
  }

  lemma WrittenIsRead(s: string, v: int, k: nat)
    requires Written(s, v, k) && -0x8000_0000_0000_0000 <= v <= 0x7FFF_FFFF_FFFF_FFFF
    ensures Atoi(s) == Some(v)
  {
    var n := if v < 0 then -v else v;
    var digits := Zeros(k) + Itoa(n);
    ZerosThenDigits(k, n);
    SignedIsRead(s, digits, v);
  }

  lemma SignedIsRead(s: string, digits: string, v: int)
    requires AllDigits(digits) && -0x8000_0000_0000_0000 <= v <= 0x7FFF_FFFF_FFFF_FFFF
    requires DigitsValue(digits) == if v < 0 then -v else v
    requires (v >= 0 && (s == digits || s == "+" + digits)) || (v <= 0 && s == "-" + digits)
    ensures Atoi(s) == Some(v)
  {
    assert IsDigit(digits[0]);
    assert s != digits ==> s[1..] == digits;
  }

  lemma ReadIsWritten(s: string, v: int) returns (k: nat)
    requires Atoi(s) == Some(v)
    ensures Written(s, v, k) && -0x8000_0000_0000_0000 <= v <= 0x7FFF_FFFF_FFFF_FFFF
  {
    if s[0] == '-' || s[0] == '+' {
      k := StripZeros(s[1..]);
      assert s == [s[0]] + s[1..];
    } else {
      k := StripZeros(s);
    }
  }

  lemma {:induction false} ZerosThenDigits(k: nat, n: nat)
    ensures Reads(Zeros(k) + Itoa(n), n)
    decreases k, n
  {
    if n >= 10 {
      ZerosThenDigits(k, n / 10);
      Regroup(Zeros(k), Itoa(n / 10), [DigitChar(n % 10)]);
      AppendDigit(Zeros(k) + Itoa(n / 10), DigitChar(n % 10));
    } else {
      if k > 0 {
        ZerosThenDigits(k - 1, 0);
        OneMoreZero(k - 1);
      }
      ZerosThenOne(k, DigitChar(n));
    }
  }

  predicate Reads(s: string, n: nat) {
    AllDigits(s) && DigitsValue(s) == n
  }

  lemma ZerosThenOne(k: nat, c: char)
    requires IsDigit(c) && (k > 0 ==> Reads(Zeros(k), 0))
    ensures Reads(Zeros(k) + [c], DigitValue(c))
  {
    if k == 0 {
      OneDigit(c);
      assert Zeros(0) + [c] == [c];
    } else {
      AppendDigit(Zeros(k), c);
    }
  }

  lemma OneMoreZero(k: nat)
    ensures Zeros(k) + Itoa(0) == Zeros(k + 1)
  {
    assert Itoa(0) == ['0'];
  }

  lemma OneDigit(c: char)
    requires IsDigit(c)
    ensures AllDigits([c]) && DigitsValue([c]) == DigitValue(c)
  {
    assert [c][..0] == "";
  }

  lemma AppendDigit(front: string, c: char)
    requires AllDigits(front) && IsDigit(c)
    ensures AllDigits(front + [c]) && DigitsValue(front + [c]) == DigitsValue(front) * 10 + DigitValue(c)
  {
    assert (front + [c])[..|front|] == front;
  }

  /** Writing one more digit after a number's: a zero in front of it becomes one more leading zero. */
  lemma WriteDigit(k: nat, v: nat, c: char) returns (m: nat)
    requires IsDigit(c)
    ensures Zeros(k) + Itoa(v) + [c] == Zeros(m) + Itoa(v * 10 + DigitValue(c))
  {
    assert DigitChar(DigitValue(c)) == c;
    if v == 0 {
      m := k + 1;
      OneMoreZero(k);
    } else {
      m := k;
      assert (v * 10 + DigitValue(c)) / 10 == v;
      Regroup(Zeros(k), Itoa(v), [c]);
    }
  }

  lemma StripNone(c: char)
    requires IsDigit(c)
    ensures [c] == Zeros(0) + Itoa(DigitsValue([c]))
  {
    OneDigit(c);
    assert DigitChar(DigitValue(c)) == c;
    assert Zeros(0) + [c] == [c];
  }

  lemma StripNext(front: string, c: char, k: nat) returns (m: nat)
    requires AllDigits(front) && IsDigit(c) && front == Zeros(k) + Itoa(DigitsValue(front))
    ensures front + [c] == Zeros(m) + Itoa(DigitsValue(front + [c]))
  {
    AppendDigit(front, c);
    m := WriteDigit(k, DigitsValue(front), c);
  }

  /** A text of digits is some zeros and then the plain writing of its value. */
  lemma {:induction false} StripZeros(s: string) returns (k: nat)
    requires AllDigits(s)
    ensures s == Zeros(k) + Itoa(DigitsValue(s))
  {
    var front, c := s[..|s| - 1], s[|s| - 1];
    assert s == front + [c];
    if front == "" {
      k := 0;
      StripNone(c);
      assert s == [c];
    } else {
      k := StripZeros(front);
      k := StripNext(front, c, k);
    }
  }
}
