/**
 The resolved authorization scope of one caller, and the three ways it leaves the process: a test on
 each message, a ClickHouse Array(String) literal, and a response header.
 */
module Scoping {
  import opened Prelude
  import opened Text
  import opened Patterns

  /** A nil *nsScope (scoping disabled), an allowAll scope, or a list of namespaces. */
  datatype Scope = Disabled | AllowAll | Only(namespaces: seq<string>)

  predicate Restricted(s: Scope) {
    s.Only?
  }

  predicate Allows(s: Scope, ns: string) {
    s.Only? ==> ns in s.namespaces
  }

  /** The scan in nsScope.allows. */
  method AllowsScan(s: Scope, ns: string) returns (ok: bool)
    ensures ok <==> Allows(s, ns)
  {
    if s.Disabled? || s.AllowAll? {
      return true;
    }
    for i := 0 to |s.namespaces|
      invariant ns !in s.namespaces[..i]
    {
      if s.namespaces[i] == ns {
        return true;
      }
    }
    return false;
  }

  // ---------------------------------------------------------------------------
  // RFC 1123 labels
  // ---------------------------------------------------------------------------

  predicate Alphanumeric(c: char) {
    'a' <= c <= 'z' || '0' <= c <= '9'
  }

  /** dnsLabelRe: 1 to 63 lower-case letters, digits and hyphens, with no hyphen at either end. */
  predicate IsLabel(s: string) {
    && 1 <= |s| <= 63
    && Alphanumeric(s[0])
    && Alphanumeric(s[|s| - 1])
    && forall i :: 0 <= i < |s| ==> Alphanumeric(s[i]) || s[i] == '-'
  }

  predicate AllLabels(names: seq<string>) {
    forall i :: 0 <= i < |names| ==> IsLabel(names[i])
  }

  /** The test by positions accepts exactly what the regular expression matches. */
  lemma LabelIsPattern(s: string)
    ensures IsLabel(s) <==> InPattern(s, DNS_LABEL)
  {
    ThenAfterRun(s, ALNUM, 1, DNS_LABEL.second);
    if s != "" {
      OneAlphanumeric(s);
      LabelTail(s[1..]);
      LabelByTail(s);
    }
  }

  lemma LabelByTail(s: string)
    requires s != ""
    ensures IsLabel(s) <==> Alphanumeric(s[0]) && (|s| == 1 || EndsAlphanumeric(s[1..]))
  {
    assert forall i :: 0 < i < |s| ==> s[i] == s[1..][i - 1];
  }

  lemma AlphanumericIsClass(c: char)
    ensures Alphanumeric(c) <==> InClass(c, ALNUM)
    ensures Alphanumeric(c) || c == '-' <==> InClass(c, INNER)
  {
    assert ALNUM[0] == ('a', 'z') && ALNUM[1] == ('0', '9');
    assert INNER[0] == ('-', '-') && INNER[1] == ('a', 'z') && INNER[2] == ('0', '9');
  }

  lemma OneAlphanumeric(s: string)
    requires s != ""
    ensures InPattern(s[..1], Run(ALNUM, 1, 1)) <==> Alphanumeric(s[0])
    ensures InPattern(s[|s| - 1..], Run(ALNUM, 1, 1)) <==> Alphanumeric(s[|s| - 1])
  {
    AlphanumericIsClass(s[0]);
    AlphanumericIsClass(s[|s| - 1]);
    assert s[..1] == [s[0]] && s[|s| - 1..] == [s[|s| - 1]];
  }

  /** A pattern followed by exactly one character of a class: the split can only be before the last character. */
  lemma SplitBeforeLast(t: string, p: Pattern, last: Class)
    requires t != ""
    ensures InPattern(t, Then(p, Run(last, 1, 1))) <==>
            InPattern(t[..|t| - 1], p) && InPattern(t[|t| - 1..], Run(last, 1, 1))
  {
    if i :| 0 <= i <= |t| && InPattern(t[..i], p) && InPattern(t[i..], Run(last, 1, 1)) {
      assert |t[i..]| == 1 && i == |t| - 1;
    }
  }

  lemma InnerRun(t: string, hi: nat)
    ensures InPattern(t, Run(INNER, 0, hi)) <==>
            |t| <= hi && forall i :: 0 <= i < |t| ==> Alphanumeric(t[i]) || t[i] == '-'
  {
    forall i | 0 <= i < |t|
      ensures Alphanumeric(t[i]) || t[i] == '-' <==> InClass(t[i], INNER)
    {
      AlphanumericIsClass(t[i]);
    }
  }

  predicate EndsAlphanumeric(t: string) {
    && t != "" && |t| <= 62 && Alphanumeric(t[|t| - 1])
    && forall i :: 0 <= i < |t| ==> Alphanumeric(t[i]) || t[i] == '-'
  }

  lemma InnerThenLast(t: string)
    ensures InPattern(t, Then(Run(INNER, 0, 61), Run(ALNUM, 1, 1))) <==> EndsAlphanumeric(t)
  {
    if t != "" {
      var front := t[..|t| - 1];
      OneAlphanumeric(t);
      SplitBeforeLast(t, Run(INNER, 0, 61), ALNUM);
      InnerRun(front, 61);
      assert forall i :: 0 <= i < |front| ==> front[i] == t[i];
    }
  }

  lemma LabelTail(t: string)
    ensures InPattern(t, DNS_LABEL.second) <==> t == "" || EndsAlphanumeric(t)
  {
    InnerThenLast(t);
    assert DNS_LABEL.second == Maybe(Then(Run(INNER, 0, 61), Run(ALNUM, 1, 1)));
  }

  lemma LabelsArePatterns(names: seq<string>)
    ensures AllLabels(names) <==> AllInPattern(names, DNS_LABEL)
  {
    forall i | 0 <= i < |names|
      ensures IsLabel(names[i]) <==> InPattern(names[i], DNS_LABEL)
    {
      LabelIsPattern(names[i]);
    }
  }

  lemma LabelAvoids(s: string, c: char)
    requires IsLabel(s) && !Alphanumeric(c) && c != '-'
    ensures c !in s
  {
  }

  // ---------------------------------------------------------------------------
  // The ClickHouse array literal
  // ---------------------------------------------------------------------------

  function Quoted(names: seq<string>): (q: seq<string>)
    ensures |q| == |names|
  {
    seq(|names|, i requires 0 <= i < |names| => "'" + names[i] + "'")
  }

  function ArrayLiteral(names: seq<string>): string {
    "[" + Join(Quoted(names), ',') + "]"
  }

  /** clickhouseArrayParam: refuses on the first name that is not a label. */
  method ClickhouseArrayParam(names: seq<string>) returns (r: Result<string, string>)
    ensures r.Ok? <==> AllInPattern(names, DNS_LABEL)
    ensures r.Ok? ==> r.value == ArrayLiteral(names) && ParseArray(r.value) == Some(names)
    ensures r.Err? ==>
              exists i :: 0 <= i < |names| && r.error == names[i] && !IsLabel(names[i]) && AllLabels(names[..i])
  {
    LabelsArePatterns(names);
    var quoted := [];
    for i := 0 to |names|
      invariant AllLabels(names[..i])
      invariant quoted == Quoted(names[..i])
    {
      if !IsLabel(names[i]) {
        return Err(names[i]);
      }
      quoted := quoted + ["'" + names[i] + "'"];
      assert names[..i + 1] == names[..i] + [names[i]];
    }
    assert names[..|names|] == names;
    ParseUndoesArrayLiteral(names);
    return Ok("[" + Join(quoted, ',') + "]");
  }

  /** The characters up to the closing quote, and the text after it. */
  function ReadQuoted(s: string): (r: Option<(string, string)>)
    ensures r.Some? ==> |r.value.1| < |s|
  {
    if s == "" || s[0] == '\\' then None
    else if s[0] == '\'' then Some(("", s[1..]))
    else match ReadQuoted(s[1..])
      case None => None
      case Some((text, rest)) => Some(([s[0]] + text, rest))
  }

  function ReadElements(s: string): Option<seq<string>>
    decreases |s|
  {
    if s == "" || s[0] != '\'' then None
    else match ReadQuoted(s[1..])
      case None => None
      case Some((text, rest)) =>
        if rest == "]" then Some([text])
        else if rest != "" && rest[0] == ',' then
          match ReadElements(rest[1..])
          case None => None
          case Some(more) => Some([text] + more)
        else None
  }

  /** How ClickHouse reads an Array(String) parameter whose elements need no escapes. */
  function ParseArray(s: string): Option<seq<string>> {
    if s == "[]" then Some([])
    else if s != "" && s[0] == '[' then ReadElements(s[1..])
    else None
  }

  predicate Plain(s: string) {
    '\'' !in s && '\\' !in s
  }

  lemma {:induction false} ReadQuotedStops(text: string, rest: string)
    requires Plain(text)
    ensures ReadQuoted(text + ("'" + rest)) == Some((text, rest))
  {
    var s := text + ("'" + rest);
    if text == "" {
      assert s == "'" + rest && s[1..] == rest;
    } else {
      ReadQuotedStops(text[1..], rest);
      assert s[1..] == text[1..] + ("'" + rest);
      assert [text[0]] + text[1..] == text;
    }
  }

  function Quote(name: string, rest: string): string {
    "'" + (name + ("'" + rest))
  }

  lemma ReadLast(name: string)
    requires Plain(name)
    ensures ReadElements(Quote(name, "]")) == Some([name])
  {
    ReadQuotedStops(name, "]");
    assert Quote(name, "]")[1..] == name + ("'" + "]");
  }

  /** Reading one quoted name in front of a comma and more names. */
  lemma ReadNext(name: string, more: string)
    requires Plain(name) && ReadElements(more).Some?
    ensures ReadElements(Quote(name, "," + more)) == Some([name] + ReadElements(more).value)
  {
    var rest := "," + more;
    ReadQuotedStops(name, rest);
    assert Quote(name, rest)[1..] == name + ("'" + rest);
    assert rest[0] == ',' && rest[1..] == more && rest != "]";
  }

  lemma JoinNext(names: seq<string>)
    requires |names| > 1
    ensures Join(Quoted(names), ',') == ("'" + names[0] + "'") + [','] + Join(Quoted(names[1..]), ',')
  {
    assert Quoted(names)[1..] == Quoted(names[1..]);
  }

  lemma QuotedNext(name: string, more: string)
    ensures ("'" + name + "'") + [','] + more + "]" == Quote(name, "," + (more + "]"))
  {
  }

  lemma {:induction false} ReadElementsUndoesJoin(names: seq<string>)
    requires |names| > 0 && forall i :: 0 <= i < |names| ==> Plain(names[i])
    ensures ReadElements(Join(Quoted(names), ',') + "]") == Some(names)
  {
    if |names| == 1 {
      ReadLast(names[0]);
      assert Join(Quoted(names), ',') + "]" == Quote(names[0], "]");
      assert names == [names[0]];
    } else {
      var tail := names[1..];
      var more := Join(Quoted(tail), ',');
      ReadElementsUndoesJoin(tail);
      ReadNext(names[0], more + "]");
      JoinNext(names);
      QuotedNext(names[0], more);
      assert [names[0]] + tail == names;
    }
  }

  /** ClickHouse reads back exactly the list of namespaces that was written. */
  lemma ParseUndoesArrayLiteral(names: seq<string>)
    requires AllLabels(names)
    ensures ParseArray(ArrayLiteral(names)) == Some(names)
  {
    if names != [] {
      forall i | 0 <= i < |names|
        ensures Plain(names[i])
      {
        LabelAvoids(names[i], '\'');
        LabelAvoids(names[i], '\\');
      }
      ReadElementsUndoesJoin(names);
      assert ArrayLiteral(names)[1..] == Join(Quoted(names), ',') + "]";
      assert ArrayLiteral(names)[1] == '\'';
    }
  }

  /** The SQL predicate `namespace IN {namespaces}` admits a namespace exactly when the in-memory test does. */
  lemma EnforcementPathsAgree(s: Scope, ns: string)
    requires s.Only? && AllLabels(s.namespaces)
    ensures ParseArray(ArrayLiteral(s.namespaces)).Some?
    ensures ns in ParseArray(ArrayLiteral(s.namespaces)).value <==> Allows(s, ns)
    ensures !Allows(s, "")
  {
    ParseUndoesArrayLiteral(s.namespaces);
  }

  // ---------------------------------------------------------------------------
  // The scope header
  // ---------------------------------------------------------------------------

  function HeaderValue(s: Scope): Option<string> {
    match s
    case Disabled => None
    case AllowAll => Some("*")
    case Only(names) => if names == [] then Some("none") else Some(Join(names, ','))
  }

  /** What the documented reading of X-Krateo-Event-Scope makes of a header. */
  function ReadHeader(h: Option<string>): Scope {
    match h
    case None => Disabled
    case Some(v) =>
      if v == "*" then AllowAll
      else if v == "none" then Only([])
      else Only(Split(v, ','))
  }

  /** The header tells every scope apart except the one-element list ["none"], which reads as empty. */
  lemma HeaderRoundTrip(s: Scope)
    requires s.Only? ==> AllLabels(s.namespaces)
    ensures ReadHeader(HeaderValue(s)) == s <==> s != Only(["none"])
  {
    if s.Only? && s.namespaces != [] {
      var names := s.namespaces;
      forall i | 0 <= i < |names|
        ensures ',' !in names[i] && '*' !in names[i]
      {
        LabelAvoids(names[i], ',');
        LabelAvoids(names[i], '*');
      }
      SplitUndoesJoin(names, ',');
      SplitHead("none", ',', "");
      SplitHead("*", ',', "");
      assert '*' in ["*"][0];
    }
  }
}
