/**
 The bound queries of /events and /audit, and what ClickHouse makes of them. The SQL text is kept as
 three flags (which optional predicates are present); everything the caller can influence travels as
 text in `params` and is read back here the way ClickHouse binds it.
 */
module Queries {
  import opened Prelude
  import opened Text
  import opened Scoping
  import opened Store
  import opened Patterns

  datatype Query = Query(byComposition: bool, byNamespace: bool, byWindow: bool, params: map<string, string>)

  function Param(q: Query, key: string): string {
    if key in q.params then q.params[key] else ""
  }

  /** The WHERE clause on one row. */
  predicate Matches(q: Query, r: Row) {
    && (q.byComposition ==> r.cid == Param(q, "composition_id"))
    && (q.byNamespace ==>
          var names := ParseArray(Param(q, "namespaces"));
          names.Some? && r.ns in names.value)
    && (q.byWindow ==>
          var since := ParseNat(Param(q, "since"));
          since.Some? && r.ts >= since.value * NANOS)
  }

  function QueryLimit(q: Query): nat {
    var n := ParseNat(Param(q, "limit"));
    if n.Some? then n.value else 0
  }

  /** One round trip: the decoded-later lines, or any transport or server error. */
  datatype Answer = Failed | Lines(raw: seq<Row>)

  /** ClickHouse at one moment, as the query it is sent sees it. */
  type Db = Query -> Answer

  ghost function Matching(q: Query, table: set<Row>): set<Row> {
    set r | r in table && Matches(q, r)
  }

  /** The database answers from `table`, breaking ties as it likes. */
  ghost predicate Honest(db: Db, table: set<Row>) {
    forall q: Query :: db(q).Lines? ==> Selection(Newest, db(q).raw, Matching(q, table), QueryLimit(q))
  }

  /** Each query of a loop finds its own table. */
  ghost predicate AllHonest(dbs: seq<Db>, tables: seq<set<Row>>) {
    |dbs| == |tables| && forall k :: 0 <= k < |dbs| ==> Honest(dbs[k], tables[k])
  }

  /** The database answers from `table`, breaking ties by `rank`. */
  ghost predicate RankedHonest(db: Db, table: set<Row>, rank: Row -> int) {
    && Injective(rank, table)
    && forall q: Query :: db(q).Lines? ==>
         RankedSelection(Newest, rank, db(q).raw, Matching(q, table), QueryLimit(q))
  }

  /** The two tables hold the same rows of the namespaces in `scope`. */
  ghost predicate AgreeInScope(a: set<Row>, b: set<Row>, scope: Scope) {
    forall r: Row :: Allows(scope, r.ns) ==> (r in a <==> r in b)
  }

  // ---------------------------------------------------------------------------
  // Limits
  // ---------------------------------------------------------------------------

  const DEFAULT_LIMIT: nat := 200

  /** parseLimit */
  function ParseLimit(raw: string): (n: nat)
    ensures 1 <= n <= 200
  {
    if raw == "" then DEFAULT_LIMIT
    else
      var v := Atoi(raw);
      if v.None? || v.value <= 0 then DEFAULT_LIMIT
      else if v.value > DEFAULT_LIMIT then DEFAULT_LIMIT
      else v.value
  }

  /** parseAuditLimit */
  function ParseAuditLimit(raw: string): (n: nat)
    ensures 1 <= n <= 200
  {
    if raw == "" then DEFAULT_LIMIT
    else
      var v := Atoi(raw);
      if v.None? || v.value <= 0 || v.value > DEFAULT_LIMIT then DEFAULT_LIMIT else v.value
  }

  /**
   Both limits are the number that strconv.Atoi reads when it is one between 1 and 200, and 200 for any
   other number or text; a number in range survives the trip through the bound parameter.
   */
  lemma LimitMeaning(raw: string, n: nat)
    ensures ParseAuditLimit(raw) == ParseLimit(raw)
    ensures var v := Atoi(raw);
            ParseLimit(raw) == if v.Some? && 1 <= v.value <= 200 then v.value else 200
    ensures 1 <= n <= 200 ==> (ParseLimit(Itoa(n)) == n && ParseNat(Itoa(ParseLimit(Itoa(n)))) == Some(n))
    ensures n > 200 || n == 0 ==> ParseLimit(Itoa(n)) == 200
  {
    ParseUndoesItoa(n);
    var s := Itoa(n);
    assert IsDigit(s[0]);
  }

  // ---------------------------------------------------------------------------
  // Composition ids
  // ---------------------------------------------------------------------------

  predicate IsHex(c: char) {
    '0' <= c <= '9' || 'a' <= c <= 'f' || 'A' <= c <= 'F'
  }

  /** uuidRe: 8-4-4-4-12 hexadecimal digits. */
  predicate IsUuid(s: string) {
    && |s| == 36
    && forall i :: 0 <= i < 36 ==> if i in {8, 13, 18, 23} then s[i] == '-' else IsHex(s[i])
  }

  lemma HexIsClass(c: char)
    ensures IsHex(c) <==> InClass(c, HEX)
  {
    assert HEX[0] == ('0', '9') && HEX[1] == ('a', 'f') && HEX[2] == ('A', 'F');
  }

  /** `len` characters, hyphens at the places in `hyphens` and hexadecimal digits elsewhere. */
  predicate HyphensAt(s: string, len: nat, hyphens: set<int>) {
    |s| == len && forall i :: 0 <= i < len ==> if i in hyphens then s[i] == '-' else IsHex(s[i])
  }

  /** n hexadecimal digits and no hyphen. */
  lemma HexRun(s: string, n: nat)
    ensures InPattern(s, Hex(n)) <==> |s| == n && forall i :: 0 <= i < |s| ==> IsHex(s[i])
  {
    forall i | 0 <= i < |s|
      ensures IsHex(s[i]) <==> InClass(s[i], HEX)
    {
      HexIsClass(s[i]);
    }
  }

  lemma HexThenHyphen(s: string, n: nat, p: Pattern)
    ensures InPattern(s, Then(Hex(n), Then(HYPHEN, p))) <==>
            && n + 1 <= |s|
            && (forall i :: 0 <= i < n ==> IsHex(s[i]))
            && s[n] == '-'
            && InPattern(s[n + 1..], p)
  {
    ThenAfterRun(s, HEX, n, Then(HYPHEN, p));
    if n <= |s| {
      HexRun(s[..n], n);
      ThenAfterRun(s[n..], HYPHEN.class_, 1, p);
      if n < |s| {
        assert s[n..][..1] == [s[n]] && s[n..][1..] == s[n + 1..];
        assert HYPHEN.class_[0] == ('-', '-');
      }
    }
  }

  /** n digits and a hyphen in front of what p describes by its places. */
  lemma OneMoreGroup(s: string, n: nat, p: Pattern, len: nat, hyphens: set<int>, all: set<int>)
    requires n + 1 <= |s| ==> (InPattern(s[n + 1..], p) <==> HyphensAt(s[n + 1..], len, hyphens))
    requires forall i :: i in all <==> i == n || (i > n && i - n - 1 in hyphens)
    ensures InPattern(s, Then(Hex(n), Then(HYPHEN, p))) <==> HyphensAt(s, n + 1 + len, all)
  {
    HexThenHyphen(s, n, p);
    if n + 1 <= |s| {
      var rest := s[n + 1..];
      assert forall i :: 0 <= i < |rest| ==> rest[i] == s[n + 1 + i];
      assert forall i :: n < i < |s| ==> s[i] == rest[i - n - 1];
    }
  }

  lemma TwoGroups(s: string)
    ensures InPattern(s, Then(Hex(4), Then(HYPHEN, Hex(12)))) <==> HyphensAt(s, 17, {4})
  {
    if |s| >= 5 {
      HexRun(s[5..], 12);
    }
    OneMoreGroup(s, 4, Hex(12), 12, {}, {4});
  }

  lemma AddGroup(s: string, n: nat, p: Pattern, len: nat, hyphens: set<int>, all: set<int>)
    requires forall t :: InPattern(t, p) <==> HyphensAt(t, len, hyphens)
    requires forall i :: i in all <==> i == n || (i > n && i - n - 1 in hyphens)
    ensures InPattern(s, Then(Hex(n), Then(HYPHEN, p))) <==> HyphensAt(s, n + 1 + len, all)
  {
    OneMoreGroup(s, n, p, len, hyphens, all);
  }

  /** The test by positions accepts exactly what the regular expression matches. */
  lemma UuidIsPattern(s: string)
    ensures IsUuid(s) <==> InPattern(s, UUID)
  {
    var p2 := Then(Hex(4), Then(HYPHEN, Hex(12)));
    var p3 := Then(Hex(4), Then(HYPHEN, p2));
    var p4 := Then(Hex(4), Then(HYPHEN, p3));
    forall t
      ensures InPattern(t, p2) <==> HyphensAt(t, 17, {4})
    {
      TwoGroups(t);
    }
    forall t
      ensures InPattern(t, p3) <==> HyphensAt(t, 22, {4, 9})
    {
      AddGroup(t, 4, p2, 17, {4}, {4, 9});
    }
    forall t
      ensures InPattern(t, p4) <==> HyphensAt(t, 27, {4, 9, 14})
    {
      AddGroup(t, 4, p3, 22, {4, 9}, {4, 9, 14});
    }
    AddGroup(s, 8, p4, 27, {4, 9, 14}, {8, 13, 18, 23});
    UuidPlaces(s);
  }

  lemma UuidPlaces(s: string)
    ensures IsUuid(s) <==> HyphensAt(s, 36, {8, 13, 18, 23})
  {
  }
}
