/**
 The ClickHouse side: event rows, and what `ORDER BY Timestamp ... LIMIT n` may answer.

 A row carries an id only so that two rows with equal columns can both be stored. `ts` is the
 DateTime64(9) Timestamp in nanoseconds. The order of rows with equal timestamps is left open,
 as ClickHouse leaves it; `RankedSelection` fixes it by an arbitrary tie-break.
 */
module Store {
  import opened Prelude

  const NANOS := 1_000_000_000

  datatype Row = Row(id: nat, ts: int, cid: string, ns: string, decodable: bool, payload: string)

  /** toUnixTimestamp(Timestamp): whole seconds, rounded down. */
  function TsUnix(r: Row): int {
    r.ts / NANOS
  }

  /** `toUnixTimestamp(ts) > N` selects the same rows as `ts >= toDateTime64(N + 1, 9)`. */
  lemma SargableCursor(r: Row, cursor: int)
    ensures TsUnix(r) > cursor <==> r.ts >= (cursor + 1) * NANOS
  {
  }

  ghost function AsSet(s: seq<Row>): set<Row> {
    set r | r in s
  }

  lemma {:induction false} DistinctSize(s: seq<Row>)
    requires Distinct(s)
    ensures |AsSet(s)| == |s|
  {
    if s != [] {
      var front, last := s[..|s| - 1], s[|s| - 1];
      DistinctSize(front);
      assert AsSet(s) == AsSet(front) + {last};
      assert last !in front;
    }
  }

  datatype Order = Oldest | Newest

  function Key(o: Order, r: Row): int {
    if o.Oldest? then r.ts else -r.ts
  }

  ghost predicate Distinct(s: seq<Row>) {
    forall i, j :: 0 <= i < j < |s| ==> s[i] != s[j]
  }

  ghost predicate Ordered(o: Order, s: seq<Row>) {
    forall i, j :: 0 <= i < j < |s| ==> Key(o, s[i]) <= Key(o, s[j])
  }

  /** `answer` is one of the legal answers to `SELECT ... ORDER BY Timestamp LIMIT n` over `rows`. */
  ghost predicate Selection(o: Order, answer: seq<Row>, rows: set<Row>, n: nat) {
    && Distinct(answer)
    && Ordered(o, answer)
    && |answer| <= n
    && (forall r :: r in answer ==> r in rows)
    && (|answer| < n ==> forall r :: r in rows ==> r in answer)
    && (forall r, x :: r in rows && r !in answer && x in answer ==> Key(o, x) <= Key(o, r))
  }

  /** JSON decoding after the LIMIT: an undecodable line is logged and skipped. */
  function Decoded(raw: seq<Row>): (rows: seq<Row>)
    ensures |rows| <= |raw|
    ensures forall r :: r in rows <==> r in raw && r.decodable
  {
    if raw == [] then []
    else
      var rest := Decoded(raw[..|raw| - 1]);
      var last := raw[|raw| - 1];
      assert raw == raw[..|raw| - 1] + [last];
      if last.decodable then rest + [last] else rest
  }

  /** The row loop of queryClickHouse. */
  method DecodeRows(raw: seq<Row>) returns (rows: seq<Row>)
    ensures rows == Decoded(raw)
  {
    rows := [];
    for i := 0 to |raw|
      invariant rows == Decoded(raw[..i])
    {
      assert raw[..i + 1][..i] == raw[..i];
      if raw[i].decodable {
        rows := rows + [raw[i]];
      }
    }
    assert raw[..|raw|] == raw;
  }

  lemma {:induction false} DecodedKeepsOrder(o: Order, raw: seq<Row>)
    requires Distinct(raw) && Ordered(o, raw)
    ensures Distinct(Decoded(raw)) && Ordered(o, Decoded(raw))
  {
    if raw != [] {
      var front := raw[..|raw| - 1];
      DecodedKeepsOrder(o, front);
      var rest, last := Decoded(front), raw[|raw| - 1];
      forall i | 0 <= i < |rest|
        ensures rest[i] != last && Key(o, rest[i]) <= Key(o, last)
      {
        assert rest[i] in front;
      }
    }
  }

  /** An answer that still fills the limit after decoding had nothing undecodable in it. */
  lemma {:induction false} FullDecodeIsWhole(raw: seq<Row>, limit: nat)
    requires |raw| <= limit <= |Decoded(raw)|
    ensures Decoded(raw) == raw
  {
    if raw != [] {
      var front, last := raw[..|raw| - 1], raw[|raw| - 1];
      assert raw == front + [last];
      FullDecodeIsWhole(front, limit - 1);
    }
  }

  // ---------------------------------------------------------------------------
  // Windows
  // ---------------------------------------------------------------------------

  ghost function Since(rows: set<Row>, since: int): set<Row> {
    set r | r in rows && r.ts >= since * NANOS
  }

  /** A window that fills the limit already holds the newest n rows of the whole table. */
  lemma FullWindowIsTopN(answer: seq<Row>, rows: set<Row>, since: int, n: nat)
    requires Selection(Newest, answer, Since(rows, since), n)
    requires |answer| == n
    ensures Selection(Newest, answer, rows, n)
  {
    forall r, x | r in rows && r !in answer && x in answer
      ensures Key(Newest, x) <= Key(Newest, r)
    {
      assert x in Since(rows, since);
      if r in Since(rows, since) {
      } else {
        assert r.ts < since * NANOS <= x.ts;
      }
    }
  }

  // ---------------------------------------------------------------------------
  // A fixed tie-break makes the answer unique
  // ---------------------------------------------------------------------------

  ghost predicate Injective(rank: Row -> int, rows: set<Row>) {
    forall a, b :: a in rows && b in rows && rank(a) == rank(b) ==> a == b
  }

  ghost predicate Before(o: Order, rank: Row -> int, a: Row, b: Row) {
    Key(o, a) < Key(o, b) || (Key(o, a) == Key(o, b) && rank(a) < rank(b))
  }

  ghost predicate RankedSelection(o: Order, rank: Row -> int, answer: seq<Row>, rows: set<Row>, n: nat) {
    && Selection(o, answer, rows, n)
    && (forall i, j :: 0 <= i < j < |answer| ==> Before(o, rank, answer[i], answer[j]))
    && (forall r, x :: r in rows && r !in answer && x in answer ==> Before(o, rank, x, r))
  }

  lemma {:induction false} SamePrefix(o: Order, rank: Row -> int, a: seq<Row>, b: seq<Row>, rows: set<Row>,
                                      n: nat, k: nat)
    requires Injective(rank, rows)
    requires RankedSelection(o, rank, a, rows, n) && RankedSelection(o, rank, b, rows, n)
    requires k <= |a| && k <= |b|
    ensures a[..k] == b[..k]
  {
    if k > 0 {
      SamePrefix(o, rank, a, b, rows, n, k - 1);
      var x, y := a[k - 1], b[k - 1];
      assert x in rows && y in rows;
      if x != y {
        assert Before(o, rank, x, y) || Before(o, rank, y, x);
        if Before(o, rank, x, y) {
          NotSkipped(o, rank, b, a, rows, n, k - 1);
        } else {
          NotSkipped(o, rank, a, b, rows, n, k - 1);
        }
      }
      assert a[..k] == a[..k - 1] + [x] && b[..k] == b[..k - 1] + [y];
    }
  }

  lemma PrefixAgrees(a: seq<Row>, b: seq<Row>, k: nat)
    requires k <= |a| && k <= |b| && a[..k] == b[..k]
    ensures forall m :: 0 <= m < k ==> a[m] == b[m]
  {
    forall m | 0 <= m < k
      ensures a[m] == b[m]
    {
      assert a[..k][m] == b[..k][m];
    }
  }

  /** Where two answers agree up to k, the later one cannot put a row before the other's next row. */
  lemma NotSkipped(o: Order, rank: Row -> int, a: seq<Row>, b: seq<Row>, rows: set<Row>, n: nat, k: nat)
    requires RankedSelection(o, rank, a, rows, n) && RankedSelection(o, rank, b, rows, n)
    requires k < |a| && k < |b| && a[..k] == b[..k] && a[k] != b[k]
    ensures !Before(o, rank, b[k], a[k])
  {
    var y := b[k];
    assert y in rows;
    PrefixAgrees(a, b, k);
    if y in a {
      var m :| 0 <= m < |a| && a[m] == y;
      assert m > k;
    } else {
      assert a[k] in a;
    }
  }

  /** Under a fixed tie-break a query has exactly one answer. */
  lemma RankedSelectionUnique(o: Order, rank: Row -> int, a: seq<Row>, b: seq<Row>, rows: set<Row>, n: nat)
    requires Injective(rank, rows)
    requires RankedSelection(o, rank, a, rows, n) && RankedSelection(o, rank, b, rows, n)
    ensures a == b
  {
    assert |a| < |b| ==> b[|a|] in rows;
    assert |b| < |a| ==> a[|b|] in rows;
    var k := Min(|a|, |b|);
    SamePrefix(o, rank, a, b, rows, n, k);
    PrefixAgrees(a, b, k);
  }

  lemma FullRankedWindowIsTopN(rank: Row -> int, answer: seq<Row>, rows: set<Row>, since: int, n: nat)
    requires RankedSelection(Newest, rank, answer, Since(rows, since), n)
    requires |answer| == n
    ensures RankedSelection(Newest, rank, answer, rows, n)
  {
    FullWindowIsTopN(answer, rows, since, n);
    forall r, x | r in rows && r !in answer && x in answer
      ensures Before(Newest, rank, x, r)
    {
      assert x in Since(rows, since);
      if r !in Since(rows, since) {
        assert r.ts < since * NANOS <= x.ts;
      }
    }
  }

  // ---------------------------------------------------------------------------
  // Every query has an answer, so nothing stated about answers is vacuous
  // ---------------------------------------------------------------------------

  lemma {:induction false} FirstRow(o: Order, rank: Row -> int, rows: set<Row>) returns (first: Row)
    requires rows != {} && Injective(rank, rows)
    ensures first in rows
    ensures forall r :: r in rows && r != first ==> Before(o, rank, first, r)
    decreases |rows|
  {
    var x :| x in rows;
    var rest := rows - {x};
    if rest == {} {
      first := x;
      assert rows == {x};
    } else {
      var y := FirstRow(o, rank, rest);
      first := if Before(o, rank, x, y) then x else y;
      forall r | r in rows && r != first
        ensures Before(o, rank, first, r)
      {
        if r != x {
          assert r in rest;
        }
      }
    }
  }

  lemma {:induction false} SelectionExists(o: Order, rank: Row -> int, rows: set<Row>, n: nat)
    returns (answer: seq<Row>)
    requires Injective(rank, rows)
    ensures RankedSelection(o, rank, answer, rows, n)
    ensures |answer| == Min(n, |rows|)
    decreases n
  {
    if n == 0 || rows == {} {
      answer := [];
    } else {
      var first := FirstRow(o, rank, rows);
      var rest := SelectionExists(o, rank, rows - {first}, n - 1);
      answer := [first] + rest;
      FirstThenRest(o, rank, rows, n, first, rest);
    }
  }

  lemma FirstThenRest(o: Order, rank: Row -> int, rows: set<Row>, n: nat, first: Row, rest: seq<Row>)
    requires n > 0 && first in rows
    requires forall r :: r in rows && r != first ==> Before(o, rank, first, r)
    requires RankedSelection(o, rank, rest, rows - {first}, n - 1)
    ensures RankedSelection(o, rank, [first] + rest, rows, n)
  {
    var answer := [first] + rest;
    assert forall x :: x in answer <==> x == first || x in rest;
    forall i, j | 0 <= i < j < |answer|
      ensures answer[i] != answer[j] && Before(o, rank, answer[i], answer[j])
    {
      assert answer[j] == rest[j - 1] && answer[j] in rest;
      if i > 0 {
        assert answer[i] == rest[i - 1];
      }
    }
    forall r, x | r in rows && r !in answer && x in answer
      ensures Before(o, rank, x, r)
    {
      assert r in rows - {first} && r !in rest;
    }
  }
}
