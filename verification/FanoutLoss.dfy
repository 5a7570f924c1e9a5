/** Which rows the live stream loses, and when: the LIMIT, late rows, and answers that decode to nothing. */
module FanoutLoss {
  import opened Prelude
  import opened Store
  import opened Messages
  import opened FanoutMachine
  import opened FanoutInvariant
  import opened FanoutRuns
  import opened FanoutHistory

  // ---------------------------------------------------------------------------
  // When one poll moves its cursor past a row it did not fetch
  // ---------------------------------------------------------------------------

  /** The rows the poll's query matches in the seconds before s. */
  ghost function Below(visible: set<Row>, cursor: int, s: int): set<Row> {
    set r | r in PollMatch(visible, cursor) && TsUnix(r) < s
  }

  /** The rows it matches up to and including second s. */
  ghost function UpTo(visible: set<Row>, cursor: int, s: int): set<Row> {
    set r | r in PollMatch(visible, cursor) && TsUnix(r) <= s
  }

  /** The LIMIT falls inside second s: it is reached there and does not hold the whole second. */
  ghost predicate CutInSecond(visible: set<Row>, cursor: int, s: int) {
    |Below(visible, cursor, s)| < POLL_LIMIT < |UpTo(visible, cursor, s)|
  }

  /** Answer `raw` leaves r, a decodable row past the cursor, out for good: the new cursor covers its second. */
  ghost predicate Loses(visible: set<Row>, cursor: int, raw: seq<Row>, r: Row) {
    && r in visible && r.decodable && TsUnix(r) > cursor
    && r !in raw
    && TsUnix(r) <= MaxTs(Decoded(raw), cursor)
  }

  ghost predicate Answers(raw: seq<Row>, visible: set<Row>, cursor: int) {
    Selection(Oldest, raw, PollMatch(visible, cursor), POLL_LIMIT)
  }

  /** A lost row shares its second with a fetched row that is no newer. */
  lemma LostBeside(visible: set<Row>, cursor: int, raw: seq<Row>, r: Row) returns (x: Row)
    requires Answers(raw, visible, cursor) && Loses(visible, cursor, raw, r)
    ensures r in PollMatch(visible, cursor) && |raw| == POLL_LIMIT
    ensures x in raw && x.decodable && x.ts <= r.ts && TsUnix(x) == TsUnix(r)
  {
    SargableCursor(r, cursor);
    x :| x in Decoded(raw) && TsUnix(x) == MaxTs(Decoded(raw), cursor);
    assert Key(Oldest, x) <= Key(Oldest, r);
  }

  /** Everything before a fetched row was fetched, so the LIMIT bounds it. */
  lemma BeforeFetched(visible: set<Row>, cursor: int, raw: seq<Row>, x: Row, before: set<Row>)
    requires Answers(raw, visible, cursor) && x in raw
    requires forall y :: y in before ==> y in PollMatch(visible, cursor) && y.ts < x.ts
    ensures |before| < POLL_LIMIT
  {
    DistinctSize(raw);
    forall y | y in before
      ensures y in raw && y != x
    {
      assert y !in raw ==> Key(Oldest, x) <= Key(Oldest, y);
    }
    SubsetSize(before + {x}, AsSet(raw));
  }

  /** Up to a row left out, there are more rows than the LIMIT. */
  lemma UpToLeftOut(visible: set<Row>, cursor: int, raw: seq<Row>, r: Row, upTo: set<Row>)
    requires Answers(raw, visible, cursor) && r in PollMatch(visible, cursor) && r !in raw
    requires forall y :: y in PollMatch(visible, cursor) && y.ts <= r.ts ==> y in upTo
    ensures |upTo| > POLL_LIMIT
  {
    DistinctSize(raw);
    forall y | y in raw
      ensures y in upTo
    {
      assert Key(Oldest, y) <= Key(Oldest, r);
    }
    SubsetSize(AsSet(raw) + {r}, upTo);
  }

  /**
   When every matching row can be decoded, all legal answers fare alike: each moves the cursor past a row it left
   out exactly when the LIMIT falls inside a second of the table.
   */
  lemma PassesOverExactlyWhenFull(visible: set<Row>, cursor: int, raw: seq<Row>)
    requires Answers(raw, visible, cursor)
    requires forall r :: r in PollMatch(visible, cursor) ==> r.decodable
    ensures (exists r :: Loses(visible, cursor, raw, r)) <==> (exists s :: CutInSecond(visible, cursor, s))
  {
    if r :| Loses(visible, cursor, raw, r) {
      var x := LostBeside(visible, cursor, raw, r);
      var s := TsUnix(r);
      BeforeFetched(visible, cursor, raw, x, Below(visible, cursor, s));
      UpToLeftOut(visible, cursor, raw, r, UpTo(visible, cursor, s));
      assert CutInSecond(visible, cursor, s);
    }
    if s :| CutInSecond(visible, cursor, s) {
      var r := LeftOut(visible, cursor, raw, s);
      assert Loses(visible, cursor, raw, r);
    }
  }

  /** An answer to a table whose second s is cut leaves a row of s out and fetches one of s or later. */
  lemma LeftOut(visible: set<Row>, cursor: int, raw: seq<Row>, s: int) returns (r: Row)
    requires Answers(raw, visible, cursor) && CutInSecond(visible, cursor, s)
    requires forall r :: r in PollMatch(visible, cursor) ==> r.decodable
    ensures Loses(visible, cursor, raw, r)
  {
    var below, upTo := Below(visible, cursor, s), UpTo(visible, cursor, s);
    DistinctSize(raw);
    if upTo <= AsSet(raw) {
      SubsetSize(upTo, AsSet(raw));
      assert false;
    }
    r :| r in upTo && r !in raw;
    SargableCursor(r, cursor);
    if AsSet(raw) <= below {
      SubsetSize(AsSet(raw), below);
      assert false;
    }
    var x :| x in raw && x !in below;
    assert x in Decoded(raw);
  }

  /** The matching rows strictly older than x. */
  ghost function Earlier(visible: set<Row>, cursor: int, x: Row): set<Row> {
    set r | r in PollMatch(visible, cursor) && r.ts < x.ts
  }

  /** The matching rows no newer than y. */
  ghost function NoLater(visible: set<Row>, cursor: int, y: Row): set<Row> {
    set r | r in PollMatch(visible, cursor) && r.ts <= y.ts
  }

  /**
   x and y are decodable rows of one second between which the LIMIT can fall: x among the rows fetched,
   y among those left out.
   */
  ghost predicate CutBetween(visible: set<Row>, cursor: int, x: Row, y: Row) {
    && x in PollMatch(visible, cursor) && x.decodable
    && y in PollMatch(visible, cursor) && y.decodable
    && x != y && TsUnix(x) == TsUnix(y) && x.ts <= y.ts
    && |Earlier(visible, cursor, x)| < POLL_LIMIT < |NoLater(visible, cursor, y)|
  }

  /**
   With undecodable rows about, it depends on how ties fall: some legal answer loses a decodable row
   exactly when the LIMIT can fall between two decodable rows of one second.
   */
  lemma SomeAnswerLosesIff(visible: set<Row>, cursor: int)
    ensures (exists raw, r :: Answers(raw, visible, cursor) && Loses(visible, cursor, raw, r))
            <==> (exists x, y :: CutBetween(visible, cursor, x, y))
  {
    if raw, r :| Answers(raw, visible, cursor) && Loses(visible, cursor, raw, r) {
      var x := LostBeside(visible, cursor, raw, r);
      BeforeFetched(visible, cursor, raw, x, Earlier(visible, cursor, x));
      UpToLeftOut(visible, cursor, raw, r, NoLater(visible, cursor, r));
      assert CutBetween(visible, cursor, x, r);
    }
    if x, y :| CutBetween(visible, cursor, x, y) {
      var raw := AnswerThatCuts(visible, cursor, x, y);
      assert Loses(visible, cursor, raw, y);
    }
  }

  /** Under a tie-break in its favour, a row with fewer than LIMIT rows strictly before it is fetched. */
  lemma FetchedFirst(visible: set<Row>, cursor: int, rank: Row -> int, raw: seq<Row>, x: Row)
    requires RankedSelection(Oldest, rank, raw, PollMatch(visible, cursor), POLL_LIMIT)
    requires x in PollMatch(visible, cursor) && |Earlier(visible, cursor, x)| < POLL_LIMIT
    requires forall r :: r in PollMatch(visible, cursor) && r != x ==> rank(x) < rank(r)
    ensures x in raw
  {
    DistinctSize(raw);
    if x !in raw {
      SubsetSize(AsSet(raw), Earlier(visible, cursor, x));
      assert false;
    }
  }

  /** Break ties in favour of x and against y. */
  lemma AnswerThatCuts(visible: set<Row>, cursor: int, x: Row, y: Row) returns (raw: seq<Row>)
    requires CutBetween(visible, cursor, x, y)
    ensures Answers(raw, visible, cursor) && Loses(visible, cursor, raw, y)
  {
    var rows := PollMatch(visible, cursor);
    var rank := FirstAndLast(rows, x, y);
    raw := SelectionExists(Oldest, rank, rows, POLL_LIMIT);
    FetchedFirst(visible, cursor, rank, raw, x);
    DistinctSize(raw);
    if y in raw {
      SubsetSize(NoLater(visible, cursor, y), AsSet(raw));
      assert false;
    }
    SargableCursor(y, cursor);
    assert x in Decoded(raw);
  }

  /** The position of r in s, or |s| when it is not there. */
  function Position(s: seq<Row>, r: Row): (k: nat)
    ensures k <= |s|
    ensures r in s ==> k < |s| && s[k] == r
  {
    if s == [] || s[0] == r then 0 else 1 + Position(s[1..], r)
  }

  lemma Enumerate(rows: set<Row>) returns (s: seq<Row>)
    ensures Distinct(s) && AsSet(s) == rows
  {
    if rows == {} {
      s := [];
    } else {
      var r :| r in rows;
      var rest := Enumerate(rows - {r});
      s := [r] + rest;
      assert forall k :: 0 <= k < |rest| ==> rest[k] in AsSet(rest);
      assert AsSet(s) == {r} + AsSet(rest);
    }
  }

  /** A tie-break that puts x before and y after all other rows. */
  lemma FirstAndLast(rows: set<Row>, x: Row, y: Row) returns (rank: Row -> int)
    requires x in rows && y in rows && x != y
    ensures Injective(rank, rows)
    ensures forall r :: r in rows && r != x ==> rank(x) < rank(r)
    ensures forall r :: r in rows && r != y ==> rank(r) < rank(y)
  {
    var middle := Enumerate(rows - {x, y});
    rank := r => if r == x then -1 else if r == y then |middle| else Position(middle, r);
    forall r | r in rows && r != x && r != y
      ensures 0 <= rank(r) < |middle| && middle[rank(r)] == r
    {
      assert r in AsSet(middle);
    }
  }

  /** n rows stored in the same second. */
  ghost function Burst(n: nat): (rows: set<Row>)
    ensures |rows| == n
    ensures forall r :: r in rows ==> r.id < n && r.ts == NANOS && r.decodable
  {
    if n == 0 then {} else Burst(n - 1) + {Row(n - 1, NANOS, "", "team-a", true, "")}
  }

  /** One second with 501 rows in it: whichever 500 are fetched, the row left over is lost. */
  lemma BurstLosesARow(rows: set<Row>, raw: seq<Row>)
    requires rows == Burst(POLL_LIMIT + 1) && Answers(raw, rows, 0)
    ensures exists r :: Loses(rows, 0, raw, r)
  {
    assert Below(rows, 0, 1) == {} && UpTo(rows, 0, 1) == rows;
    assert CutInSecond(rows, 0, 1);
    PassesOverExactlyWhenFull(rows, 0, raw);
  }

  // ---------------------------------------------------------------------------
  // A row a run has lost stays lost
  // ---------------------------------------------------------------------------

  /**
   Of the rows in the seconds a finished poll covers, exactly those it fetched and decoded are ever
   published, in any state of any run: no later poll makes up for a row it passed over.
   */
  lemma PublishedIffFetched(run: Run, i: nat, n: nat, r: Row)
    requires run.Valid() && i < |run.states| && n < |run.states[i].desk.polls|
    requires Covers(run.states[i].desk.polls[n], r)
    ensures EverPublished(run.states[i].desk, r) <==> r in run.states[i].desk.polls[n].poll.raw && r.decodable
  {
    RunKeepsInv(run, i);
    RunKeepsHistory(run, i);
    CoveredOnce(run.states[i].desk, n, r);
  }

  /** A row that a poll's answer loses is published neither by that poll nor by any other. */
  lemma LostForGood(run: Run, i: nat, n: nat, r: Row)
    requires run.Valid() && i < |run.states| && n < |run.states[i].desk.polls|
    requires var p := run.states[i].desk.polls[n].poll; Loses(p.visible, p.cursor, p.raw, r)
    ensures !EverPublished(run.states[i].desk, r)
  {
    RunKeepsInv(run, i);
    var d := run.states[i].desk;
    assert RecordRight(d.polls[n], d.published, n);
    PublishedIffFetched(run, i, n, r);
  }

  /** So does a row stored, or seen, too late: its second had been passed and it was not published. */
  lemma PassedRowsStayLost(run: Run, i: nat, j: nat, r: Row)
    requires run.Valid() && i <= j < |run.states|
    requires TsUnix(r) <= run.states[i].desk.cursor && !EverPublished(run.states[i].desk, r)
    ensures !EverPublished(run.states[j].desk, r)
  {
    CursorOnlyMovesForward(run, i, j);
    var d, e := run.states[i].desk, run.states[j].desk;
    forall k | 0 <= k < |e.published|
      ensures e.published[k].row != r
    {
      if k < |d.published| {
        assert e.published[k] == d.published[k];
      }
    }
  }

  // ---------------------------------------------------------------------------
  // When undecodable rows hold the cursor back
  // ---------------------------------------------------------------------------

  /** The cursor moves exactly when something was decoded: an answer of undecodable rows leaves it in place. */
  lemma PollAdvancesIff(p: Poll)
    requires PollRight(p)
    ensures MaxTs(Batch(p), p.cursor) > p.cursor <==> Batch(p) != []
  {
    if Batch(p) != [] {
      assert Batch(p)[0] in Batch(p);
    }
  }

  /** Every decodable row the query matches has at least LIMIT matching rows before it. */
  ghost predicate Stuck(visible: set<Row>, cursor: int) {
    forall r :: r in PollMatch(visible, cursor) && r.decodable ==> |Earlier(visible, cursor, r)| >= POLL_LIMIT
  }

  /** Every legal answer decodes to nothing, leaving the cursor where it is, exactly when the table is stuck. */
  lemma EveryAnswerEmptyIffStuck(visible: set<Row>, cursor: int)
    ensures (forall raw :: Answers(raw, visible, cursor) ==> MaxTs(Decoded(raw), cursor) == cursor)
            <==> Stuck(visible, cursor)
  {
    if Stuck(visible, cursor) {
      forall raw | Answers(raw, visible, cursor)
        ensures Decoded(raw) == []
      {
        StuckDecodesNothing(visible, cursor, raw);
      }
    } else {
      var x :| x in PollMatch(visible, cursor) && x.decodable && |Earlier(visible, cursor, x)| < POLL_LIMIT;
      var raw := AnswerWith(visible, cursor, x);
      SargableCursor(x, cursor);
      assert x in Decoded(raw);
    }
  }

  lemma StuckDecodesNothing(visible: set<Row>, cursor: int, raw: seq<Row>)
    requires Answers(raw, visible, cursor) && Stuck(visible, cursor)
    ensures Decoded(raw) == []
  {
    if Decoded(raw) != [] {
      var x := Decoded(raw)[0];
      assert x in Decoded(raw);
      BeforeFetched(visible, cursor, raw, x, Earlier(visible, cursor, x));
    }
  }

  lemma AnswerWith(visible: set<Row>, cursor: int, x: Row) returns (raw: seq<Row>)
    requires x in PollMatch(visible, cursor) && |Earlier(visible, cursor, x)| < POLL_LIMIT
    ensures Answers(raw, visible, cursor) && x in raw
  {
    var rows := PollMatch(visible, cursor);
    var others := Enumerate(rows - {x});
    var rank := r => if r == x then -1 else Position(others, r);
    forall r | r in rows && r != x
      ensures 0 <= rank(r) < |others| && others[rank(r)] == r
    {
      assert r in AsSet(others);
    }
    raw := SelectionExists(Oldest, rank, rows, POLL_LIMIT);
    FetchedFirst(visible, cursor, rank, raw, x);
  }

  /** The poller is where it was in d, and has nothing to publish. */
  ghost predicate Halted(d: Desk, e: Desk) {
    && e.cursor == d.cursor && e.published == d.published && d.log <= e.log
    && (Polling(e) ==> Batch(e.poll) == [])
  }

  lemma StepStaysHalted(d: Desk, s: State, step: Step)
    requires Halted(d, s.desk) && Enabled(s, step) && Stuck(s.desk.log, d.cursor)
    requires NoAdvance(s, step, d.cursor)
    ensures Halted(d, Apply(s, step).desk)
  {
    if step.QueryAnswers? {
      StuckDecodesNothing(s.desk.log, d.cursor, step.raw);
    }
  }

  /** In `later`, every decodable row past the cursor has LIMIT rows of `log` in front of it. */
  ghost predicate Blocked(log: set<Row>, later: set<Row>, cursor: int) {
    forall r :: r in PollMatch(later, cursor) && r.decodable ==> |Earlier(log, cursor, r)| >= POLL_LIMIT
  }

  lemma BlockedIsStuck(log: set<Row>, now: set<Row>, later: set<Row>, cursor: int)
    requires log <= now <= later && Blocked(log, later, cursor)
    ensures Blocked(log, now, cursor) && Stuck(now, cursor)
  {
    forall r | r in PollMatch(now, cursor) && r.decodable
      ensures |Earlier(log, cursor, r)| >= POLL_LIMIT && |Earlier(now, cursor, r)| >= POLL_LIMIT
    {
      assert r in PollMatch(later, cursor);
      SubsetSize(Earlier(log, cursor, r), Earlier(now, cursor, r));
    }
  }

  lemma {:induction false} LogGrows(run: Run, i: nat, j: nat)
    requires run.Valid() && i <= j < |run.states|
    ensures run.states[i].desk.log <= run.states[j].desk.log
  {
    if i < j {
      LogGrows(run, i, j - 1);
      var s, step := run.states[j - 1], run.steps[j - 1];
      if !step.BeginBroadcast? && !step.FinishPoll? {
        OtherDesk(s, step);
      }
    }
  }

  /** A step that is no idle tick carrying the cursor past `cursor`. */
  predicate NoAdvance(s: State, step: Step, cursor: int) {
    step.AdvanceIdle? && s.desk.pc.Idle? ==> LiveCursor(s.desk.pc.now) <= cursor
  }

  /**
   While every decodable row past the cursor has LIMIT matching rows in front of it, the live stream
   stands still: nothing is published and the cursor stays, until an idle tick carries it on.
   */
  lemma {:induction false} StreamStandsStill(run: Run, i: nat, j: nat)
    requires run.Valid() && i <= j < |run.states| && !Polling(run.states[i].desk)
    requires Blocked(run.states[i].desk.log, run.states[j].desk.log, run.states[i].desk.cursor)
    requires forall k {:trigger run.steps[k]} :: i <= k < j ==>
               NoAdvance(run.states[k], run.steps[k], run.states[i].desk.cursor)
    ensures Halted(run.states[i].desk, run.states[j].desk)
  {
    if i < j {
      var d, s := run.states[i].desk, run.states[j - 1];
      LogGrows(run, i, j - 1);
      LogGrows(run, j - 1, j);
      BlockedIsStuck(d.log, s.desk.log, run.states[j].desk.log, d.cursor);
      StreamStandsStill(run, i, j - 1);
      StepStaysHalted(d, s, run.steps[j - 1]);
    }
  }
}
