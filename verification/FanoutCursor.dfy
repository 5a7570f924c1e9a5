/** Where the cursor is and what the state says of the steps that led to it, in every state of every run. */
module FanoutCursor {
  import opened Store
  import opened Messages
  import opened FanoutMachine
  import opened FanoutInvariant
  import opened FanoutRuns
  import opened FanoutLoss

  // ---------------------------------------------------------------------------
  // The cursor
  // ---------------------------------------------------------------------------

  /** The clock read v at boot, or at an idle tick before state i. */
  ghost predicate QuietReading(run: Run, i: nat, v: int)
    requires i <= |run.steps| && i <= |run.states|
  {
    v == run.boot
    || exists k :: 0 <= k < i && run.steps[k].AdvanceIdle? && run.states[k].desk.pc == Idle(v)
  }

  /** A poll finished by now fetched and decoded a row of second v. */
  ghost predicate DecodedSecond(d: Desk, v: int) {
    exists n, r :: 0 <= n < |d.polls| && r in d.polls[n].poll.raw && r.decodable && r.ts / 1_000_000_000 == v
  }

  ghost predicate CursorBounds(run: Run, i: nat)
    requires i <= |run.steps| && i < |run.states|
  {
    var d := run.states[i].desk;
    && (forall v :: QuietReading(run, i, v) ==> v / 1_000_000_000 - 30 <= d.cursor)
    && (forall v :: DecodedSecond(d, v) ==> v <= d.cursor)
  }

  ghost predicate CursorAttained(run: Run, i: nat)
    requires i <= |run.steps| && i < |run.states|
  {
    var d := run.states[i].desk;
    (exists v :: QuietReading(run, i, v) && v / 1_000_000_000 - 30 == d.cursor) || DecodedSecond(d, d.cursor)
  }

  lemma OneMoreReading(run: Run, i: nat, v: int)
    requires 0 < i <= |run.steps| && i <= |run.states|
    ensures QuietReading(run, i, v) <==>
            QuietReading(run, i - 1, v)
            || (run.steps[i - 1].AdvanceIdle? && run.states[i - 1].desk.pc == Idle(v))
  {
  }

  lemma OneMorePoll(d: Desk, v: int)
    ensures DecodedSecond(Finish(d), v) <==>
            DecodedSecond(d, v) || exists r :: r in Batch(d.poll) && TsUnix(r) == v
  {
    var e := Finish(d);
    if r :| r in Batch(d.poll) && TsUnix(r) == v {
      assert r in e.polls[|d.polls|].poll.raw;
    }
    if n, r :| 0 <= n < |d.polls| && r in d.polls[n].poll.raw && r.decodable && r.ts / 1_000_000_000 == v {
      assert e.polls[n] == d.polls[n];
    }
    if n, r :| 0 <= n < |e.polls| && r in e.polls[n].poll.raw && r.decodable && r.ts / 1_000_000_000 == v {
      assert n < |d.polls| ==> d.polls[n] == e.polls[n];
      assert n == |d.polls| ==> r in Batch(d.poll) && TsUnix(r) == v;
    }
  }

  lemma CursorElsewhere(s: State, step: Step)
    requires Enabled(s, step) && !step.AdvanceIdle? && !step.FinishPoll?
    ensures Apply(s, step).desk.cursor == s.desk.cursor && Apply(s, step).desk.polls == s.desk.polls
  {
  }

  /** An idle tick counts as a reading, and lifts the cursor to 30 seconds before it if that is later. */
  lemma CursorAfterIdle(run: Run, i: nat)
    requires 0 < i <= |run.steps| && |run.states| == |run.steps| + 1
    requires CursorBounds(run, i - 1) && CursorAttained(run, i - 1)
    requires run.steps[i - 1].AdvanceIdle? && Enabled(run.states[i - 1], AdvanceIdle)
    requires run.states[i].desk == Advance(run.states[i - 1].desk)
    ensures CursorBounds(run, i) && CursorAttained(run, i)
  {
    var d, e := run.states[i - 1].desk, run.states[i].desk;
    LiveCursorIs(d.pc.now);
    forall v
      ensures QuietReading(run, i, v) <==> QuietReading(run, i - 1, v) || v == d.pc.now
    {
      OneMoreReading(run, i, v);
    }
    assert forall v :: DecodedSecond(e, v) <==> DecodedSecond(d, v);
    assert QuietReading(run, i, d.pc.now);
    if e.cursor == d.cursor {
      StillAttained(run, i);
    }
  }

  /** A cursor that did not move is still attained, readings and decoded seconds only being added. */
  lemma StillAttained(run: Run, i: nat)
    requires 0 < i <= |run.steps| && |run.states| == |run.steps| + 1
    requires CursorAttained(run, i - 1) && run.states[i].desk.cursor == run.states[i - 1].desk.cursor
    requires forall v :: QuietReading(run, i - 1, v) ==> QuietReading(run, i, v)
    requires forall v :: DecodedSecond(run.states[i - 1].desk, v) ==> DecodedSecond(run.states[i].desk, v)
    ensures CursorAttained(run, i)
  {
    var d := run.states[i - 1].desk;
    if v :| QuietReading(run, i - 1, v) && v / 1_000_000_000 - 30 == d.cursor {
      assert QuietReading(run, i, v);
    }
  }

  /** A finished poll lifts the cursor to its newest decoded second. */
  lemma CursorAfterPoll(run: Run, i: nat)
    requires 0 < i <= |run.steps| && |run.states| == |run.steps| + 1
    requires CursorBounds(run, i - 1) && CursorAttained(run, i - 1)
    requires run.steps[i - 1].FinishPoll? && run.states[i].desk == Finish(run.states[i - 1].desk)
    ensures CursorBounds(run, i) && CursorAttained(run, i)
  {
    var d, e := run.states[i - 1].desk, run.states[i].desk;
    SameReadings(run, i);
    forall v
      ensures DecodedSecond(e, v) <==> DecodedSecond(d, v) || exists r :: r in Batch(d.poll) && TsUnix(r) == v
    {
      OneMorePoll(d, v);
    }
    if e.cursor == d.cursor {
      StillAttained(run, i);
    } else {
      assert DecodedSecond(e, e.cursor);
    }
  }

  lemma SameReadings(run: Run, i: nat)
    requires 0 < i <= |run.steps| && i <= |run.states| && !run.steps[i - 1].AdvanceIdle?
    ensures forall v :: QuietReading(run, i, v) <==> QuietReading(run, i - 1, v)
  {
    forall v
      ensures QuietReading(run, i, v) <==> QuietReading(run, i - 1, v)
    {
      OneMoreReading(run, i, v);
    }
  }

  lemma CursorUnmoved(run: Run, i: nat)
    requires 0 < i <= |run.steps| && |run.states| == |run.steps| + 1
    requires CursorBounds(run, i - 1) && CursorAttained(run, i - 1) && !run.steps[i - 1].AdvanceIdle?
    requires run.states[i].desk.cursor == run.states[i - 1].desk.cursor
    requires run.states[i].desk.polls == run.states[i - 1].desk.polls
    ensures CursorBounds(run, i) && CursorAttained(run, i)
  {
    SameReadings(run, i);
    assert forall v :: DecodedSecond(run.states[i].desk, v) <==> DecodedSecond(run.states[i - 1].desk, v);
    StillAttained(run, i);
  }

  lemma StepMovesCursor(run: Run, i: nat)
    requires run.Valid() && 0 < i < |run.states| && CursorBounds(run, i - 1) && CursorAttained(run, i - 1)
    ensures CursorBounds(run, i) && CursorAttained(run, i)
  {
    var s, step := run.states[i - 1], run.steps[i - 1];
    assert Enabled(s, step) && run.states[i] == Apply(s, step);
    if step.AdvanceIdle? {
      CursorAfterIdle(run, i);
    } else if step.FinishPoll? {
      CursorAfterPoll(run, i);
    } else {
      CursorElsewhere(s, step);
      CursorUnmoved(run, i);
    }
  }

  /**
   The cursor is the largest of two kinds of seconds: 30 before each clock reading taken at boot or at an
   idle tick, and those of the rows that finished polls decoded.
   */
  lemma {:induction false} CursorIsLargest(run: Run, i: nat)
    requires run.Valid() && i < |run.states|
    ensures CursorBounds(run, i) && CursorAttained(run, i)
  {
    if i == 0 {
      LiveCursorIs(run.boot);
      assert QuietReading(run, 0, run.boot);
    } else {
      CursorIsLargest(run, i - 1);
      StepMovesCursor(run, i);
    }
  }

  /**
   So a row that is in the table when a query is answered is matched by it if its second is less than 30
   before every quiet reading and later than what finished polls have decoded.
   */
  lemma LookbackIsMatched(run: Run, i: nat, r: Row)
    requires run.Valid() && i < |run.steps| && run.steps[i].QueryAnswers? && r in run.states[i].desk.log
    requires forall v :: QuietReading(run, i, v) ==> r.ts / 1_000_000_000 > v / 1_000_000_000 - 30
    requires forall v :: DecodedSecond(run.states[i].desk, v) ==> r.ts / 1_000_000_000 > v
    ensures r in PollMatch(run.states[i].desk.log, run.states[i].desk.cursor)
  {
    CursorIsLargest(run, i);
    SargableCursor(r, run.states[i].desk.cursor);
  }

  // ---------------------------------------------------------------------------
  // Where the parts of the state come from
  // ---------------------------------------------------------------------------

  /** Step k is the latest tick before state i. */
  predicate LatestTick(run: Run, i: nat, k: nat)
    requires i <= |run.steps|
  {
    k < i && run.steps[k].Tick? && forall m :: k < m < i ==> !run.steps[m].Tick?
  }

  /** The poller idles if its latest tick found nobody connected, and polls if it found somebody. */
  lemma {:induction false} TickDecides(run: Run, i: nat) returns (k: nat)
    requires run.Valid() && i < |run.states| && !run.states[i].desk.pc.Resting?
    ensures LatestTick(run, i, k)
    ensures run.states[i].desk.pc.Idle? <==> run.states[k].registered == {}
    ensures run.states[i].desk.pc.Idle? ==> run.steps[k] == Tick(run.states[i].desk.pc.now)
  {
    var step := run.steps[i - 1];
    BusyBefore(run.states[i - 1], step);
    if step.Tick? {
      k := i - 1;
    } else {
      k := TickDecides(run, i - 1);
    }
  }

  lemma BusyBefore(s: State, step: Step)
    requires Enabled(s, step)
    ensures var d, e := s.desk, Apply(s, step).desk;
            if step.Tick? then (e.pc.Idle? <==> s.registered == {}) && (e.pc.Idle? ==> e.pc.now == step.now)
            else !e.pc.Resting? ==>
              !d.pc.Resting? && (e.pc.Idle? <==> d.pc.Idle?) && (d.pc.Idle? ==> e.pc == d.pc)
  {
  }

  /** A client's topic and scope are those it connected with. */
  lemma {:induction false} ConnectedAs(run: Run, i: nat, c: ClientId) returns (k: nat)
    requires run.Valid() && i < |run.states| && c in run.states[i].clients
    ensures k < i
    ensures run.steps[k] == Connect(c, run.states[i].clients[c].topic, run.states[i].clients[c].scope)
  {
    var s, step := run.states[i - 1], run.steps[i - 1];
    NewClient(s, step, c);
    if step.Connect? && step.c == c {
      k := i - 1;
    } else {
      k := ConnectedAs(run, i - 1, c);
      AcceptedIsKept(run, i - 1, i, c);
    }
  }

  lemma NewClient(s: State, step: Step, c: ClientId)
    requires Enabled(s, step) && c in Apply(s, step).clients
    ensures var cl := Apply(s, step).clients[c];
            if step.Connect? && step.c == c then cl.topic == step.topic && cl.scope == step.scope
            else c in s.clients
  {
  }

  /** The table holds what it held at boot and what was stored since. */
  lemma {:induction false} LogIsStored(run: Run, i: nat, r: Row)
    requires run.Valid() && i < |run.states|
    ensures r in run.states[i].desk.log <==> r in run.log || StoredBefore(run, i, r)
  {
    if i > 0 {
      LogIsStored(run, i - 1, r);
      StepStores(run.states[i - 1], run.steps[i - 1]);
      assert StoredBefore(run, i, r) <==> StoredBefore(run, i - 1, r) || run.steps[i - 1] == StoreRow(r);
    }
  }

  ghost predicate StoredBefore(run: Run, i: nat, r: Row)
    requires i <= |run.steps|
  {
    exists k :: 0 <= k < i && run.steps[k] == StoreRow(r)
  }

  lemma StepStores(s: State, step: Step)
    requires Enabled(s, step)
    ensures Apply(s, step).desk.log == s.desk.log + if step.StoreRow? then {step.row} else {}
  {
  }

  // ---------------------------------------------------------------------------
  // Nobody gets stuck
  // ---------------------------------------------------------------------------

  /** The lock has no writer and no reader. */
  predicate Unlocked(s: State) {
    s.writer.None? && s.observers == 0 && !s.desk.pc.Sending?
  }

  /** What the poller can do next; it waits only for a writer, and for the next client of a broadcast. */
  ghost predicate PollerMoves(s: State) {
    match s.desk.pc
    case Resting => s.writer.None? ==> forall now :: Enabled(s, Tick(now))
    case Idle(_) => Enabled(s, AdvanceIdle)
    case Asking =>
      Enabled(s, QueryFails)
      && forall raw :: Answers(raw, s.desk.log, s.desk.cursor) ==> Enabled(s, QueryAnswers(raw))
    case Publishing(k, _) => Enabled(s, FinishPoll) || (s.writer.None? ==> Enabled(s, BeginBroadcast))
    case Sending(_, _) =>
      if s.pending == {} then Enabled(s, EndBroadcast) else forall c :: c in s.pending ==> Enabled(s, Send(c))
  }

  /** What a connection can do next; it waits only for the lock, and for messages, which it need not take. */
  ghost predicate ConnectionMoves(s: State, c: ClientId)
    requires c in s.clients
  {
    match s.clients[c].phase
    case Connecting => Unlocked(s) ==> Enabled(s, LockToRegister(c))
    case Registering => Enabled(s, Register(c))
    case Streaming => Enabled(s, Leave(c)) && (s.clients[c].queue != [] ==> Enabled(s, Receive(c)))
    case Leaving => Unlocked(s) ==> Enabled(s, LockToUnregister(c))
    case Unregistering => Enabled(s, Unregister(c))
    case Removed => Enabled(s, Close(c))
    case Gone => true
  }

  /** Whoever holds the lock can move on towards letting it go. */
  ghost predicate HolderMoves(s: State) {
    && (s.writer.Some? ==> Enabled(s, Register(s.writer.value)) || Enabled(s, Unregister(s.writer.value)))
    && (s.observers > 0 ==> Enabled(s, EndObserve))
    && (s.writer.None? ==> Enabled(s, BeginObserve))
  }

  /**
   No deadlock: in every reachable state the holder of the lock can move, the poller waits only for a
   writer, connections wait only for the lock, new ones can always come, and every legal answer is taken.
   */
  lemma NobodyStuck(run: Run, i: nat)
    requires run.Valid() && i < |run.states|
    ensures var s := run.states[i];
            && HolderMoves(s) && PollerMoves(s)
            && (forall c :: c in s.clients ==> ConnectionMoves(s, c))
            && (forall c, topic, scope :: c !in s.clients ==> Enabled(s, Connect(c, topic, scope)))
  {
    RunKeepsInv(run, i);
    var s := run.states[i];
    LockMoves(s);
    PollMoves(s);
    forall c | c in s.clients
      ensures ConnectionMoves(s, c)
    {
      ClientMoves(s, c);
    }
  }

  lemma LockMoves(s: State)
    requires LockHeldRight(s)
    ensures HolderMoves(s)
  {
    assert s.writer.Some? ==> s.clients[s.writer.value].phase in {Registering, Unregistering};
  }

  lemma PollMoves(s: State)
    requires RegistryRight(s) && Streams(s) && CurrentPollRight(s.desk)
    ensures PollerMoves(s)
  {
    if s.desk.pc.Sending? {
      forall c | c in s.pending
        ensures Enabled(s, Send(c))
      {
      }
    } else if s.desk.pc.Publishing? {
      assert s.desk.pc.k == |Batch(s.desk.poll)| ==> Enabled(s, FinishPoll);
    }
  }

  lemma ClientMoves(s: State, c: ClientId)
    requires c in s.clients
    ensures ConnectionMoves(s, c)
  {
  }

  /** A query always has a legal answer, so the poller never waits for want of one. */
  lemma AnswerExists(visible: set<Row>, cursor: int) returns (raw: seq<Row>)
    ensures Answers(raw, visible, cursor)
  {
    var rows := PollMatch(visible, cursor);
    var all := Enumerate(rows);
    var rank := r => Position(all, r);
    forall r | r in rows
      ensures rank(r) < |all| && all[rank(r)] == r
    {
      assert r in AsSet(all);
    }
    raw := SelectionExists(Oldest, rank, rows, POLL_LIMIT);
  }
}
