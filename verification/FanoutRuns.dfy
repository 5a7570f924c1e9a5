/** What holds over every run of the fan-out machine, however its goroutines interleave. */
module FanoutRuns {
  import opened Prelude
  import opened Store
  import opened Messages
  import opened FanoutMachine
  import opened FanoutInvariant
  import opened FanoutProof

  /** A run and the boot it started from. */
  datatype Run = Run(states: seq<State>, steps: seq<Step>, log: set<Row>, boot: int) {
    ghost predicate Valid() {
      IsRun(states, steps, log, boot)
    }
  }

  lemma {:induction false} RunKeepsInv(run: Run, i: nat)
    requires run.Valid() && i < |run.states|
    ensures Inv(run.states[i])
  {
    if i == 0 {
      BootSatisfies(run.log, run.boot);
    } else {
      RunKeepsInv(run, i - 1);
      KeepsInv(run.states[i - 1], run.steps[i - 1]);
    }
  }

  /** No send on a closed channel, no second close, and no stream loop that finds its channel closed. */
  lemma NeverFaults(run: Run, i: nat)
    requires run.Valid() && i < |run.states|
    ensures !run.states[i].panicked && !run.states[i].sawClosed
    ensures forall c :: c in run.states[i].registered ==>
              c in run.states[i].clients && !run.states[i].clients[c].closed
    ensures i < |run.steps| ==> TouchesOpen(run.states[i], run.steps[i])
  {
    RunKeepsInv(run, i);
    if i < |run.steps| {
      StepTouchesOpen(run.states[i], run.steps[i]);
    }
  }

  /** A send or a close finds its channel open, and a receive finds a message. */
  predicate TouchesOpen(s: State, step: Step) {
    && (step.Send? || step.Close? ==> step.c in s.clients && !s.clients[step.c].closed)
    && (step.Receive? ==> step.c in s.clients && s.clients[step.c].queue != [])
  }

  lemma StepTouchesOpen(s: State, step: Step)
    requires Safe(s) && Enabled(s, step)
    ensures TouchesOpen(s, step)
  {
    OpenWhileInUse(s, step);
  }

  // ---------------------------------------------------------------------------
  // What the poller publishes
  // ---------------------------------------------------------------------------

  /**
   A stored row is published by at most one poll: once on the global topic and then, right after, on its
   composition id. All publications of the run are in timestamp order.
   */
  lemma EachRowOnce(run: Run, i: nat, a: nat, b: nat)
    requires run.Valid() && i < |run.states|
    requires a < b < |run.states[i].desk.published|
    ensures var p := run.states[i].desk.published;
            && p[a].row.ts <= p[b].row.ts
            && (p[a].row == p[b].row ==>
                  p[a].poll == p[b].poll && b == a + 1 && p[a].topic == GLOBAL_TOPIC && p[b].topic == p[b].row.cid)
  {
    RunKeepsInv(run, i);
  }

  /**
   A finished poll published exactly the messages of its decoded rows, row by row, each row on the global
   topic and then on its composition id; and it left the cursor at its newest decoded second.
   */
  lemma PollPublishesItsRows(run: Run, i: nat, n: nat)
    requires run.Valid() && i < |run.states| && n < |run.states[i].desk.polls|
    ensures var d := run.states[i].desk;
            var rec := d.polls[n];
            && rec.poll.first <= rec.end <= |d.published|
            && Segment(d.published, rec.poll.first, rec.end) == AllMessages(Decoded(rec.poll.raw))
            && rec.next == MaxTs(Decoded(rec.poll.raw), rec.poll.cursor)
  {
    RunKeepsInv(run, i);
    var d := run.states[i].desk;
    assert RecordRight(d.polls[n], d.published, n);
  }

  predicate InRange(q: seq<nat>, published: seq<Pub>) {
    forall k :: 0 <= k < |q| ==> q[k] < |published|
  }

  /** The messages a queue of positions stands for. */
  function MsgsAt(published: seq<Pub>, q: seq<nat>): seq<Msg>
    requires InRange(q, published)
  {
    seq(|q|, k requires 0 <= k < |q| => MsgOf(published[q[k]]))
  }

  lemma QueueGrows(published: seq<Pub>, q: seq<nat>, t: nat)
    requires InRange(q, published) && t < |published|
    ensures InRange(q + [t], published) && MsgsAt(published, q + [t]) == MsgsAt(published, q) + [MsgOf(published[t])]
  {
  }

  lemma QueueInRange(s: State, c: ClientId)
    requires Streams(s) && c in s.clients
    ensures InRange(s.clients[c].queue, s.desk.published)
  {
    var cl := s.clients[c];
    assert StreamRight(cl, s.desk.published, Offered(s, c));
    forall k | 0 <= k < |cl.queue|
      ensures cl.queue[k] < |s.desk.published|
    {
      assert Stream(cl)[|cl.received| + k] == cl.queue[k];
    }
  }

  lemma SendStepIsOffer(s: State, c: ClientId)
    requires Enabled(s, Send(c)) && !s.clients[c].closed && InRange(s.clients[c].queue, s.desk.published)
    ensures var cl, next := s.clients[c], DoSend(s, c).clients[c];
            && InRange(next.queue, s.desk.published)
            && MsgsAt(s.desk.published, next.queue) ==
               Offer(cl.topic, cl.scope, MsgsAt(s.desk.published, cl.queue),
                     MsgOf(s.desk.published[|s.desk.published| - 1]))
  {
    QueueGrows(s.desk.published, s.clients[c].queue, |s.desk.published| - 1);
  }

  lemma SendAt(run: Run, i: nat)
    requires run.Valid() && i < |run.steps| && run.steps[i].Send?
    ensures var s, c := run.states[i], run.steps[i].c;
            && Enabled(s, Send(c)) && !s.clients[c].closed
            && InRange(s.clients[c].queue, s.desk.published)
            && run.states[i + 1] == DoSend(s, c)
  {
    RunKeepsInv(run, i);
    OpenWhileInUse(run.states[i], run.steps[i]);
    QueueInRange(run.states[i], run.steps[i].c);
  }

  /** One send of the machine does to the client's queue what the hub object's non-blocking send does. */
  lemma SendIsOffer(run: Run, i: nat)
    requires run.Valid() && i < |run.steps| && run.steps[i].Send?
    ensures var s, t, c := run.states[i], run.states[i + 1], run.steps[i].c;
            && c in s.clients && c in t.clients && s.desk.published != [] && t.desk == s.desk
            && InRange(s.clients[c].queue, s.desk.published)
            && InRange(t.clients[c].queue, s.desk.published)
            && MsgsAt(s.desk.published, t.clients[c].queue) ==
               Offer(s.clients[c].topic, s.clients[c].scope, MsgsAt(s.desk.published, s.clients[c].queue),
                     MsgOf(s.desk.published[|s.desk.published| - 1]))
  {
    SendAt(run, i);
    SendStepIsOffer(run.states[i], run.steps[i].c);
  }

  /** The rows a poll could have published: visible, decodable and past its cursor. */
  ghost predicate Eligible(p: Poll, r: Row) {
    r in p.visible && r.decodable && TsUnix(r) > p.cursor
  }

  /**
   A poll publishes every eligible row older than its new cursor's second. In that last second it may
   leave rows out, but only when the LIMIT cut the answer; anything newer stays for later polls.
   */
  lemma PollCoverage(run: Run, i: nat, n: nat, r: Row)
    requires run.Valid() && i < |run.states| && n < |run.states[i].desk.polls|
    requires Eligible(run.states[i].desk.polls[n].poll, r)
    ensures var d := run.states[i].desk;
            var rec := d.polls[n];
            && (r in rec.poll.raw ==> Announced(d.published, r, n, rec.poll.floor))
            && (r !in rec.poll.raw ==> |rec.poll.raw| == POLL_LIMIT && TsUnix(r) >= rec.next)
  {
    RunKeepsInv(run, i);
    var d := run.states[i].desk;
    var rec := d.polls[n];
    assert RecordRight(rec, d.published, n);
    SargableCursor(r, rec.poll.cursor);
    assert r in PollMatch(rec.poll.visible, rec.poll.cursor);
    if r in rec.poll.raw {
      assert r in Batch(rec.poll);
    } else {
      NothingNewerThanLeftOut(rec.poll, r);
    }
  }

  lemma NothingNewerThanLeftOut(p: Poll, r: Row)
    requires PollRight(p) && r in PollMatch(p.visible, p.cursor) && r !in p.raw && TsUnix(r) > p.cursor
    ensures MaxTs(Batch(p), p.cursor) <= TsUnix(r)
  {
    var next := MaxTs(Batch(p), p.cursor);
    if next > p.cursor {
      var x :| x in Batch(p) && TsUnix(x) == next;
      assert x in p.raw;
      assert Key(Oldest, x) <= Key(Oldest, r);
    }
  }

  // ---------------------------------------------------------------------------
  // The cursor over time
  // ---------------------------------------------------------------------------

  /** From d to e the cursor did not move back, and what was added is newer than d's cursor. */
  ghost predicate Forward(d: Desk, e: Desk) {
    && d.cursor <= e.cursor
    && d.published <= e.published
    && d.polls <= e.polls
    && forall k :: |d.published| <= k < |e.published| ==> TsUnix(e.published[k].row) > d.cursor
  }

  lemma ForwardTransitive(a: Desk, b: Desk, c: Desk)
    requires Forward(a, b) && Forward(b, c)
    ensures Forward(a, c)
  {
    forall k | |a.published| <= k < |c.published|
      ensures TsUnix(c.published[k].row) > a.cursor
    {
      assert k < |b.published| ==> c.published[k] == b.published[k];
    }
  }

  lemma BeginMovesForward(d: Desk)
    requires PollRight(d.poll) && CurrentPollRight(d) && d.pc.Publishing? && d.pc.k < |Batch(d.poll)|
    ensures Forward(d, Begin(d))
  {
    assert NextPub(d).row in Batch(d.poll);
  }

  /** All other steps leave the publications and the finished polls alone. */
  lemma OtherDesk(s: State, step: Step)
    requires Enabled(s, step) && !step.BeginBroadcast? && !step.FinishPoll?
    ensures var d, e := s.desk, Apply(s, step).desk;
            && e.published == d.published && e.polls == d.polls
            && d.cursor <= e.cursor && d.log <= e.log
  {
  }

  lemma StepMovesForward(s: State, step: Step)
    requires Ledger(s.desk) && Enabled(s, step)
    ensures Forward(s.desk, Apply(s, step).desk)
  {
    if step.BeginBroadcast? {
      BeginMovesForward(s.desk);
    } else if step.FinishPoll? {
      assert Finish(s.desk).polls == s.desk.polls + [Finished(s.desk)];
    } else {
      OtherDesk(s, step);
    }
  }

  lemma RunMovesForward(run: Run, i: nat)
    requires run.Valid() && i < |run.steps|
    ensures Forward(run.states[i].desk, run.states[i + 1].desk)
  {
    RunKeepsInv(run, i);
    StepMovesForward(run.states[i], run.steps[i]);
  }

  /**
   The cursor never moves back, nothing published is withdrawn, and everything published from a state on
   is newer than that state's cursor. So a row whose second the cursor has passed unpublished (left out
   by the LIMIT, or stored too late) is never published.
   */
  lemma {:induction false} CursorOnlyMovesForward(run: Run, i: nat, j: nat)
    requires run.Valid() && i <= j < |run.states|
    ensures Forward(run.states[i].desk, run.states[j].desk)
  {
    if i < j {
      CursorOnlyMovesForward(run, i, j - 1);
      RunMovesForward(run, j - 1);
      ForwardTransitive(run.states[i].desk, run.states[j - 1].desk, run.states[j].desk);
    }
  }

  /** The clock reading at the latest boot or idle tick before state i. */
  ghost function LatestQuiet(run: Run, i: nat): int
    requires run.Valid() && i < |run.states|
  {
    if i == 0 then run.boot
    else if run.steps[i - 1].AdvanceIdle? then run.states[i - 1].desk.pc.now
    else LatestQuiet(run, i - 1)
  }

  lemma {:induction false} FloorIsLatestQuiet(run: Run, i: nat)
    requires run.Valid() && i < |run.states|
    ensures run.states[i].desk.floor == LatestQuiet(run, i) / 1_000_000_000 - 30
  {
    LiveCursorIs(LatestQuiet(run, i));
    if i > 0 {
      FloorIsLatestQuiet(run, i - 1);
      assert run.states[i] == Apply(run.states[i - 1], run.steps[i - 1]);
    }
  }

  /** Live events only: a row being published is at most 30 seconds older than the latest boot or idle tick. */
  lemma LiveOnly(run: Run, i: nat)
    requires run.Valid() && i < |run.steps| && run.steps[i].BeginBroadcast?
    ensures run.states[i + 1].desk.published != []
    ensures var p := run.states[i + 1].desk.published;
            p[|p| - 1].row.ts / 1_000_000_000 > LatestQuiet(run, i) / 1_000_000_000 - 30
  {
    RunKeepsInv(run, i);
    FloorIsLatestQuiet(run, i);
    var d := run.states[i].desk;
    assert Enabled(run.states[i], run.steps[i]);
    assert NextPub(d).row in Batch(d.poll);
    assert run.states[i + 1] == DoBegin(run.states[i]);
  }

  // ---------------------------------------------------------------------------
  // What a client receives
  // ---------------------------------------------------------------------------

  function RowAt(s: State, t: nat): Row
    requires t < |s.desk.published|
  {
    s.desk.published[t].row
  }

  /**
   Everything ever put in a client's channel is a subsequence of the publications, in timestamp order,
   each on the client's topic and inside its scope; a row comes twice only to a subscriber of the global
   topic and only when the row's composition id is that topic.
   */
  lemma ClientStream(run: Run, i: nat, c: ClientId, a: nat, b: nat)
    requires run.Valid() && i < |run.states| && c in run.states[i].clients
    requires a <= b < |Stream(run.states[i].clients[c])|
    ensures var s := run.states[i];
            var cl := s.clients[c];
            var x, y := Stream(cl)[a], Stream(cl)[b];
            && x <= y < |s.desk.published|
            && ClientWants(cl, s.desk.published[x]) && ClientWants(cl, s.desk.published[y])
            && RowAt(s, x).ts <= RowAt(s, y).ts
            && (a < b ==> x < y)
            && (a < b && RowAt(s, x) == RowAt(s, y) ==>
                  b == a + 1 && Subscription(cl.topic) == GLOBAL_TOPIC && RowAt(s, x).cid == GLOBAL_TOPIC)
  {
    RunKeepsInv(run, i);
    var s := run.states[i];
    assert StreamRight(s.clients[c], s.desk.published, Offered(s, c));
    var stream := Stream(s.clients[c]);
    assert a < b ==> stream[a] < stream[b];
    assert b > a + 1 ==> stream[a] < stream[a + 1] < stream[b];
  }

  lemma StepKeepsStream(s: State, step: Step, c: ClientId)
    requires Safe(s) && Streams(s) && Enabled(s, step) && c in s.clients
    ensures var t := Apply(s, step);
            && c in t.clients
            && t.clients[c].topic == s.clients[c].topic && t.clients[c].scope == s.clients[c].scope
            && Stream(s.clients[c]) <= Stream(t.clients[c])
            && s.clients[c].received <= t.clients[c].received
  {
    var t := Apply(s, step);
    if step.Send? {
      OpenWhileInUse(s, step);
      SendGrowsStream(s, step.c, c);
    } else if step.Receive? {
      OpenWhileInUse(s, step);
      ReceiveMovesStream(s, step.c, c);
    } else if ArrivalStep(step) || DepartureStep(step) {
      MovesPhaseOnly(s, step);
    } else {
      assert c in t.clients && SameChannel(s.clients[c], t.clients[c]);
    }
  }

  lemma SendGrowsStream(s: State, c: ClientId, b: ClientId)
    requires Enabled(s, Send(c)) && b in s.clients
    ensures var t := DoSend(s, c);
            && b in t.clients
            && t.clients[b].topic == s.clients[b].topic && t.clients[b].scope == s.clients[b].scope
            && Stream(s.clients[b]) <= Stream(t.clients[b])
            && s.clients[b].received == t.clients[b].received
  {
    SendGrowsQueue(s, c, b);
    assert s.clients[b].queue <= DoSend(s, c).clients[b].queue;
  }

  lemma SendGrowsQueue(s: State, c: ClientId, b: ClientId)
    requires Enabled(s, Send(c)) && b in s.clients
    ensures var t := DoSend(s, c);
            && b in t.clients
            && t.clients[b].topic == s.clients[b].topic && t.clients[b].scope == s.clients[b].scope
            && s.clients[b].received == t.clients[b].received
            && s.clients[b].queue <= t.clients[b].queue
  {
    if b == c {
      var queue := s.clients[c].queue;
      assert queue <= queue + [|s.desk.published| - 1];
    }
  }

  lemma ReceiveMovesStream(s: State, c: ClientId, b: ClientId)
    requires Enabled(s, Receive(c)) && s.clients[c].queue != [] && b in s.clients
    ensures var t := DoReceive(s, c);
            && b in t.clients
            && t.clients[b].topic == s.clients[b].topic && t.clients[b].scope == s.clients[b].scope
            && Stream(s.clients[b]) == Stream(t.clients[b])
            && s.clients[b].received <= t.clients[b].received
  {
  }

  /**
   A connection keeps the topic and scope it had at connect, and what its channel accepted is never lost,
   reordered or duplicated: it was received or is still queued (abandoned there once the channel closes).
   */
  lemma {:induction false} AcceptedIsKept(run: Run, i: nat, j: nat, c: ClientId)
    requires run.Valid() && i <= j < |run.states| && c in run.states[i].clients
    ensures c in run.states[j].clients
    ensures var a, b := run.states[i].clients[c], run.states[j].clients[c];
            && a.topic == b.topic && a.scope == b.scope
            && a.received + a.queue <= b.received + b.queue
            && a.received <= b.received
  {
    if i < j {
      AcceptedIsKept(run, i, j - 1, c);
      RunKeepsInv(run, j - 1);
      StepKeepsStream(run.states[j - 1], run.steps[j - 1], c);
    }
  }

  /**
   Within one poll a client loses at most its backlog plus the messages it wanted, less the buffer;
   exactly that when it drains nothing. With no row published twice on its topic, it loses no more than
   the backlog it had, so a client that had kept up loses nothing.
   */
  lemma DropBound(run: Run, i: nat, c: ClientId)
    requires run.Valid() && i < |run.states| && c in run.states[i].clients
    ensures var cl := run.states[i].clients[c];
            var t := cl.tally;
            && t.dropped <= Max(0, t.backlog + t.wanted - CLIENT_BUFFER)
            && (t.drained == 0 ==> t.dropped == Max(0, t.backlog + t.wanted - CLIENT_BUFFER))
            && (OncePerRow(cl, Batch(run.states[i].desk.poll)) ==> t.wanted <= POLL_LIMIT && t.dropped <= t.backlog)
  {
    RunKeepsInv(run, i);
    var s := run.states[i];
    assert TallyRight(s.clients[c]);
    assert ShareRight(s.clients[c], s.desk, c in s.pending);
    if OncePerRow(s.clients[c], Batch(s.desk.poll)) {
      ShareWithinLimit(s.clients[c], s.desk, c in s.pending);
    }
  }

  lemma ShareWithinLimit(cl: Client, d: Desk, waiting: bool)
    requires CurrentPollRight(d) && |Batch(d.poll)| <= POLL_LIMIT && OncePerRow(cl, Batch(d.poll))
    ensures Share(cl, d, waiting) <= POLL_LIMIT
  {
    if Polling(d) && d.pc.k < |Batch(d.poll)| {
      assert Batch(d.poll)[d.pc.k] in Batch(d.poll);
      WantsBothIff(cl.topic, cl.scope, Batch(d.poll)[d.pc.k]);
    }
  }
}
