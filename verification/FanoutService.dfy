/** What a poll does for a client that stays registered and has room: it gets all that is its own. */
module FanoutService {
  import opened Scoping
  import opened Store
  import opened Messages
  import opened FanoutMachine
  import opened FanoutInvariant
  import opened FanoutProof
  import opened FanoutRuns

  /** The messages of the current poll that c has been offered. */
  ghost function OfferedMsgs(s: State, c: ClientId): seq<Msg>
    requires s.desk.poll.first <= Offered(s, c)
  {
    Segment(s.desk.published, s.desk.poll.first, Offered(s, c))
  }

  /** Everything the client's channel ever took, as messages. */
  function StreamMsgs(cl: Client, published: seq<Pub>): seq<Msg>
    requires InRange(Stream(cl), published)
  {
    MsgsAt(published, Stream(cl))
  }

  /**
   Since poll p got its answer, c was offered part of its messages; of those it wanted, and unless some were
   dropped, it took all after the `base` it had.
   */
  ghost predicate KeepsUp(s: State, c: ClientId, p: Poll, base: seq<Msg>, backlog: nat) {
    && c in s.clients && Polling(s.desk) && s.desk.poll == p
    && p.first <= Offered(s, c)
    && var cl := s.clients[c];
       var wanted := WantedOf(cl.topic, cl.scope, OfferedMsgs(s, c));
       && cl.tally.wanted == |wanted| && cl.tally.backlog == backlog
       && InRange(Stream(cl), s.desk.published)
       && (cl.tally.dropped == 0 ==> StreamMsgs(cl, s.desk.published) == base + wanted)
  }

  lemma AnswerStarts(s: State, raw: seq<Row>, c: ClientId)
    requires Streams(s) && Enabled(s, QueryAnswers(raw)) && c in s.clients
    ensures var t := DoAnswer(s, raw);
            && InRange(Stream(t.clients[c]), t.desk.published)
            && KeepsUp(t, c, t.desk.poll, StreamMsgs(t.clients[c], t.desk.published), |t.clients[c].queue|)
  {
    var t := DoAnswer(s, raw);
    assert StreamRight(s.clients[c], s.desk.published, Offered(s, c));
    assert Stream(t.clients[c]) == Stream(s.clients[c]);
    assert OfferedMsgs(t, c) == [];
  }

  /** Nothing that matters to c happens. */
  lemma KeepsUpElsewhere(s: State, t: State, c: ClientId, p: Poll, base: seq<Msg>, backlog: nat)
    requires KeepsUp(s, c, p, base, backlog)
    requires Polling(t.desk) && t.desk.poll == p && s.desk.published == t.desk.published
    requires Offered(t, c) == Offered(s, c) && c in t.clients
    requires var a, b := s.clients[c], t.clients[c];
             && a.topic == b.topic && a.scope == b.scope && Stream(a) == Stream(b)
             && a.tally.wanted == b.tally.wanted && a.tally.backlog == b.tally.backlog
             && a.tally.dropped == b.tally.dropped
    ensures KeepsUp(t, c, p, base, backlog)
  {
  }

  lemma KeepsUpBegin(s: State, c: ClientId, p: Poll, base: seq<Msg>, backlog: nat)
    requires KeepsUp(s, c, p, base, backlog) && Enabled(s, BeginBroadcast) && c in s.registered
    ensures KeepsUp(DoBegin(s), c, p, base, backlog)
  {
    var t := DoBegin(s);
    assert Offered(t, c) == Offered(s, c) == |s.desk.published|;
    SegmentGrows(s.desk.published, NextPub(s.desk), p.first, |s.desk.published|);
    assert StreamMsgs(t.clients[c], t.desk.published) == StreamMsgs(s.clients[c], s.desk.published);
  }

  lemma SegmentSnoc(published: seq<Pub>, a: nat, b: nat)
    requires a <= b < |published|
    ensures Segment(published, a, b + 1) == Segment(published, a, b) + [MsgOf(published[b])]
  {
  }

  lemma KeepsUpSend(s: State, c: ClientId, p: Poll, base: seq<Msg>, backlog: nat)
    requires KeepsUp(s, c, p, base, backlog) && Enabled(s, Send(c)) && !s.clients[c].closed
    ensures KeepsUp(DoSend(s, c), c, p, base, backlog)
  {
    var t, cl, published := DoSend(s, c), s.clients[c], s.desk.published;
    var tag := |published| - 1;
    SegmentSnoc(published, p.first, tag);
    WantedOfNext(cl.topic, cl.scope, Segment(published, p.first, tag), MsgOf(published[tag]));
    SendOutcome(s, c);
    SendMovesOne(s, c);
    StreamTakes(cl, t.clients[c], published, base, Segment(published, p.first, tag));
  }

  /** A client that has taken its part of `seen` takes its part of the newest publication too, or drops it. */
  lemma StreamTakes(cl: Client, next: Client, published: seq<Pub>, base: seq<Msg>, seen: seq<Msg>)
    requires published != [] && InRange(Stream(cl), published)
    requires next.topic == cl.topic && next.scope == cl.scope
    requires var m, tag := MsgOf(published[|published| - 1]), |published| - 1;
             var lands := Wants(cl.topic, cl.scope, m) && |cl.queue| < CLIENT_BUFFER;
             && Stream(next) == Stream(cl) + (if lands then [tag] else [])
             && next.tally.dropped == cl.tally.dropped + One(Wants(cl.topic, cl.scope, m) && !lands)
    requires cl.tally.dropped == 0 ==> StreamMsgs(cl, published) == base + WantedOf(cl.topic, cl.scope, seen)
    ensures InRange(Stream(next), published)
    ensures next.tally.dropped == 0 ==>
              StreamMsgs(next, published) ==
              base + WantedOf(cl.topic, cl.scope, seen + [MsgOf(published[|published| - 1])])
  {
    var m := MsgOf(published[|published| - 1]);
    var had := StreamMsgs(cl, published);
    WantedOfNext(cl.topic, cl.scope, seen, m);
    assert StreamMsgs(next, published) ==
           had + if Wants(cl.topic, cl.scope, m) && |cl.queue| < CLIENT_BUFFER then [m] else [];
  }

  /** What one send does to the client's stream and figures. */
  lemma SendOutcome(s: State, c: ClientId)
    requires Enabled(s, Send(c)) && !s.clients[c].closed
    ensures var t, cl, tag := DoSend(s, c), s.clients[c], |s.desk.published| - 1;
            var wants := ClientWants(cl, s.desk.published[tag]);
            var lands := wants && |cl.queue| < CLIENT_BUFFER;
            && t.desk == s.desk && c in t.clients
            && var next := t.clients[c];
               && next.topic == cl.topic && next.scope == cl.scope
               && Stream(next) == Stream(cl) + (if lands then [tag] else [])
               && next.tally.wanted == cl.tally.wanted + One(wants)
               && next.tally.dropped == cl.tally.dropped + One(wants && !lands)
               && next.tally.backlog == cl.tally.backlog
  {
  }

  lemma KeepsUpQuiet(s: State, step: Step, c: ClientId, p: Poll, base: seq<Msg>, backlog: nat)
    requires Safe(s) && KeepsUp(s, c, p, base, backlog) && Enabled(s, step)
    requires !step.BeginBroadcast? && !step.FinishPoll? && step != Send(c)
    ensures KeepsUp(Apply(s, step), c, p, base, backlog)
  {
    var t := Apply(s, step);
    if ArrivalStep(step) || DepartureStep(step) {
      MovesPhaseOnly(s, step);
    } else if step.Receive? {
      OpenWhileInUse(s, step);
      assert Stream(t.clients[step.c]) == Stream(s.clients[step.c]);
    }
    SamePollFor(s, step, c);
    KeepsUpElsewhere(s, t, c, p, base, backlog);
  }

  lemma SamePollFor(s: State, step: Step, c: ClientId)
    requires Polling(s.desk) && Enabled(s, step)
    requires !step.BeginBroadcast? && !step.FinishPoll? && step != Send(c)
    ensures var t := Apply(s, step);
            && Polling(t.desk) && t.desk.poll == s.desk.poll && t.desk.published == s.desk.published
            && Offered(t, c) == Offered(s, c)
  {
    if step.EndBroadcast? {
      assert Apply(s, step).desk == End(s.desk) && s.pending == {};
    } else if step.Send? {
      SendMovesOne(s, step.c);
    } else {
      SameBroadcast(s, step);
    }
  }

  lemma SameBroadcast(s: State, step: Step)
    requires Polling(s.desk) && Enabled(s, step)
    requires !step.BeginBroadcast? && !step.FinishPoll? && !step.EndBroadcast? && !step.Send?
    ensures var t := Apply(s, step);
            t.desk.pc == s.desk.pc && t.desk.poll == s.desk.poll && t.desk.published == s.desk.published
            && t.pending == s.pending
  {
  }

  lemma StepKeepsUp(s: State, step: Step, c: ClientId, p: Poll, base: seq<Msg>, backlog: nat)
    requires Safe(s) && KeepsUp(s, c, p, base, backlog) && c in s.registered && Enabled(s, step)
    requires !step.FinishPoll?
    ensures KeepsUp(Apply(s, step), c, p, base, backlog)
  {
    if step.BeginBroadcast? {
      KeepsUpBegin(s, c, p, base, backlog);
    } else if step == Send(c) {
      OpenWhileInUse(s, step);
      KeepsUpSend(s, c, p, base, backlog);
    } else {
      KeepsUpQuiet(s, step, c, p, base, backlog);
    }
  }

  ghost predicate RegisteredDuring(states: seq<State>, i: nat, j: nat, c: ClientId)
    requires j < |states|
  {
    forall m {:trigger states[m]} :: i < m <= j ==> c in states[m].registered
  }

  predicate NoFinishDuring(steps: seq<Step>, i: nat, j: nat)
    requires j <= |steps|
  {
    forall m {:trigger steps[m]} :: i < m < j ==> !steps[m].FinishPoll?
  }

  /** Step i answers a poll's query, step j is the first to finish a poll after it, and c is registered till then. */
  ghost predicate RegisteredThroughPoll(run: Run, i: nat, j: nat, c: ClientId) {
    && i < j < |run.steps| && j < |run.states| && run.steps[i].QueryAnswers?
    && RegisteredDuring(run.states, i, j, c)
    && NoFinishDuring(run.steps, i, j)
  }

  lemma {:induction false} KeepsUpUntil(run: Run, i: nat, j: nat, k: nat, c: ClientId)
    requires run.Valid() && RegisteredThroughPoll(run, i, j, c) && i < k <= j
    requires c in run.states[i + 1].clients
    requires InRange(Stream(run.states[i + 1].clients[c]), run.states[i + 1].desk.published)
    ensures var s := run.states[i + 1];
            KeepsUp(run.states[k], c, s.desk.poll, StreamMsgs(s.clients[c], s.desk.published), |s.clients[c].queue|)
  {
    var s := run.states[i + 1];
    if k == i + 1 {
      StartAt(run, i, c);
    } else {
      KeepsUpUntil(run, i, j, k - 1, c);
      RunKeepsUp(run, k - 1, c, s.desk.poll, StreamMsgs(s.clients[c], s.desk.published), |s.clients[c].queue|);
    }
  }

  lemma RunKeepsUp(run: Run, k: nat, c: ClientId, p: Poll, base: seq<Msg>, backlog: nat)
    requires run.Valid() && k < |run.steps| && !run.steps[k].FinishPoll?
    requires KeepsUp(run.states[k], c, p, base, backlog) && c in run.states[k].registered
    ensures KeepsUp(run.states[k + 1], c, p, base, backlog)
  {
    RunKeepsInv(run, k);
    StepKeepsUp(run.states[k], run.steps[k], c, p, base, backlog);
  }

  lemma AnswerAt(run: Run, i: nat, c: ClientId)
    requires run.Valid() && i < |run.steps| && run.steps[i].QueryAnswers? && Inv(run.states[i])
    requires c in run.states[i + 1].clients
    ensures var s, t := run.states[i], run.states[i + 1];
            && t.desk.poll.raw == run.steps[i].raw
            && InRange(Stream(t.clients[c]), t.desk.published)
            && KeepsUp(t, c, t.desk.poll, StreamMsgs(t.clients[c], t.desk.published), |t.clients[c].queue|)
  {
    AnswerStarts(run.states[i], run.steps[i].raw, c);
  }

  /** When the poll is through, all its messages were offered, and with room enough none was dropped. */
  lemma FinishedKeepsUp(s: State, c: ClientId, p: Poll, base: seq<Msg>, backlog: nat)
    requires Enabled(s, FinishPoll) && KeepsUp(s, c, p, base, backlog)
    requires CurrentPollRight(s.desk) && SegmentsRight(s.desk) && TallyRight(s.clients[c])
    requires var cl := s.clients[c]; backlog + |Own(Decoded(p.raw), cl.topic, cl.scope)| <= 500
    ensures var cl := s.clients[c];
            StreamMsgs(cl, s.desk.published) == base + Own(Decoded(p.raw), cl.topic, cl.scope)
  {
    var cl, rows := s.clients[c], Batch(p);
    assert s.desk.pc.stage.ToGlobal? && Partial(s.desk) == 0 && rows[..s.desk.pc.k] == rows;
    assert OfferedMsgs(s, c) == AllMessages(rows);
    WantedIsOwn(cl.topic, cl.scope, rows);
  }

  /**
   A client registered from a poll's answer to its end, with room for its own messages of that poll in its
   channel, gets exactly these, in order, after what it had: its rows on the global topic, or those with its
   composition id, in its namespaces, and nothing else.
   */
  lemma CaughtUpGetsOwn(run: Run, i: nat, j: nat, c: ClientId)
    requires run.Valid() && RegisteredThroughPoll(run, i, j, c) && run.steps[j].FinishPoll?
    requires c in run.states[i + 1].clients
    requires var cl := run.states[i + 1].clients[c];
             |cl.queue| + |Own(Decoded(run.steps[i].raw), cl.topic, cl.scope)| <= 500
    ensures c in run.states[j].clients
    ensures var a, b := run.states[i + 1].clients[c], run.states[j].clients[c];
            && InRange(Stream(a), run.states[i + 1].desk.published)
            && InRange(Stream(b), run.states[j].desk.published)
            && MsgsAt(run.states[j].desk.published, b.received + b.queue) ==
               MsgsAt(run.states[i + 1].desk.published, a.received + a.queue)
               + Own(Decoded(run.steps[i].raw), a.topic, a.scope)
  {
    SameClient(run, i, j, c);
    StartAt(run, i, c);
    KeepsUpUntil(run, i, j, j, c);
    var s := run.states[i + 1];
    FinishAt(run, j, c, s.desk.poll, StreamMsgs(s.clients[c], s.desk.published), |s.clients[c].queue|);
  }

  lemma StartAt(run: Run, i: nat, c: ClientId)
    requires run.Valid() && i < |run.steps| && run.steps[i].QueryAnswers? && c in run.states[i + 1].clients
    ensures var t := run.states[i + 1];
            && t.desk.poll.raw == run.steps[i].raw
            && InRange(Stream(t.clients[c]), t.desk.published)
            && KeepsUp(t, c, t.desk.poll, StreamMsgs(t.clients[c], t.desk.published), |t.clients[c].queue|)
  {
    RunKeepsInv(run, i);
    AnswerAt(run, i, c);
  }

  lemma FinishAt(run: Run, j: nat, c: ClientId, p: Poll, base: seq<Msg>, backlog: nat)
    requires run.Valid() && j < |run.steps| && run.steps[j].FinishPoll?
    requires KeepsUp(run.states[j], c, p, base, backlog)
    requires var cl := run.states[j].clients[c]; backlog + |Own(Decoded(p.raw), cl.topic, cl.scope)| <= 500
    ensures var cl := run.states[j].clients[c];
            StreamMsgs(cl, run.states[j].desk.published) == base + Own(Decoded(p.raw), cl.topic, cl.scope)
  {
    RunKeepsInv(run, j);
    FinishedKeepsUp(run.states[j], c, p, base, backlog);
  }

  lemma {:induction false} OwnHolds(rows: seq<Row>, topic: string, scope: Scope, r: Row)
    requires r in rows
    ensures forall m :: m in OwnOf(r, topic, scope) ==> m in Own(rows, topic, scope)
  {
    var last := rows[|rows| - 1];
    if r != last {
      OwnHolds(rows[..|rows| - 1], topic, scope, r);
    }
  }

  lemma SameClient(run: Run, i: nat, j: nat, c: ClientId)
    requires run.Valid() && i < j < |run.steps| && c in run.states[i + 1].clients
    ensures c in run.states[j].clients
    ensures var a, b := run.states[i + 1].clients[c], run.states[j].clients[c];
            a.topic == b.topic && a.scope == b.scope
  {
    AcceptedIsKept(run, i + 1, j, c);
  }

  lemma UncutAnswerHas(run: Run, i: nat, r: Row)
    requires run.Valid() && i < |run.steps| && run.steps[i].QueryAnswers? && |run.steps[i].raw| < 500
    requires r in run.states[i].desk.log && r.decodable && r.ts / 1_000_000_000 > run.states[i].desk.cursor
    ensures r in Decoded(run.steps[i].raw)
  {
    assert Enabled(run.states[i], run.steps[i]);
    SargableCursor(r, run.states[i].desk.cursor);
    assert r in PollMatch(run.states[i].desk.log, run.states[i].desk.cursor);
  }

  /**
   No event is missed by a client that keeps up: when the answer was not cut by the LIMIT, every decodable
   row that was stored and past the cursor reaches each client it is for.
   */
  lemma FreshRowArrives(run: Run, i: nat, j: nat, c: ClientId, r: Row)
    requires run.Valid() && RegisteredThroughPoll(run, i, j, c) && run.steps[j].FinishPoll?
    requires c in run.states[i + 1].clients
    requires var cl := run.states[i + 1].clients[c];
             |cl.queue| + |Own(Decoded(run.steps[i].raw), cl.topic, cl.scope)| <= 500
    requires r in run.states[i].desk.log && r.decodable && r.ts / 1_000_000_000 > run.states[i].desk.cursor
    requires |run.steps[i].raw| < 500
    ensures c in run.states[j].clients
    ensures var b := run.states[j].clients[c];
            && InRange(Stream(b), run.states[j].desk.published)
            && forall m :: m in OwnOf(r, b.topic, b.scope) ==>
                 m in MsgsAt(run.states[j].desk.published, b.received + b.queue)
  {
    CaughtUpGetsOwn(run, i, j, c);
    SameClient(run, i, j, c);
    UncutAnswerHas(run, i, r);
    var b := run.states[j].clients[c];
    OwnHolds(Decoded(run.steps[i].raw), b.topic, b.scope, r);
  }
}
