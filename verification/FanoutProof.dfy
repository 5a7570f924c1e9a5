/** Every step of the fan-out machine keeps the invariant. */
module FanoutProof {
  import opened Store
  import opened Messages
  import opened FanoutMachine
  import opened FanoutInvariant

  lemma BootSatisfies(log: set<Row>, now: int)
    ensures Inv(Boot(log, now))
  {
  }

  // ---------------------------------------------------------------------------
  // The lock, the registry and the channels
  // ---------------------------------------------------------------------------

  predicate ArrivalStep(step: Step) {
    step.Connect? || step.LockToRegister? || step.Register?
  }

  predicate DepartureStep(step: Step) {
    step.Leave? || step.LockToUnregister? || step.Unregister? || step.Close?
  }

  predicate PollerStep(step: Step) {
    step.Tick? || step.AdvanceIdle? || step.QueryFails? || step.QueryAnswers? || step.BeginBroadcast?
    || step.EndBroadcast? || step.FinishPoll?
  }

  lemma SafeArrival(s: State, step: Step)
    requires Safe(s) && Enabled(s, step) && ArrivalStep(step)
    ensures Safe(Apply(s, step))
  {
  }

  lemma SafeUnregister(s: State, c: ClientId)
    requires Safe(s) && Enabled(s, Unregister(c))
    ensures Safe(Apply(s, Unregister(c)))
  {
    assert s.writer.Some? && !s.desk.pc.Sending?;
  }

  lemma SafeClose(s: State, c: ClientId)
    requires Safe(s) && Enabled(s, Close(c))
    ensures Safe(DoClose(s, c))
  {
    assert !s.clients[c].closed && c !in s.registered;
  }

  lemma SafeDeparture(s: State, step: Step)
    requires Safe(s) && Enabled(s, step) && DepartureStep(step)
    ensures Safe(Apply(s, step))
  {
    if step.Unregister? {
      SafeUnregister(s, step.c);
    } else if step.Close? {
      SafeClose(s, step.c);
    }
  }

  lemma SafePoller(s: State, step: Step)
    requires Safe(s) && Enabled(s, step) && PollerStep(step)
    ensures Safe(Apply(s, step))
  {
  }

  lemma SafeSend(s: State, c: ClientId)
    requires Safe(s) && Enabled(s, Send(c))
    ensures Safe(DoSend(s, c))
  {
    assert c in s.registered && !s.clients[c].closed;
  }

  lemma SafeReceive(s: State, c: ClientId)
    requires Safe(s) && Enabled(s, Receive(c))
    ensures Safe(DoReceive(s, c))
  {
    assert !s.clients[c].closed;
  }

  lemma KeepsSafe(s: State, step: Step)
    requires Safe(s) && Enabled(s, step)
    ensures Safe(Apply(s, step))
  {
    if ArrivalStep(step) {
      SafeArrival(s, step);
    } else if DepartureStep(step) {
      SafeDeparture(s, step);
    } else if PollerStep(step) {
      SafePoller(s, step);
    } else if step.Send? {
      SafeSend(s, step.c);
    } else if step.Receive? {
      SafeReceive(s, step.c);
    } else {
      assert step.StoreRow? || step.BeginObserve? || step.EndObserve?;
    }
  }

  // ---------------------------------------------------------------------------
  // The cursor and the publications
  // ---------------------------------------------------------------------------

  lemma LedgerStore(d: Desk, row: Row)
    requires Ledger(d)
    ensures Ledger(d.(log := d.log + {row}))
  {
    var e := d.(log := d.log + {row});
    PubsElsewhere(d, e);
  }

  /** A publication stays in its place while the poller moves within the poll it is in. */
  lemma PubsElsewhere(d: Desk, e: Desk)
    requires PubsRight(d)
    requires d.published == e.published && d.polls == e.polls && d.log <= e.log && d.cursor <= e.cursor
    requires Polling(d) == Polling(e) && (Polling(d) ==> d.poll.first == e.poll.first)
    ensures PubsRight(e)
  {
    assert forall i :: 0 <= i < |e.published| ==> Placed(d, i) ==> Placed(e, i);
  }

  /** Between polls the poller may move among its waiting places and push the cursor forward. */
  lemma LedgerWaiting(d: Desk, e: Desk)
    requires Ledger(d) && !Polling(d) && !Polling(e)
    requires e.cursor >= d.cursor && e.cursor >= e.floor
    requires d.log == e.log && d.published == e.published && d.polls == e.polls
    ensures Ledger(e)
  {
    PubsElsewhere(d, e);
  }

  lemma AnswerIsRight(d: Desk, raw: seq<Row>)
    requires CurrentPollRight(d) && Selection(Oldest, raw, PollMatch(d.log, d.cursor), POLL_LIMIT)
    ensures PollRight(Ask(d, raw).poll)
  {
    DecodedKeepsOrder(Oldest, raw);
    forall r | r in Decoded(raw)
      ensures TsUnix(r) > d.cursor
    {
      assert r in raw;
      assert r in PollMatch(d.log, d.cursor);
      SargableCursor(r, d.cursor);
    }
  }

  lemma LedgerAnswer(d: Desk, raw: seq<Row>)
    requires Ledger(d) && d.pc.Asking? && Selection(Oldest, raw, PollMatch(d.log, d.cursor), POLL_LIMIT)
    ensures Ledger(Ask(d, raw))
  {
    AnswerIsRight(d, raw);
    var e := Ask(d, raw);
    assert forall i :: 0 <= i < |e.published| ==> Placed(d, i) ==> Placed(e, i);
  }

  /** The next publication is no older than any before it, and repeats a row only on that row's own topic. */
  lemma NextIsNewest(d: Desk, i: nat)
    requires CurrentPollRight(d) && PollRight(d.poll) && BatchRight(d)
    requires d.pc.Publishing? && d.pc.k < |Batch(d.poll)| && i < |d.published| && Placed(d, i)
    ensures d.published[i].row.ts <= NextPub(d).row.ts
    ensures d.published[i].poll <= NextPub(d).poll
    ensures d.published[i].poll < NextPub(d).poll ==> TsUnix(d.published[i].row) < TsUnix(NextPub(d).row)
    ensures d.published[i].row == NextPub(d).row ==>
              i == |d.published| - 1 && d.pc.stage.ToComposition? && d.published[i].topic == GLOBAL_TOPIC
  {
    var batch, k := Batch(d.poll), d.pc.k;
    assert batch[k] in batch;
    if i >= d.poll.first {
      if i < |d.published| - Partial(d) {
        assert d.published[i].row in batch[..k];
        var j :| 0 <= j < k && batch[j] == d.published[i].row;
        assert Key(Oldest, batch[j]) <= Key(Oldest, batch[k]);
      } else {
        assert Recent(d, 1, GLOBAL_TOPIC);
      }
    }
  }

  lemma AppendInOrder(published: seq<Pub>, p: Pub)
    requires InOrder(published) && AtMostTwice(published)
    requires forall i :: 0 <= i < |published| ==>
               && published[i].row.ts <= p.row.ts
               && published[i].poll <= p.poll
               && (published[i].poll < p.poll ==> TsUnix(published[i].row) < TsUnix(p.row))
               && (published[i].row == p.row ==>
                     i == |published| - 1 && published[i].topic == GLOBAL_TOPIC && p.topic == p.row.cid)
    ensures InOrder(published + [p]) && AtMostTwice(published + [p])
  {
  }

  lemma BeginKeepsOrder(d: Desk)
    requires CurrentPollRight(d) && PollRight(d.poll) && BatchRight(d) && PubsRight(d)
    requires d.pc.Publishing? && d.pc.k < |Batch(d.poll)|
    ensures InOrder(Begin(d).published) && AtMostTwice(Begin(d).published)
  {
    var p := NextPub(d);
    forall i | 0 <= i < |d.published|
      ensures d.published[i].row.ts <= p.row.ts
      ensures d.published[i].poll <= p.poll
      ensures d.published[i].poll < p.poll ==> TsUnix(d.published[i].row) < TsUnix(p.row)
      ensures d.published[i].row == p.row ==>
                i == |d.published| - 1 && d.published[i].topic == GLOBAL_TOPIC && p.topic == p.row.cid
    {
      NextIsNewest(d, i);
    }
    AppendInOrder(d.published, p);
  }

  lemma BeginKeepsPubs(d: Desk)
    requires CurrentPollRight(d) && PollRight(d.poll) && BatchRight(d) && PubsRight(d)
    requires d.pc.Publishing? && d.pc.k < |Batch(d.poll)|
    ensures PubsRight(Begin(d))
  {
    var e, p := Begin(d), NextPub(d);
    BeginKeepsOrder(d);
    assert p.row in Batch(d.poll);
    assert p.row in d.poll.raw && p.row in PollMatch(d.poll.visible, d.poll.cursor);
    assert forall i :: 0 <= i < |d.published| ==> Placed(d, i) ==> Placed(e, i);
    assert Placed(e, |d.published|);
  }

  lemma StillAnnounced(published: seq<Pub>, p: Pub, r: Row, poll: nat, floor: int)
    requires Announced(published, r, poll, floor)
    ensures Announced(published + [p], r, poll, floor)
  {
  }

  lemma BeginKeepsBatch(d: Desk)
    requires CurrentPollRight(d) && BatchRight(d) && d.pc.Publishing? && d.pc.k < |Batch(d.poll)|
    ensures CurrentPollRight(Begin(d)) && BatchRight(Begin(d))
  {
    var e, p := Begin(d), NextPub(d);
    forall j | 0 <= j < d.pc.k
      ensures Announced(e.published, Batch(d.poll)[j], |d.polls|, d.floor)
    {
      StillAnnounced(d.published, p, Batch(d.poll)[j], |d.polls|, d.floor);
    }
    assert d.pc.stage.ToComposition? ==> Recent(d, 1, GLOBAL_TOPIC);
  }

  lemma BeginKeepsRecords(d: Desk)
    requires RecordsRight(d) && d.pc.Publishing? && d.pc.k < |Batch(d.poll)|
    ensures RecordsRight(Begin(d))
  {
    var e, p := Begin(d), NextPub(d);
    forall n | 0 <= n < |e.polls|
      ensures RecordRight(e.polls[n], e.published, n)
    {
      var rec := d.polls[n];
      assert RecordRight(rec, d.published, n);
      forall r | r in Batch(rec.poll)
        ensures Announced(e.published, r, n, rec.poll.floor)
      {
        StillAnnounced(d.published, p, r, n, rec.poll.floor);
      }
    }
  }

  lemma LedgerBegin(d: Desk)
    requires Ledger(d) && d.pc.Publishing? && d.pc.k < |Batch(d.poll)|
    ensures Ledger(Begin(d))
  {
    BeginKeepsPubs(d);
    BeginKeepsBatch(d);
    BeginKeepsRecords(d);
  }

  lemma EndKeepsBatch(d: Desk)
    requires CurrentPollRight(d) && BatchRight(d) && d.pc.Sending?
    ensures CurrentPollRight(End(d)) && BatchRight(End(d))
  {
    var e, batch, k := End(d), Batch(d.poll), d.pc.k;
    if e.pc.stage.ToGlobal? {
      assert batch[..k + 1] == batch[..k] + [batch[k]];
      assert Recent(d, Partial(d), GLOBAL_TOPIC);
      assert Partial(d) == 2 ==> Recent(d, 1, batch[k].cid);
      assert Announced(e.published, batch[k], |e.polls|, e.floor);
    }
  }

  lemma LedgerEnd(d: Desk)
    requires Ledger(d) && d.pc.Sending? && d.pc.k < |Batch(d.poll)|
    ensures Ledger(End(d))
  {
    EndKeepsBatch(d);
    PubsElsewhere(d, End(d));
  }

  lemma FinishKeepsPubs(d: Desk)
    requires CurrentPollRight(d) && BatchRight(d) && PubsRight(d)
    requires d.pc.Publishing? && d.pc.k == |Batch(d.poll)|
    ensures PubsRight(Finish(d))
  {
    var e := Finish(d);
    forall i | 0 <= i < |e.published|
      ensures Placed(e, i)
    {
      assert Placed(d, i);
      if i >= d.poll.first {
        assert d.published[i].row in Batch(d.poll);
      }
    }
  }

  lemma WholeBatchAnnounced(batch: seq<Row>, published: seq<Pub>, n: nat, floor: int)
    requires forall j :: 0 <= j < |batch| ==> Announced(published, batch[j], n, floor)
    ensures forall r :: r in batch ==> Announced(published, r, n, floor)
  {
  }

  lemma AppendRecord(polls: seq<PollRecord>, rec: PollRecord, published: seq<Pub>)
    requires forall n :: 0 <= n < |polls| ==> RecordRight(polls[n], published, n)
    requires RecordRight(rec, published, |polls|)
    ensures var next := polls + [rec]; forall n :: 0 <= n < |next| ==> RecordRight(next[n], published, n)
  {
  }

  function Finished(d: Desk): PollRecord {
    PollRecord(d.poll, MaxTs(Batch(d.poll), d.cursor), |d.published|)
  }

  lemma FinishedRecord(d: Desk)
    requires PollRight(d.poll) && d.poll.cursor == d.cursor && d.poll.floor == d.floor
    requires forall j :: 0 <= j < |Batch(d.poll)| ==> Announced(d.published, Batch(d.poll)[j], |d.polls|, d.floor)
    ensures RecordRight(Finished(d), d.published, |d.polls|)
  {
    WholeBatchAnnounced(Batch(d.poll), d.published, |d.polls|, d.floor);
  }

  lemma FinishKeepsRecords(d: Desk)
    requires RecordsRight(d) && d.poll.visible <= d.log
    requires RecordRight(Finished(d), d.published, |d.polls|)
    ensures RecordsRight(Finish(d))
  {
    AppendRecord(d.polls, Finished(d), d.published);
  }

  lemma LedgerFinish(d: Desk)
    requires Ledger(d) && d.pc.Publishing? && d.pc.k == |Batch(d.poll)|
    ensures Ledger(Finish(d))
  {
    FinishKeepsPubs(d);
    FinishedRecord(d);
    FinishKeepsRecords(d);
  }

  lemma KeepsLedger(s: State, step: Step)
    requires Ledger(s.desk) && Enabled(s, step)
    ensures Ledger(Apply(s, step).desk)
  {
    if step.StoreRow? {
      LedgerStore(s.desk, step.row);
    } else if step.Tick? || step.AdvanceIdle? || step.QueryFails? {
      LedgerWaiting(s.desk, Apply(s, step).desk);
    } else if step.QueryAnswers? {
      LedgerAnswer(s.desk, step.raw);
    } else if step.BeginBroadcast? {
      LedgerBegin(s.desk);
    } else if step.EndBroadcast? {
      LedgerEnd(s.desk);
    } else if step.FinishPoll? {
      LedgerFinish(s.desk);
    } else {
      assert Apply(s, step).desk == s.desk;
    }
  }

  lemma SegmentGrows(published: seq<Pub>, p: Pub, a: nat, b: nat)
    requires a <= b <= |published|
    ensures Segment(published + [p], a, b) == Segment(published, a, b)
    ensures Segment(published + [p], a, |published| + 1) == Segment(published, a, |published|) + [MsgOf(p)]
  {
  }

  lemma SegmentsBegin(d: Desk)
    requires CurrentPollRight(d) && SegmentsRight(d) && d.pc.Publishing? && d.pc.k < |Batch(d.poll)|
    requires CurrentPollRight(Begin(d))
    ensures SegmentsRight(Begin(d))
  {
    var e, p, k := Begin(d), NextPub(d), d.pc.k;
    var row := Batch(d.poll)[k];
    forall n | 0 <= n < |d.polls|
      ensures Segment(e.published, d.polls[n].poll.first, d.polls[n].end) == AllMessages(Batch(d.polls[n].poll))
    {
      SegmentGrows(d.published, p, d.polls[n].poll.first, d.polls[n].end);
    }
    SegmentGrows(d.published, p, d.poll.first, |d.published|);
    var done := AllMessages(Batch(d.poll)[..k]);
    if d.pc.stage.ToGlobal? {
      assert RowMessages(row)[..1] == [MsgOf(p)];
    } else {
      assert done + RowMessages(row)[..1] + [MsgOf(p)] == done + RowMessages(row)[..2];
    }
  }

  lemma SegmentsEnd(d: Desk)
    requires CurrentPollRight(d) && SegmentsRight(d) && d.pc.Sending? && CurrentPollRight(End(d))
    ensures SegmentsRight(End(d))
  {
    var e, row := End(d), Batch(d.poll)[d.pc.k];
    assert e.published == d.published && e.polls == d.polls && e.poll == d.poll;
    if e.pc.stage.ToComposition? {
      assert Partial(d) == 1 && Partial(e) == 1 && e.pc.k == d.pc.k;
    } else {
      assert Partial(e) == 0 && e.pc.k == d.pc.k + 1;
      assert RowMessages(row)[..Partial(d)] == RowMessages(row);
      OneMoreRow(Batch(d.poll), d.pc.k);
    }
  }

  lemma OneMoreRow(batch: seq<Row>, k: nat)
    requires k < |batch|
    ensures AllMessages(batch[..k + 1]) == AllMessages(batch[..k]) + RowMessages(batch[k])
  {
    assert batch[..k + 1][..k] == batch[..k];
  }

  lemma SegmentsFinish(d: Desk)
    requires CurrentPollRight(d) && SegmentsRight(d) && d.pc.Publishing? && d.pc.k == |Batch(d.poll)|
    requires CurrentPollRight(Finish(d))
    ensures SegmentsRight(Finish(d))
  {
    assert Batch(d.poll)[..d.pc.k] == Batch(d.poll);
  }

  lemma KeepsSegments(s: State, step: Step)
    requires CurrentPollRight(s.desk) && SegmentsRight(s.desk) && Enabled(s, step)
    requires CurrentPollRight(Apply(s, step).desk)
    ensures SegmentsRight(Apply(s, step).desk)
  {
    if step.BeginBroadcast? {
      SegmentsBegin(s.desk);
    } else if step.EndBroadcast? {
      SegmentsEnd(s.desk);
    } else if step.FinishPoll? {
      SegmentsFinish(s.desk);
    } else if step.QueryAnswers? {
      assert Batch(Ask(s.desk, step.raw).poll)[..0] == [];
    } else {
      SameSegments(s, step);
      SegmentsElsewhere(s.desk, Apply(s, step).desk);
    }
  }

  predicate SegmentStep(step: Step) {
    step.BeginBroadcast? || step.EndBroadcast? || step.FinishPoll? || step.QueryAnswers?
  }

  lemma SameSegments(s: State, step: Step)
    requires Enabled(s, step) && !SegmentStep(step)
    ensures var d, e := s.desk, Apply(s, step).desk;
            && e.published == d.published && e.polls == d.polls
            && Polling(e) == Polling(d) && (Polling(d) ==> e.poll == d.poll && e.pc == d.pc)
  {
  }

  lemma SegmentsElsewhere(d: Desk, e: Desk)
    requires CurrentPollRight(d) && SegmentsRight(d) && CurrentPollRight(e)
    requires e.published == d.published && e.polls == d.polls
    requires Polling(e) == Polling(d) && (Polling(d) ==> e.poll == d.poll && e.pc == d.pc)
    ensures SegmentsRight(e)
  {
  }

  // ---------------------------------------------------------------------------
  // The clients' streams
  // ---------------------------------------------------------------------------

  lemma StreamsGrow(cl: Client, published: seq<Pub>, more: seq<Pub>, a: nat, b: nat)
    requires StreamRight(cl, published, a) && published <= more && a <= b <= |more|
    ensures StreamRight(cl, more, b)
  {
  }

  lemma ReceiveKeepsStream(cl: Client, next: Client, published: seq<Pub>, limit: nat)
    requires StreamRight(cl, published, limit) && cl.queue != []
    requires next.topic == cl.topic && next.scope == cl.scope
    requires next.queue == cl.queue[1..] && next.received == cl.received + [cl.queue[0]]
    ensures StreamRight(next, published, limit)
  {
    assert Stream(next) == Stream(cl);
  }

  lemma SendKeepsStream(cl: Client, next: Client, published: seq<Pub>)
    requires published != [] && StreamRight(cl, published, |published| - 1)
    requires |cl.queue| < CLIENT_BUFFER && ClientWants(cl, published[|published| - 1])
    requires next.topic == cl.topic && next.scope == cl.scope
    requires next.queue == cl.queue + [|published| - 1] && next.received == cl.received
    ensures StreamRight(next, published, |published|)
  {
    assert Stream(next) == Stream(cl) + [|published| - 1];
  }

  predicate SameChannel(a: Client, b: Client) {
    a.topic == b.topic && a.scope == b.scope && a.queue == b.queue && a.received == b.received
  }

  predicate UnusedChannel(a: Client) {
    a.queue == [] && a.received == []
  }

  /** Every client of t has the channel it had in s, or a new one; publications and offers only grow. */
  ghost predicate Quiet(s: State, t: State) {
    && s.desk.published <= t.desk.published
    && (t.desk.pc.Sending? ==> t.desk.published != [])
    && (forall c :: c in t.clients ==>
          if c in s.clients then SameChannel(s.clients[c], t.clients[c]) && Offered(s, c) <= Offered(t, c)
          else UnusedChannel(t.clients[c]))
  }

  /** Steps of a connection outside its channel: they move its phase, the lock and the registry. */
  ghost predicate PhaseOnly(s: State, t: State) {
    && t.desk == s.desk && t.pending == s.pending && t.account == s.account && t.accounts == s.accounts
    && s.clients.Keys <= t.clients.Keys
    && (forall c :: c in t.clients ==>
          if c in s.clients then SameChannel(s.clients[c], t.clients[c]) && s.clients[c].tally == t.clients[c].tally
          else UnusedChannel(t.clients[c]) && t.clients[c].tally == EMPTY_TALLY)
  }

  lemma PhaseOneClient(s: State, t: State, c: ClientId)
    requires c in s.clients && c in t.clients && t.clients == s.clients[c := t.clients[c]]
    requires SameChannel(s.clients[c], t.clients[c]) && s.clients[c].tally == t.clients[c].tally
    requires t.desk == s.desk && t.pending == s.pending && t.account == s.account && t.accounts == s.accounts
    ensures PhaseOnly(s, t)
  {
  }

  lemma MovesPhaseOnly(s: State, step: Step)
    requires Enabled(s, step) && (ArrivalStep(step) || DepartureStep(step))
    ensures PhaseOnly(s, Apply(s, step))
  {
    if !step.Connect? {
      PhaseOneClient(s, Apply(s, step), step.c);
    }
  }

  lemma QuietAnswer(s: State, raw: seq<Row>)
    requires Streams(s) && Enabled(s, QueryAnswers(raw))
    ensures Quiet(s, DoAnswer(s, raw))
  {
  }

  lemma QuietBegin(s: State)
    requires Streams(s) && Enabled(s, BeginBroadcast)
    ensures Quiet(s, DoBegin(s))
  {
  }

  lemma QuietPoller(s: State, step: Step)
    requires Streams(s) && Enabled(s, step) && PollerStep(step)
    ensures Quiet(s, Apply(s, step))
  {
    if step.QueryAnswers? {
      QuietAnswer(s, step.raw);
    } else if step.BeginBroadcast? {
      QuietBegin(s);
    } else {
      assert Apply(s, step).clients == s.clients;
    }
  }

  lemma QuietKeepsStreams(s: State, t: State)
    requires Streams(s) && Quiet(s, t)
    ensures Streams(t)
  {
    forall c | c in t.clients
      ensures StreamRight(t.clients[c], t.desk.published, Offered(t, c))
    {
      if c in s.clients {
        StreamsGrow(s.clients[c], s.desk.published, t.desk.published, Offered(s, c), Offered(t, c));
        assert Stream(t.clients[c]) == Stream(s.clients[c]);
      }
    }
  }

  lemma OneStreamSend(s: State, c: ClientId)
    requires Enabled(s, Send(c)) && !s.clients[c].closed
    requires StreamRight(s.clients[c], s.desk.published, |s.desk.published| - 1)
    ensures StreamRight(DoSend(s, c).clients[c], s.desk.published, |s.desk.published|)
  {
    var published, cl, next := s.desk.published, s.clients[c], DoSend(s, c).clients[c];
    if ClientWants(cl, published[|published| - 1]) && |cl.queue| < CLIENT_BUFFER {
      SendKeepsStream(cl, next, published);
    } else {
      assert Stream(next) == Stream(cl);
    }
  }

  lemma StreamsSend(s: State, c: ClientId)
    requires Streams(s) && Enabled(s, Send(c)) && !s.clients[c].closed
    ensures Streams(DoSend(s, c))
  {
    var t := DoSend(s, c);
    OneStreamSend(s, c);
    forall b | b in t.clients
      ensures StreamRight(t.clients[b], t.desk.published, Offered(t, b))
    {
      if b != c {
        assert t.clients[b] == s.clients[b] && Offered(t, b) == Offered(s, b);
      }
    }
  }

  lemma StreamsReceive(s: State, c: ClientId)
    requires Streams(s) && Enabled(s, Receive(c)) && s.clients[c].queue != []
    ensures Streams(DoReceive(s, c))
  {
    var t := DoReceive(s, c);
    ReceiveKeepsStream(s.clients[c], t.clients[c], s.desk.published, Offered(s, c));
    assert forall b :: b in t.clients && b != c ==> t.clients[b] == s.clients[b];
  }

  lemma OpenWhileInUse(s: State, step: Step)
    requires Safe(s) && Enabled(s, step)
    ensures step.Send? ==> step.c in s.registered && !s.clients[step.c].closed
    ensures step.Receive? ==> s.clients[step.c].queue != []
  {
  }

  lemma KeepsStreams(s: State, step: Step)
    requires Safe(s) && Streams(s) && Enabled(s, step)
    ensures Streams(Apply(s, step))
  {
    if step.Send? {
      OpenWhileInUse(s, step);
      StreamsSend(s, step.c);
    } else if step.Receive? {
      OpenWhileInUse(s, step);
      StreamsReceive(s, step.c);
    } else {
      QuietStep(s, step);
      QuietKeepsStreams(s, Apply(s, step));
    }
  }

  lemma QuietStep(s: State, step: Step)
    requires Safe(s) && Streams(s) && Enabled(s, step) && !step.Send? && !step.Receive?
    ensures Quiet(s, Apply(s, step))
  {
    if ArrivalStep(step) || DepartureStep(step) {
      MovesPhaseOnly(s, step);
    } else if PollerStep(step) {
      QuietPoller(s, step);
    } else {
      assert step.StoreRow? || step.BeginObserve? || step.EndObserve?;
    }
  }

  // ---------------------------------------------------------------------------
  // The buffer bound
  // ---------------------------------------------------------------------------

  lemma TalliesPhase(s: State, t: State)
    requires Tallies(s) && PhaseOnly(s, t)
    ensures Tallies(t)
  {
    forall c | c in t.clients
      ensures TallyRight(t.clients[c]) && ShareRight(t.clients[c], t.desk, c in t.pending)
    {
      if c in s.clients {
        assert TallyRight(s.clients[c]) && ShareRight(s.clients[c], s.desk, c in s.pending);
      }
    }
  }

  lemma TalliesAnswer(s: State, raw: seq<Row>)
    requires Ledger(s.desk) && Streams(s) && Tallies(s) && Enabled(s, QueryAnswers(raw))
    ensures Tallies(DoAnswer(s, raw))
  {
    var t := DoAnswer(s, raw);
    forall c | c in t.clients
      ensures TallyRight(t.clients[c]) && ShareRight(t.clients[c], t.desk, c in t.pending)
    {
      assert StreamRight(s.clients[c], s.desk.published, Offered(s, c));
    }
  }

  lemma ShareBegin(cl: Client, d: Desk, a: bool, b: bool)
    requires CurrentPollRight(d) && d.pc.Publishing? && d.pc.k < |Batch(d.poll)|
    requires CurrentPollRight(Begin(d)) && ShareRight(cl, d, a)
    ensures ShareRight(cl, Begin(d), b)
  {
  }

  lemma TalliesBegin(s: State)
    requires Ledger(s.desk) && Tallies(s) && Enabled(s, BeginBroadcast)
    ensures Tallies(DoBegin(s))
  {
    BeginKeepsBatch(s.desk);
    var t := DoBegin(s);
    forall c | c in t.clients
      ensures ShareRight(t.clients[c], t.desk, c in t.pending)
    {
      ShareBegin(s.clients[c], s.desk, c in s.pending, c in t.pending);
    }
  }

  lemma ShareEnd(cl: Client, d: Desk)
    requires CurrentPollRight(d) && d.pc.Sending? && CurrentPollRight(End(d)) && ShareRight(cl, d, false)
    ensures ShareRight(cl, End(d), false)
  {
    var row := Batch(d.poll)[d.pc.k];
    if OncePerRow(cl, Batch(d.poll)) {
      assert row in Batch(d.poll);
      WantsBothIff(cl.topic, cl.scope, row);
    }
  }

  lemma TalliesEnd(s: State)
    requires Ledger(s.desk) && Tallies(s) && Enabled(s, EndBroadcast)
    ensures Tallies(Apply(s, EndBroadcast))
  {
    EndKeepsBatch(s.desk);
    var t := Apply(s, EndBroadcast);
    forall c | c in t.clients
      ensures ShareRight(t.clients[c], t.desk, c in t.pending)
    {
      ShareEnd(s.clients[c], s.desk);
    }
  }

  /** While no poll is under way a share is the whole batch, so waiting moves change nothing. */
  lemma TalliesElsewhere(s: State, t: State)
    requires Tallies(s) && CurrentPollRight(t.desk)
    requires s.clients == t.clients && s.desk.poll == t.desk.poll && !Polling(t.desk)
    requires !Polling(s.desk) || (s.desk.pc.Publishing? && s.desk.pc.k == |Batch(s.desk.poll)|)
    ensures Tallies(t)
  {
    forall c | c in t.clients
      ensures ShareRight(t.clients[c], t.desk, c in t.pending)
    {
      assert ShareRight(s.clients[c], s.desk, c in s.pending);
    }
  }

  /** The message being sent is row k's message for the current stage. */
  lemma SendingWhat(d: Desk)
    requires CurrentPollRight(d) && BatchRight(d) && d.pc.Sending?
    ensures d.published != []
    ensures MsgOf(d.published[|d.published| - 1]) ==
            if d.pc.stage.ToGlobal? then GlobalMsg(Batch(d.poll)[d.pc.k]) else CompositionMsg(Batch(d.poll)[d.pc.k])
  {
    assert d.pc.stage.ToGlobal? ==> Recent(d, 1, GLOBAL_TOPIC);
    assert d.pc.stage.ToComposition? ==> Recent(d, 1, Batch(d.poll)[d.pc.k].cid);
  }

  lemma SendKeepsTally(s: State, c: ClientId)
    requires Enabled(s, Send(c)) && !s.clients[c].closed
    requires |s.clients[c].queue| <= CLIENT_BUFFER && TallyRight(s.clients[c])
    ensures TallyRight(DoSend(s, c).clients[c])
  {
  }

  lemma SendKeepsShare(s: State, c: ClientId)
    requires CurrentPollRight(s.desk) && BatchRight(s.desk) && Enabled(s, Send(c)) && !s.clients[c].closed
    requires ShareRight(s.clients[c], s.desk, true)
    ensures ShareRight(DoSend(s, c).clients[c], s.desk, false)
  {
    SendingWhat(s.desk);
    var cl, next := s.clients[c], DoSend(s, c).clients[c];
    assert next.topic == cl.topic && next.scope == cl.scope;
    assert next.tally.wanted == cl.tally.wanted + One(ClientWants(cl, s.desk.published[|s.desk.published| - 1]));
  }

  /** Only c's figures change. */
  lemma OneTallyMoves(s: State, t: State, c: ClientId)
    requires Tallies(s) && t.desk == s.desk && c in s.clients && c in t.clients
    requires t.clients == s.clients[c := t.clients[c]]
    requires forall b :: b != c ==> (b in t.pending <==> b in s.pending)
    requires TallyRight(t.clients[c]) && ShareRight(t.clients[c], t.desk, c in t.pending)
    ensures Tallies(t)
  {
    forall b | b in t.clients
      ensures TallyRight(t.clients[b]) && ShareRight(t.clients[b], t.desk, b in t.pending)
    {
      if b != c {
        assert t.clients[b] == s.clients[b];
      }
    }
  }

  lemma TalliesSend(s: State, c: ClientId)
    requires Streams(s) && Tallies(s) && BatchRight(s.desk) && Enabled(s, Send(c)) && !s.clients[c].closed
    ensures Tallies(DoSend(s, c))
  {
    var t := DoSend(s, c);
    assert |s.clients[c].queue| <= CLIENT_BUFFER by {
      assert StreamRight(s.clients[c], s.desk.published, Offered(s, c));
    }
    SendKeepsTally(s, c);
    SendKeepsShare(s, c);
    SendMovesOne(s, c);
    OneTallyMoves(s, t, c);
  }

  lemma SendMovesOne(s: State, c: ClientId)
    requires Enabled(s, Send(c))
    ensures var t := DoSend(s, c);
            && t.desk == s.desk && t.pending == s.pending - {c}
            && c in t.clients && t.clients == s.clients[c := t.clients[c]]
  {
  }

  lemma ReceiveKeepsTally(s: State, c: ClientId)
    requires Enabled(s, Receive(c)) && s.clients[c].queue != [] && TallyRight(s.clients[c])
    ensures TallyRight(DoReceive(s, c).clients[c])
  {
  }

  lemma TalliesReceive(s: State, c: ClientId)
    requires Tallies(s) && Enabled(s, Receive(c)) && s.clients[c].queue != []
    ensures Tallies(DoReceive(s, c))
  {
    var t := DoReceive(s, c);
    ReceiveKeepsTally(s, c);
    assert ShareRight(s.clients[c], s.desk, c in s.pending);
    assert ShareRight(t.clients[c], t.desk, c in t.pending);
    OneTallyMoves(s, t, c);
  }

  lemma KeepsTallies(s: State, step: Step)
    requires Safe(s) && Ledger(s.desk) && Streams(s) && Tallies(s) && Enabled(s, step)
    requires Ledger(Apply(s, step).desk)
    ensures Tallies(Apply(s, step))
  {
    if ArrivalStep(step) || DepartureStep(step) {
      MovesPhaseOnly(s, step);
      TalliesPhase(s, Apply(s, step));
    } else if step.Send? {
      OpenWhileInUse(s, step);
      TalliesSend(s, step.c);
    } else if step.Receive? {
      OpenWhileInUse(s, step);
      TalliesReceive(s, step.c);
    } else {
      TalliesPoller(s, step);
    }
  }

  lemma TalliesPoller(s: State, step: Step)
    requires Ledger(s.desk) && Streams(s) && Tallies(s) && Enabled(s, step)
    requires CurrentPollRight(Apply(s, step).desk)
    requires PollerStep(step) || step.StoreRow? || step.BeginObserve? || step.EndObserve?
    ensures Tallies(Apply(s, step))
  {
    if step.QueryAnswers? {
      TalliesAnswer(s, step.raw);
    } else if step.BeginBroadcast? {
      TalliesBegin(s);
    } else if step.EndBroadcast? {
      TalliesEnd(s);
    } else if step.Tick? || step.AdvanceIdle? || step.QueryFails? || step.FinishPoll? {
      TalliesElsewhere(s, Apply(s, step));
    } else {
      TalliesAside(s, Apply(s, step));
    }
  }

  /** Storing a row or observing the client count touches no figure. */
  lemma TalliesAside(s: State, t: State)
    requires Tallies(s) && CurrentPollRight(t.desk)
    requires t.clients == s.clients && t.pending == s.pending && t.desk.pc == s.desk.pc && t.desk.poll == s.desk.poll
    ensures Tallies(t)
  {
    forall c | c in t.clients
      ensures ShareRight(t.clients[c], t.desk, c in t.pending)
    {
      assert ShareRight(s.clients[c], s.desk, c in s.pending);
    }
  }

  // ---------------------------------------------------------------------------
  // The accounts
  // ---------------------------------------------------------------------------

  /** What the accounts of a client depend on is the same in both states. */
  lemma AccountsFrame(s: State, t: State)
    requires RegistryRight(s) && Accounts(s)
    requires t.account == s.account && t.accounts == s.accounts && |t.desk.polls| == |s.desk.polls|
    requires t.desk.published == s.desk.published && t.desk.poll.first == s.desk.poll.first
    requires s.clients.Keys <= t.clients.Keys
    requires forall c :: c in t.clients ==>
               if c in s.clients then
                 && s.clients[c].topic == t.clients[c].topic && s.clients[c].scope == t.clients[c].scope
                 && Stream(s.clients[c]) == Stream(t.clients[c])
               else Stream(t.clients[c]) == []
    requires s.desk.pc.Sending? && t.desk.pc.Sending? ==> t.pending == s.pending
    requires s.desk.pc.Sending? && !t.desk.pc.Sending? ==> s.pending == {}
    requires !s.desk.pc.Sending? ==> !t.desk.pc.Sending?
    ensures Accounts(t)
  {
    assert forall c: ClientId, i: nat :: Owes(s, c, i) <==> Owes(t, c, i);
    forall c | c in t.clients
      ensures SentMatches(t.account.sent, c, t.clients[c], t.desk.poll.first)
    {
      if c in s.clients {
        assert SentMatches(s.account.sent, c, s.clients[c], s.desk.poll.first);
      }
    }
  }

  lemma AccountsReceive(s: State, c: ClientId)
    requires RegistryRight(s) && Accounts(s) && Enabled(s, Receive(c)) && s.clients[c].queue != []
    ensures Accounts(DoReceive(s, c))
  {
    var t := DoReceive(s, c);
    assert Stream(t.clients[c]) == Stream(s.clients[c]);
    assert forall b :: b in t.clients && b != c ==> t.clients[b] == s.clients[b];
    AccountsFrame(s, t);
  }

  lemma AccountsAnswer(s: State, raw: seq<Row>)
    requires Streams(s) && Accounts(s) && Enabled(s, QueryAnswers(raw))
    ensures Accounts(DoAnswer(s, raw))
  {
    var t := DoAnswer(s, raw);
    forall c | c in t.clients
      ensures SentMatches(t.account.sent, c, t.clients[c], t.desk.poll.first)
    {
      assert StreamRight(s.clients[c], s.desk.published, Offered(s, c));
      assert Stream(t.clients[c]) == Stream(s.clients[c]);
    }
  }

  lemma AccountsBegin(s: State)
    requires RegistryRight(s) && Accounts(s) && Enabled(s, BeginBroadcast)
    ensures Accounts(DoBegin(s))
  {
    var t, p, tag := DoBegin(s), NextPub(s.desk), |s.desk.published|;
    forall c: ClientId, i: nat
      ensures Owes(t, c, i) <==> i == tag && c in Wanting(s, p)
    {
      assert t.desk.published[tag] == p;
    }
    assert forall c: ClientId, i: nat :: !Owes(s, c, i);
  }

  lemma SendOwes(s: State, c: ClientId, b: ClientId, i: nat)
    requires Enabled(s, Send(c)) && !s.clients[c].closed
    ensures Owes(DoSend(s, c), b, i) <==> Owes(s, b, i) && b != c
  {
  }

  /** A send settles exactly the pair it was owed. */
  lemma SendSettles(s: State, c: ClientId)
    requires Counted(s.account) && Settled(s) && Enabled(s, Send(c)) && !s.clients[c].closed
    ensures Counted(DoSend(s, c).account) && Settled(DoSend(s, c))
  {
    var t, tag := DoSend(s, c), |s.desk.published| - 1;
    forall b: ClientId, i: nat
      ensures Owes(t, b, i) <==> Owes(s, b, i) && b != c
    {
      SendOwes(s, c, b, i);
    }
    if ClientWants(s.clients[c], s.desk.published[tag]) {
      assert Owes(s, c, tag);
      SettleOne(s, t, c, tag);
    } else {
      assert t.account == s.account && t.desk == s.desk && forall i :: !Owes(s, c, i);
    }
  }

  /** The pair owed becomes sent or lost, and is no longer owed. */
  lemma SettleOne(s: State, t: State, c: ClientId, tag: nat)
    requires Counted(s.account) && Settled(s) && Owes(s, c, tag) && t.desk == s.desk
    requires forall b: ClientId, i: nat :: Owes(t, b, i) <==> Owes(s, b, i) && b != c
    requires var a := s.account;
             || t.account == a.(sent := a.sent + {(c, tag)}, delivered := a.delivered + 1)
             || t.account == a.(lost := a.lost + {(c, tag)}, dropped := a.dropped + 1)
    ensures Counted(t.account) && Settled(t)
  {
    assert (c, tag) in s.account.wanted && (c, tag) !in s.account.sent && (c, tag) !in s.account.lost;
  }

  lemma SendMatches(sent: set<Pair>, c: ClientId, b: ClientId, cl: Client, next: Client, first: nat, tag: nat,
                    landed: bool)
    requires SentMatches(sent, b, cl, first)
    requires Stream(next) == if b == c && landed then Stream(cl) + [tag] else Stream(cl)
    ensures SentMatches(if landed then sent + {(c, tag)} else sent, b, next, first)
  {
  }

  lemma AccountsSend(s: State, c: ClientId)
    requires Accounts(s) && Enabled(s, Send(c)) && !s.clients[c].closed
    ensures Accounts(DoSend(s, c))
  {
    SendSettles(s, c);
    var t, tag, first := DoSend(s, c), |s.desk.published| - 1, s.desk.poll.first;
    var cl := s.clients[c];
    var landed := ClientWants(cl, s.desk.published[tag]) && |cl.queue| < CLIENT_BUFFER;
    assert t.account.sent == if landed then s.account.sent + {(c, tag)} else s.account.sent;
    forall b | b in t.clients
      ensures SentMatches(t.account.sent, b, t.clients[b], first)
    {
      assert SentMatches(s.account.sent, b, s.clients[b], first);
      assert Stream(t.clients[b]) == if b == c && landed then Stream(s.clients[b]) + [tag] else Stream(s.clients[b]);
      SendMatches(s.account.sent, c, b, s.clients[b], t.clients[b], first, tag, landed);
    }
  }

  lemma NothingOwed(s: State)
    requires Counted(s.account) && Settled(s) && !s.desk.pc.Sending?
    ensures Balanced(s.account)
  {
    var a := s.account;
    forall p: Pair
      ensures p in a.sent ==> p in a.wanted && p !in a.lost
      ensures p in a.lost ==> p in a.wanted
      ensures p in a.wanted ==> p in a.sent || p in a.lost
    {
      assert p == (p.0, p.1);
    }
  }

  lemma AccountsFinish(s: State)
    requires Accounts(s) && Enabled(s, FinishPoll)
    ensures Accounts(Apply(s, FinishPoll))
  {
    var t := Apply(s, FinishPoll);
    assert forall c: ClientId, i: nat :: !Owes(s, c, i) && !Owes(t, c, i);
    NothingOwed(s);
  }

  lemma AccountsPoller(s: State, step: Step)
    requires RegistryRight(s) && Streams(s) && Accounts(s) && Enabled(s, step)
    requires PollerStep(step) || step.StoreRow? || step.BeginObserve? || step.EndObserve?
    ensures Accounts(Apply(s, step))
  {
    if step.QueryAnswers? {
      AccountsAnswer(s, step.raw);
    } else if step.BeginBroadcast? {
      AccountsBegin(s);
    } else if step.FinishPoll? {
      AccountsFinish(s);
    } else {
      assert Apply(s, step).clients == s.clients;
      AccountsFrame(s, Apply(s, step));
    }
  }

  lemma KeepsAccounts(s: State, step: Step)
    requires Safe(s) && Streams(s) && Accounts(s) && Enabled(s, step)
    ensures Accounts(Apply(s, step))
  {
    if ArrivalStep(step) || DepartureStep(step) {
      MovesPhaseOnly(s, step);
      AccountsFrame(s, Apply(s, step));
    } else if step.Send? {
      OpenWhileInUse(s, step);
      AccountsSend(s, step.c);
    } else if step.Receive? {
      OpenWhileInUse(s, step);
      AccountsReceive(s, step.c);
    } else {
      AccountsPoller(s, step);
    }
  }

  lemma KeepsInv(s: State, step: Step)
    requires Inv(s) && Enabled(s, step)
    ensures Inv(Apply(s, step))
  {
    KeepsSafe(s, step);
    KeepsLedger(s, step);
    KeepsSegments(s, step);
    KeepsStreams(s, step);
    KeepsTallies(s, step);
    KeepsAccounts(s, step);
  }
}
