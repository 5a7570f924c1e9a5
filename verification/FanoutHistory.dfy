/** How the finished polls of a run follow each other: their cursors, their rows and their publications. */
module FanoutHistory {
  import opened Store
  import opened Messages
  import opened FanoutMachine
  import opened FanoutInvariant
  import opened FanoutRuns

  /** Each poll starts where an earlier one stopped or later, in the table and in the publications. */
  ghost predicate PollsFollow(d: Desk) {
    && (forall m, n :: 0 <= m < n < |d.polls| ==>
          d.polls[m].next <= d.polls[n].poll.cursor && d.polls[m].end <= d.polls[n].poll.first)
    && (forall n :: 0 <= n < |d.polls| ==> d.polls[n].poll.first <= d.polls[n].end <= |d.published|)
    && (Polling(d) ==> forall n :: 0 <= n < |d.polls| ==> d.polls[n].end <= d.poll.first)
  }

  /** What a finished poll published are rows it decoded. */
  ghost predicate FromBatches(d: Desk) {
    forall i :: 0 <= i < |d.published| && d.published[i].poll < |d.polls| ==>
      d.published[i].row in Batch(d.polls[d.published[i].poll].poll)
  }

  ghost predicate History(d: Desk) {
    PollsFollow(d) && FromBatches(d)
  }

  lemma FinishFollows(d: Desk)
    requires RecordsRight(d) && PollsFollow(d) && Polling(d)
    requires d.poll.cursor == d.cursor && d.poll.first <= |d.published|
    ensures PollsFollow(Finish(d))
  {
  }

  lemma FinishFromBatches(d: Desk)
    requires FromBatches(d)
    requires forall i :: 0 <= i < |d.published| && d.published[i].poll == |d.polls| ==>
               d.published[i].row in Batch(d.poll)
    requires forall i :: 0 <= i < |d.published| ==> d.published[i].poll <= |d.polls|
    ensures FromBatches(Finish(d))
  {
  }

  /** What the poll under way has published are rows it decoded, past the cursor. */
  lemma UnderWay(d: Desk, k: nat)
    requires CurrentPollRight(d) && BatchRight(d) && PollRight(d.poll)
    requires Polling(d) && d.poll.first <= k < |d.published|
    ensures d.published[k].row in Batch(d.poll) && TsUnix(d.published[k].row) > d.cursor
  {
    var done := Partial(d);
    if k >= |d.published| - done {
      assert done >= 1 ==> Recent(d, done, GLOBAL_TOPIC);
      assert done == 2 ==> Recent(d, 1, Batch(d.poll)[d.pc.k].cid);
      assert d.published[k].row == Batch(d.poll)[d.pc.k];
    } else {
      assert d.published[k].row in Batch(d.poll)[..d.pc.k];
    }
  }

  lemma FinishKeepsHistory(d: Desk)
    requires Ledger(d) && History(d) && d.pc.Publishing?
    ensures History(Finish(d))
  {
    forall i | 0 <= i < |d.published|
      ensures d.published[i].poll <= |d.polls|
      ensures d.published[i].poll == |d.polls| ==> d.published[i].row in Batch(d.poll)
    {
      assert Placed(d, i);
      if d.published[i].poll == |d.polls| {
        UnderWay(d, i);
      }
    }
    FinishFollows(d);
    FinishFromBatches(d);
  }

  lemma BeginKeepsHistory(d: Desk)
    requires History(d) && d.pc.Publishing? && d.pc.k < |Batch(d.poll)|
    ensures History(Begin(d))
  {
  }

  /** Nothing is published or finished; a poll that starts does so after all that was published. */
  lemma HistoryElsewhere(d: Desk, e: Desk)
    requires History(d) && e.published == d.published && e.polls == d.polls
    requires Polling(e) ==> e.poll.first == if Polling(d) then d.poll.first else |d.published|
    ensures History(e)
  {
  }

  lemma StepKeepsHistory(s: State, step: Step)
    requires Ledger(s.desk) && History(s.desk) && Enabled(s, step)
    ensures History(Apply(s, step).desk)
  {
    if step.FinishPoll? {
      FinishKeepsHistory(s.desk);
    } else if step.BeginBroadcast? {
      BeginKeepsHistory(s.desk);
    } else {
      OtherDesk(s, step);
      HistoryElsewhere(s.desk, Apply(s, step).desk);
    }
  }

  lemma {:induction false} RunKeepsHistory(run: Run, i: nat)
    requires run.Valid() && i < |run.states|
    ensures History(run.states[i].desk)
  {
    if i > 0 {
      RunKeepsHistory(run, i - 1);
      RunKeepsInv(run, i - 1);
      StepKeepsHistory(run.states[i - 1], run.steps[i - 1]);
    }
  }

  ghost predicate EverPublished(d: Desk, r: Row) {
    exists k :: 0 <= k < |d.published| && d.published[k].row == r
  }

  /** A finished poll covers the seconds after its cursor up to the cursor it left. */
  predicate Covers(rec: PollRecord, r: Row) {
    rec.poll.cursor < TsUnix(r) <= rec.next
  }

  /** A poll that covers a row's second is the only one that could publish it, and only if it fetched it. */
  lemma CoveredOnce(d: Desk, n: nat, r: Row)
    requires Ledger(d) && History(d) && n < |d.polls| && Covers(d.polls[n], r)
    ensures EverPublished(d, r) <==> r in d.polls[n].poll.raw && r.decodable
  {
    assert RecordRight(d.polls[n], d.published, n);
    if k :| 0 <= k < |d.published| && d.published[k].row == r {
      PublishedWithin(d, k);
      assert d.published[k].poll == n;
    }
  }

  lemma PublishedWithin(d: Desk, k: nat)
    requires Ledger(d) && History(d) && k < |d.published|
    ensures var p := d.published[k];
            if p.poll < |d.polls| then Covers(d.polls[p.poll], p.row) && p.row in Batch(d.polls[p.poll].poll)
            else TsUnix(p.row) > d.cursor
  {
    var p := d.published[k];
    assert Placed(d, k);
    if p.poll < |d.polls| {
      assert RecordRight(d.polls[p.poll], d.published, p.poll);
    } else {
      UnderWay(d, k);
    }
  }
}
