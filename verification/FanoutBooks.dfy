/** Conservation over whole runs: what was wanted, delivered and dropped, against what the channels hold. */
module FanoutBooks {
  import opened Store
  import opened Messages
  import opened FanoutMachine
  import opened FanoutInvariant
  import opened FanoutProof
  import opened FanoutRuns
  import opened FanoutHistory

  /** Every send the accounts count as delivered. */
  ghost function SentBefore(accounts: seq<Account>): (sent: set<Pair>)
    ensures forall p :: p in sent <==> exists n :: 0 <= n < |accounts| && p in accounts[n].sent
  {
    if accounts == [] then {}
    else
      var front, last := accounts[..|accounts| - 1], accounts[|accounts| - 1];
      assert accounts == front + [last];
      SentBefore(front) + last.sent
  }

  ghost function AllSent(s: State): set<Pair> {
    SentBefore(s.accounts) + s.account.sent
  }

  /** Every wanted send the accounts know of. */
  ghost predicate WantedEver(s: State, p: Pair) {
    p in s.account.wanted || exists n :: 0 <= n < |s.accounts| && p in s.accounts[n].wanted
  }

  // ---------------------------------------------------------------------------
  // The invariant
  // ---------------------------------------------------------------------------

  /** Between polls the current account is the last one closed, or none was opened yet. */
  ghost predicate LastAccount(s: State) {
    Polling(s.desk) || s.account == EMPTY_ACCOUNT || (s.accounts != [] && s.account == s.accounts[|s.accounts| - 1])
  }

  /** What was ever put in a channel is what the accounts say was delivered to it. */
  ghost predicate Booked(sent: set<Pair>, clients: map<ClientId, Client>) {
    && (forall c, t :: c in clients ==> ((c, t) in sent <==> t in Stream(clients[c])))
    && (forall c: ClientId, t: nat :: (c, t) in sent ==> c in clients)
  }

  /** The pairs are of messages in [first, end), each with a client that wants it. */
  ghost predicate WantedWithin(wanted: set<Pair>, s: State, first: nat, end: nat) {
    forall c: ClientId, t: nat :: (c, t) in wanted ==>
      && first <= t < end && t < |s.desk.published|
      && c in s.clients && ClientWants(s.clients[c], s.desk.published[t])
  }

  ghost predicate WantedRight(s: State) {
    && |s.accounts| == |s.desk.polls|
    && (forall n :: 0 <= n < |s.accounts| ==>
          WantedWithin(s.accounts[n].wanted, s, s.desk.polls[n].poll.first, s.desk.polls[n].end))
    && (Polling(s.desk) ==> WantedWithin(s.account.wanted, s, s.desk.poll.first, |s.desk.published|))
  }

  ghost predicate Books(s: State) {
    LastAccount(s) && Booked(AllSent(s), s.clients) && WantedRight(s)
  }

  lemma StepKeepsLast(s: State, step: Step)
    requires LastAccount(s) && Enabled(s, step)
    ensures LastAccount(Apply(s, step))
  {
  }

  lemma FinishKeepsSent(s: State)
    requires Enabled(s, FinishPoll)
    ensures AllSent(Apply(s, FinishPoll)) == AllSent(s)
  {
    assert (s.accounts + [s.account])[..|s.accounts|] == s.accounts;
  }

  lemma AnswerKeepsSent(s: State, raw: seq<Row>)
    requires LastAccount(s) && Enabled(s, QueryAnswers(raw))
    ensures AllSent(DoAnswer(s, raw)) == AllSent(s)
  {
  }

  /** Every client keeps its stream; a new one starts empty. */
  ghost predicate SameStreams(s: State, t: State) {
    && s.clients.Keys <= t.clients.Keys
    && forall c :: c in t.clients ==>
         Stream(t.clients[c]) == if c in s.clients then Stream(s.clients[c]) else []
  }

  lemma BookedElsewhere(s: State, t: State)
    requires Booked(AllSent(s), s.clients) && AllSent(t) == AllSent(s) && SameStreams(s, t)
    ensures Booked(AllSent(t), t.clients)
  {
  }

  lemma SendKeepsBooked(s: State, c: ClientId)
    requires Booked(AllSent(s), s.clients) && Enabled(s, Send(c)) && !s.clients[c].closed
    ensures Booked(AllSent(DoSend(s, c)), DoSend(s, c).clients)
  {
    var t, cl, tag := DoSend(s, c), s.clients[c], |s.desk.published| - 1;
    SendBooks(s, c);
    if ClientWants(cl, s.desk.published[tag]) && |cl.queue| < CLIENT_BUFFER {
      BookOne(AllSent(s), s.clients, t.clients, c, tag);
    } else {
      BookedElsewhere(s, t);
    }
  }

  lemma SendBooks(s: State, c: ClientId)
    requires Enabled(s, Send(c)) && !s.clients[c].closed
    ensures var t, cl, tag := DoSend(s, c), s.clients[c], |s.desk.published| - 1;
            if ClientWants(cl, s.desk.published[tag]) && |cl.queue| < CLIENT_BUFFER then
              && AllSent(t) == AllSent(s) + {(c, tag)}
              && c in t.clients && t.clients == s.clients[c := t.clients[c]]
              && Stream(t.clients[c]) == Stream(cl) + [tag]
            else AllSent(t) == AllSent(s) && SameStreams(s, t)
  {
  }

  lemma BookOne(sent: set<Pair>, before: map<ClientId, Client>, after: map<ClientId, Client>, c: ClientId, tag: nat)
    requires Booked(sent, before) && c in before && c in after && after == before[c := after[c]]
    requires Stream(after[c]) == Stream(before[c]) + [tag]
    ensures Booked(sent + {(c, tag)}, after)
  {
  }

  lemma OtherStepsKeepStreams(s: State, step: Step)
    requires Safe(s) && Streams(s) && Enabled(s, step) && !step.Send?
    ensures SameStreams(s, Apply(s, step))
  {
    if step.Receive? {
      OpenWhileInUse(s, step);
      assert Stream(Apply(s, step).clients[step.c]) == Stream(s.clients[step.c]);
    } else {
      QuietStep(s, step);
      KeepsClients(s, step);
    }
  }

  lemma KeepsClients(s: State, step: Step)
    requires Enabled(s, step)
    ensures s.clients.Keys <= Apply(s, step).clients.Keys
  {
  }

  lemma OtherStepsKeepSent(s: State, step: Step)
    requires LastAccount(s) && Enabled(s, step) && !step.Send?
    ensures AllSent(Apply(s, step)) == AllSent(s)
  {
    if step.FinishPoll? {
      FinishKeepsSent(s);
    } else if step.QueryAnswers? {
      AnswerKeepsSent(s, step.raw);
    } else {
      SameAccounts(s, step);
    }
  }

  lemma SameAccounts(s: State, step: Step)
    requires Enabled(s, step) && !step.Send? && !step.FinishPoll? && !step.QueryAnswers?
    ensures Apply(s, step).accounts == s.accounts
    ensures Apply(s, step).account.sent == s.account.sent
    ensures !step.BeginBroadcast? ==> Apply(s, step).account == s.account
  {
  }

  lemma StepKeepsBooked(s: State, step: Step)
    requires Safe(s) && Streams(s) && LastAccount(s) && Booked(AllSent(s), s.clients) && Enabled(s, step)
    ensures Booked(AllSent(Apply(s, step)), Apply(s, step).clients)
  {
    if step.Send? {
      OpenWhileInUse(s, step);
      SendKeepsBooked(s, step.c);
    } else {
      OtherStepsKeepSent(s, step);
      OtherStepsKeepStreams(s, step);
      BookedElsewhere(s, Apply(s, step));
    }
  }

  /** Publications stay where they are, and every client keeps its topic and scope. */
  ghost predicate SameWishes(s: State, t: State) {
    && s.desk.published <= t.desk.published
    && forall c :: c in s.clients ==>
         && c in t.clients
         && t.clients[c].topic == s.clients[c].topic && t.clients[c].scope == s.clients[c].scope
  }

  lemma WishesStay(s: State, step: Step)
    requires Inv(s) && Enabled(s, step)
    ensures SameWishes(s, Apply(s, step))
  {
    StepMovesForward(s, step);
    forall c | c in s.clients
      ensures var t := Apply(s, step);
              && c in t.clients
              && t.clients[c].topic == s.clients[c].topic && t.clients[c].scope == s.clients[c].scope
    {
      StepKeepsStream(s, step, c);
    }
  }

  lemma WantedStays(wanted: set<Pair>, s: State, t: State, first: nat, end: nat, later: nat)
    requires WantedWithin(wanted, s, first, end) && SameWishes(s, t) && end <= later
    ensures WantedWithin(wanted, t, first, later)
  {
  }

  lemma BeginWants(s: State)
    requires Enabled(s, BeginBroadcast) && s.desk.poll.first <= |s.desk.published|
    requires WantedWithin(s.account.wanted, s, s.desk.poll.first, |s.desk.published|)
    ensures var t := DoBegin(s); WantedWithin(t.account.wanted, t, t.desk.poll.first, |t.desk.published|)
  {
    var t := DoBegin(s);
    WantedStays(s.account.wanted, s, t, s.desk.poll.first, |s.desk.published|, |t.desk.published|);
  }

  /** The accounts already closed stay right; so does the one just closed. */
  lemma ClosedStayRight(s: State, step: Step)
    requires WantedRight(s) && Enabled(s, step) && SameWishes(s, Apply(s, step))
    ensures var t := Apply(s, step);
            && |t.accounts| == |t.desk.polls|
            && forall n :: 0 <= n < |t.accounts| ==>
                 WantedWithin(t.accounts[n].wanted, t, t.desk.polls[n].poll.first, t.desk.polls[n].end)
  {
    var t := Apply(s, step);
    AccountsGrow(s, step);
    forall n | 0 <= n < |t.accounts|
      ensures WantedWithin(t.accounts[n].wanted, t, t.desk.polls[n].poll.first, t.desk.polls[n].end)
    {
      if n < |s.accounts| {
        WantedStays(s.accounts[n].wanted, s, t, s.desk.polls[n].poll.first, s.desk.polls[n].end, s.desk.polls[n].end);
      } else {
        WantedStays(s.account.wanted, s, t, s.desk.poll.first, |s.desk.published|, |s.desk.published|);
      }
    }
  }

  lemma AccountsGrow(s: State, step: Step)
    requires Enabled(s, step)
    ensures var t := Apply(s, step);
            if step.FinishPoll? then
              && t.accounts == s.accounts + [s.account]
              && t.desk.polls == s.desk.polls + [Finished(s.desk)]
            else t.accounts == s.accounts && t.desk.polls == s.desk.polls
  {
    if !step.FinishPoll? && !step.BeginBroadcast? {
      OtherDesk(s, step);
    }
  }

  lemma OpenStaysRight(s: State, step: Step)
    requires CurrentPollRight(s.desk) && WantedRight(s) && Enabled(s, step) && SameWishes(s, Apply(s, step))
    ensures var t := Apply(s, step);
            Polling(t.desk) ==> WantedWithin(t.account.wanted, t, t.desk.poll.first, |t.desk.published|)
  {
    var t := Apply(s, step);
    if step.BeginBroadcast? {
      BeginWants(s);
    } else if Polling(t.desk) && !step.QueryAnswers? {
      SamePoll(s, step);
      WantedStays(s.account.wanted, s, t, s.desk.poll.first, |s.desk.published|, |t.desk.published|);
    }
  }

  lemma SamePoll(s: State, step: Step)
    requires Enabled(s, step) && Polling(Apply(s, step).desk) && !step.BeginBroadcast? && !step.QueryAnswers?
    ensures var t := Apply(s, step);
            && Polling(s.desk) && t.desk.poll == s.desk.poll && t.desk.published == s.desk.published
            && t.account.wanted == s.account.wanted
  {
  }

  lemma StepKeepsBooks(s: State, step: Step)
    requires Inv(s) && Books(s) && Enabled(s, step)
    ensures Books(Apply(s, step))
  {
    StepKeepsLast(s, step);
    StepKeepsBooked(s, step);
    WishesStay(s, step);
    ClosedStayRight(s, step);
    OpenStaysRight(s, step);
  }

  lemma {:induction false} RunKeepsBooks(run: Run, i: nat)
    requires run.Valid() && i < |run.states|
    ensures Books(run.states[i])
  {
    if i > 0 {
      RunKeepsBooks(run, i - 1);
      RunKeepsInv(run, i - 1);
      StepKeepsBooks(run.states[i - 1], run.steps[i - 1]);
    }
  }

  // ---------------------------------------------------------------------------
  // Conservation
  // ---------------------------------------------------------------------------

  /** The sends to c among the delivered ones of the whole run. */
  ghost function DeliveredTo(s: State, c: ClientId): set<Pair> {
    set p | p in AllSent(s) && p.0 == c
  }

  ghost function PairsOf(c: ClientId, stream: seq<nat>): set<Pair> {
    set t | t in stream :: (c, t)
  }

  lemma PairsAppend(c: ClientId, stream: seq<nat>, t: nat)
    ensures PairsOf(c, stream + [t]) == PairsOf(c, stream) + {(c, t)}
  {
  }

  lemma {:induction false} CountPairs(c: ClientId, stream: seq<nat>)
    requires forall i, j :: 0 <= i < j < |stream| ==> stream[i] < stream[j]
    ensures |PairsOf(c, stream)| == |stream|
  {
    if stream != [] {
      var front, last := stream[..|stream| - 1], stream[|stream| - 1];
      CountPairs(c, front);
      PairsAppend(c, front, last);
      assert stream == front + [last];
      assert (c, last) !in PairsOf(c, front);
    }
  }

  /** The n-th finished poll's figures, and what its wanted sends are. */
  ghost predicate AccountRight(s: State, n: nat)
    requires n < |s.accounts| && |s.accounts| == |s.desk.polls|
  {
    var a := s.accounts[n];
    && a.delivered == |a.sent| && a.dropped == |a.lost|
    && a.delivered + a.dropped == |a.wanted|
    && WantedWithin(a.wanted, s, s.desk.polls[n].poll.first, s.desk.polls[n].end)
  }

  /**
   Each finished poll's delivered and dropped counts split its wanted sends, which are all of its own
   messages and of clients that want them, so no two polls count the same send; and a client's delivered
   sends of all polls together are exactly, and exactly as many as, the messages it has received or has
   still in its channel.
   */
  ghost predicate Conserved(s: State) {
    && |s.accounts| == |s.desk.polls|
    && (forall n :: 0 <= n < |s.accounts| ==> AccountRight(s, n))
    && (forall m, n :: 0 <= m < n < |s.accounts| ==> s.accounts[m].wanted !! s.accounts[n].wanted)
    && (forall c, t: nat :: c in s.clients ==>
          (t in s.clients[c].received + s.clients[c].queue <==>
             (c, t) in s.account.sent || exists n :: 0 <= n < |s.accounts| && (c, t) in s.accounts[n].sent))
    && (forall c :: c in s.clients ==> |DeliveredTo(s, c)| == |s.clients[c].received| + |s.clients[c].queue|)
  }

  lemma StateConserves(s: State)
    requires Accounts(s) && Streams(s) && Books(s) && PollsFollow(s.desk)
    ensures Conserved(s)
  {
    forall n | 0 <= n < |s.accounts|
      ensures AccountRight(s, n)
    {
      assert Balanced(s.accounts[n]);
    }
    forall m, n | 0 <= m < n < |s.accounts|
      ensures s.accounts[m].wanted !! s.accounts[n].wanted
    {
      ApartWanted(s, m, n);
    }
    forall c | c in s.clients
      ensures |DeliveredTo(s, c)| == |s.clients[c].received| + |s.clients[c].queue|
    {
      CountDelivered(s, c);
    }
    StreamsAreSent(s);
  }

  lemma StreamsAreSent(s: State)
    requires Booked(AllSent(s), s.clients)
    ensures forall c, t: nat :: c in s.clients ==>
              (t in s.clients[c].received + s.clients[c].queue <==>
                 (c, t) in s.account.sent || exists n :: 0 <= n < |s.accounts| && (c, t) in s.accounts[n].sent)
  {
    forall c, t: nat | c in s.clients
      ensures t in s.clients[c].received + s.clients[c].queue <==> (c, t) in AllSent(s)
    {
      assert Stream(s.clients[c]) == s.clients[c].received + s.clients[c].queue;
    }
  }

  /** The accounts and the channels agree in every state of every run. */
  lemma Conservation(run: Run, i: nat)
    requires run.Valid() && i < |run.states|
    ensures Conserved(run.states[i])
  {
    RunKeepsInv(run, i);
    RunKeepsBooks(run, i);
    RunKeepsHistory(run, i);
    StateConserves(run.states[i]);
  }

  lemma ApartWanted(s: State, m: nat, n: nat)
    requires WantedRight(s) && PollsFollow(s.desk) && m < n < |s.accounts|
    ensures s.accounts[m].wanted !! s.accounts[n].wanted
  {
    forall p: Pair | p in s.accounts[m].wanted
      ensures p !in s.accounts[n].wanted
    {
      var (c, t) := p;
      assert t < s.desk.polls[m].end <= s.desk.polls[n].poll.first;
    }
  }

  lemma CountDelivered(s: State, c: ClientId)
    requires Books(s) && Streams(s) && c in s.clients
    ensures |DeliveredTo(s, c)| == |s.clients[c].received| + |s.clients[c].queue|
  {
    var cl := s.clients[c];
    assert StreamRight(cl, s.desk.published, Offered(s, c));
    CountPairs(c, Stream(cl));
    forall p: Pair
      ensures p in DeliveredTo(s, c) <==> p in PairsOf(c, Stream(cl))
    {
      assert p == (p.0, p.1);
    }
    assert DeliveredTo(s, c) == PairsOf(c, Stream(cl));
  }

  // ---------------------------------------------------------------------------
  // Who wanted what
  // ---------------------------------------------------------------------------

  /** At step j the hub began to broadcast message t while c was registered and wanted it. */
  ghost predicate WantedAt(run: Run, j: nat, c: ClientId, t: nat)
    requires j < |run.steps| && j < |run.states|
  {
    var s := run.states[j];
    && run.steps[j].BeginBroadcast? && Enabled(s, BeginBroadcast)
    && |s.desk.published| == t
    && c in s.registered && c in s.clients
    && var p := NextPub(s.desk);
       Entitled(s.clients[c].topic, s.clients[c].scope, p.topic, p.row.ns)
  }

  lemma WantedNow(run: Run, j: nat, c: ClientId, t: nat)
    requires run.Valid() && j < |run.steps|
    ensures WantedAt(run, j, c, t) <==>
            && run.steps[j].BeginBroadcast? && |run.states[j].desk.published| == t
            && c in Wanting(run.states[j], NextPub(run.states[j].desk))
  {
    var s := run.states[j];
    assert Enabled(s, run.steps[j]);
    if run.steps[j].BeginBroadcast? && c in s.clients {
      WantsIffEntitled(s.clients[c].topic, s.clients[c].scope, MsgOf(NextPub(s.desk)));
    }
  }

  lemma StepWants(s: State, step: Step, c: ClientId, t: nat)
    requires LastAccount(s) && Enabled(s, step)
    ensures WantedEver(Apply(s, step), (c, t)) <==>
            || WantedEver(s, (c, t))
            || (step.BeginBroadcast? && |s.desk.published| == t && c in Wanting(s, NextPub(s.desk)))
  {
    var after := Apply(s, step);
    if step.FinishPoll? {
      assert forall n :: 0 <= n < |s.accounts| ==> after.accounts[n] == s.accounts[n];
      assert after.accounts[|s.accounts|] == s.account;
    } else if step.Send? {
      assert after.accounts == s.accounts && after.account.wanted == s.account.wanted;
    } else if !step.QueryAnswers? {
      SameAccounts(s, step);
    }
  }

  /** WantedAt at some step before i. */
  ghost predicate WantedBefore(run: Run, i: nat, c: ClientId, t: nat)
    requires i <= |run.steps| && i <= |run.states|
  {
    exists j :: 0 <= j < i && WantedAt(run, j, c, t)
  }

  lemma OneMoreStep(run: Run, i: nat, c: ClientId, t: nat)
    requires 0 < i <= |run.steps| && i <= |run.states|
    ensures WantedBefore(run, i, c, t) <==> WantedBefore(run, i - 1, c, t) || WantedAt(run, i - 1, c, t)
  {
  }

  /**
   The wanted sends that the polls' counts split are exactly the pairs of a broadcast message and a client
   that was registered when its broadcast began and wanted it.
   */
  lemma {:induction false} WantedMeaning(run: Run, i: nat, c: ClientId, t: nat)
    requires run.Valid() && i < |run.states|
    ensures WantedEver(run.states[i], (c, t)) <==> WantedBefore(run, i, c, t)
  {
    if i > 0 {
      WantedMeaning(run, i - 1, c, t);
      OneMoreStep(run, i, c, t);
      RunKeepsBooks(run, i - 1);
      StepWants(run.states[i - 1], run.steps[i - 1], c, t);
      WantedNow(run, i - 1, c, t);
    }
  }
}
