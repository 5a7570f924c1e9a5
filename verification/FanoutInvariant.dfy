/** What every reachable state of the fan-out machine satisfies. */
module FanoutInvariant {
  import opened Prelude
  import opened Store
  import opened Messages
  import opened FanoutMachine

  // ---------------------------------------------------------------------------
  // The lock, the registry and the channels
  // ---------------------------------------------------------------------------

  ghost predicate LockHeldRight(s: State) {
    && (s.writer.Some? ==> s.writer.value in s.clients && s.observers == 0 && !s.desk.pc.Sending?)
    && (forall c :: c in s.clients ==>
          (s.clients[c].phase in {Registering, Unregistering} <==> s.writer == Some(c)))
  }

  ghost predicate RegistryRight(s: State) {
    && s.registered <= s.clients.Keys
    && (forall c :: c in s.clients ==>
          && (c in s.registered <==> s.clients[c].phase in {Streaming, Leaving, Unregistering})
          && (s.clients[c].closed <==> s.clients[c].phase == Gone))
    && (s.desk.pc.Sending? ==> s.pending <= s.registered)
  }

  /** No panic, and no stream loop that finds its channel closed. */
  ghost predicate NoFault(s: State) {
    !s.panicked && !s.sawClosed
  }

  ghost predicate Safe(s: State) {
    LockHeldRight(s) && RegistryRight(s) && NoFault(s)
  }

  // ---------------------------------------------------------------------------
  // The cursor and the publications
  // ---------------------------------------------------------------------------

  predicate Polling(d: Desk) {
    d.pc.Publishing? || d.pc.Sending?
  }

  ghost predicate PollRight(p: Poll) {
    && p.floor <= p.cursor
    && Selection(Oldest, p.raw, PollMatch(p.visible, p.cursor), POLL_LIMIT)
    && Distinct(Batch(p)) && Ordered(Oldest, Batch(p))
    && (forall r :: r in Batch(p) ==> TsUnix(r) > p.cursor)
  }

  /** The poll under way. */
  ghost predicate CurrentPollRight(d: Desk) {
    && d.cursor >= d.floor
    && (Polling(d) ==>
          && d.poll.visible <= d.log
          && d.poll.cursor == d.cursor && d.poll.floor == d.floor
          && d.poll.first <= |d.published|
          && d.pc.k <= |Batch(d.poll)|
          && (d.pc.Sending? || d.pc.stage.ToComposition? ==> d.pc.k < |Batch(d.poll)|)
          && (d.pc.stage.ToComposition? ==> Batch(d.poll)[d.pc.k].cid != ""))
  }

  /** Publications come in timestamp order, and a later poll starts after an earlier poll's last second. */
  ghost predicate InOrder(published: seq<Pub>) {
    forall i, j :: 0 <= i < j < |published| ==>
      && published[i].row.ts <= published[j].row.ts
      && published[i].poll <= published[j].poll
      && (published[i].poll < published[j].poll ==> TsUnix(published[i].row) < TsUnix(published[j].row))
  }

  /** A row is published at most twice: on the global topic and right after on its composition id. */
  ghost predicate AtMostTwice(published: seq<Pub>) {
    forall i, j :: 0 <= i < j < |published| && published[i].row == published[j].row ==>
      && j == i + 1
      && published[i].topic == GLOBAL_TOPIC
      && published[j].topic == published[j].row.cid
  }

  ghost predicate PubRight(p: Pub) {
    && p.row.decodable
    && (p.topic == GLOBAL_TOPIC || (p.topic == p.row.cid && p.row.cid != ""))
    && TsUnix(p.row) > p.floor
  }

  /** Which poll a publication belongs to, and that the cursor has passed the finished ones. */
  ghost predicate Placed(d: Desk, i: nat)
    requires i < |d.published|
  {
    var p := d.published[i];
    && p.row in d.log
    && p.poll <= |d.polls|
    && (p.poll < |d.polls| ==> TsUnix(p.row) <= d.cursor)
    && (!Polling(d) ==> p.poll < |d.polls|)
    && (Polling(d) ==> (p.poll == |d.polls| <==> i >= d.poll.first))
  }

  /** How far the current poll has got: rows before k are fully published, row k perhaps in part. */
  predicate Recent(d: Desk, back: nat, topic: string)
    requires Polling(d) && d.pc.k < |Batch(d.poll)|
  {
    && d.poll.first + back <= |d.published|
    && 0 < back
    && d.published[|d.published| - back] == Pub(Batch(d.poll)[d.pc.k], topic, |d.polls|, d.floor)
  }

  /** The number of publications already made for row k. */
  function Partial(d: Desk): nat
    requires Polling(d)
  {
    (if d.pc.stage.ToComposition? then 1 else 0) + (if d.pc.Sending? then 1 else 0)
  }

  ghost predicate ProgressRight(d: Desk)
    requires Polling(d) && d.pc.k <= |Batch(d.poll)|
    requires d.pc.Sending? || d.pc.stage.ToComposition? ==> d.pc.k < |Batch(d.poll)|
  {
    var batch, k, done := Batch(d.poll), d.pc.k, Partial(d);
    && d.poll.first + done <= |d.published|
    && (done >= 1 ==> Recent(d, done, GLOBAL_TOPIC))
    && (done == 2 ==> Recent(d, 1, batch[k].cid))
    && (forall i :: d.poll.first <= i < |d.published| - done ==> d.published[i].row in batch[..k])
  }

  ghost predicate Announced(published: seq<Pub>, r: Row, poll: nat, floor: int) {
    && Pub(r, GLOBAL_TOPIC, poll, floor) in published
    && (r.cid != "" ==> Pub(r, r.cid, poll, floor) in published)
  }

  ghost predicate RecordRight(rec: PollRecord, published: seq<Pub>, n: nat) {
    && PollRight(rec.poll)
    && rec.next == MaxTs(Batch(rec.poll), rec.poll.cursor)
    && (forall r :: r in Batch(rec.poll) ==> Announced(published, r, n, rec.poll.floor))
  }

  ghost predicate RecordsRight(d: Desk) {
    && (forall n :: 0 <= n < |d.polls| ==> RecordRight(d.polls[n], d.published, n))
    && (forall n :: 0 <= n < |d.polls| ==> d.polls[n].next <= d.cursor && d.polls[n].poll.visible <= d.log)
  }

  ghost predicate PubsRight(d: Desk) {
    && InOrder(d.published)
    && AtMostTwice(d.published)
    && (forall i :: 0 <= i < |d.published| ==> PubRight(d.published[i]))
    && (forall i :: 0 <= i < |d.published| ==> Placed(d, i))
  }

  ghost predicate BatchRight(d: Desk)
    requires CurrentPollRight(d)
  {
    Polling(d) ==>
      && ProgressRight(d)
      && forall j :: 0 <= j < d.pc.k ==> Announced(d.published, Batch(d.poll)[j], |d.polls|, d.floor)
  }

  /** The messages published from position a up to b. */
  function Segment(published: seq<Pub>, a: nat, b: nat): seq<Msg>
    requires a <= b <= |published|
  {
    seq(b - a, i requires 0 <= i < b - a => MsgOf(published[a + i]))
  }

  /** Each finished poll published exactly its rows' messages; the one under way, those of the rows it has reached. */
  ghost predicate SegmentsRight(d: Desk)
    requires CurrentPollRight(d)
  {
    && (forall n :: 0 <= n < |d.polls| ==>
          && d.polls[n].poll.first <= d.polls[n].end <= |d.published|
          && Segment(d.published, d.polls[n].poll.first, d.polls[n].end) == AllMessages(Batch(d.polls[n].poll)))
    && (Polling(d) && Partial(d) == 0 ==>
          Segment(d.published, d.poll.first, |d.published|) == AllMessages(Batch(d.poll)[..d.pc.k]))
    && (Polling(d) && Partial(d) > 0 ==>
          var row := Batch(d.poll)[d.pc.k];
          && Partial(d) <= |RowMessages(row)|
          && Segment(d.published, d.poll.first, |d.published|) ==
             AllMessages(Batch(d.poll)[..d.pc.k]) + RowMessages(row)[..Partial(d)])
  }

  ghost predicate Ledger(d: Desk) {
    && CurrentPollRight(d)
    && (Polling(d) ==> PollRight(d.poll))
    && PubsRight(d)
    && BatchRight(d)
    && RecordsRight(d)
  }

  // ---------------------------------------------------------------------------
  // The clients' streams
  // ---------------------------------------------------------------------------

  /** Everything the hub ever put in a client's channel, in order. */
  function Stream(cl: Client): seq<nat> {
    cl.received + cl.queue
  }

  /** A stream holds positions below `limit`, each once and in order, each a message the client wants. */
  ghost predicate StreamRight(cl: Client, published: seq<Pub>, limit: nat) {
    var stream := Stream(cl);
    && |cl.queue| <= CLIENT_BUFFER
    && limit <= |published|
    && (forall i, j :: 0 <= i < j < |stream| ==> stream[i] < stream[j])
    && (forall i :: 0 <= i < |stream| ==> stream[i] < limit && ClientWants(cl, published[stream[i]]))
  }

  /** The publications already offered to c. */
  function Offered(s: State, c: ClientId): nat {
    if s.desk.pc.Sending? && c in s.pending && s.desk.published != [] then |s.desk.published| - 1
    else |s.desk.published|
  }

  ghost predicate Streams(s: State) {
    && (s.desk.pc.Sending? ==> s.desk.published != [])
    && forall c :: c in s.clients ==> StreamRight(s.clients[c], s.desk.published, Offered(s, c))
  }

  // ---------------------------------------------------------------------------
  // The buffer bound
  // ---------------------------------------------------------------------------

  function Overflow(t: Tally): nat {
    Max(0, t.backlog + t.wanted - CLIENT_BUFFER)
  }

  ghost predicate TallyRight(cl: Client) {
    var t := cl.tally;
    && t.backlog <= CLIENT_BUFFER
    && |cl.queue| + t.drained + t.dropped == t.backlog + t.wanted
    && t.dropped <= Overflow(t)
    && (t.drained == 0 ==> t.dropped == Overflow(t))
  }

  /** No row of the batch is published twice on this client's topic. */
  ghost predicate OncePerRow(cl: Client, batch: seq<Row>) {
    Subscription(cl.topic) == GLOBAL_TOPIC ==> forall r :: r in batch ==> r.cid != GLOBAL_TOPIC
  }

  function One(b: bool): nat {
    if b then 1 else 0
  }

  /**
   How many messages of the poll a once-per-row client can have wanted so far; `waiting` says that the
   broadcast under way has not reached it yet.
   */
  function Share(cl: Client, d: Desk, waiting: bool): nat
    requires CurrentPollRight(d)
  {
    if !Polling(d) then |Batch(d.poll)|
    else if d.pc.Publishing? && d.pc.stage.ToGlobal? then d.pc.k
    else
      var row := Batch(d.poll)[d.pc.k];
      var reached := d.pc.Sending? && !waiting;
      var global := (reached || d.pc.stage.ToComposition?) && Wants(cl.topic, cl.scope, GlobalMsg(row));
      var own := reached && d.pc.stage.ToComposition? && Wants(cl.topic, cl.scope, CompositionMsg(row));
      d.pc.k + One(global) + One(own)
  }

  ghost predicate ShareRight(cl: Client, d: Desk, waiting: bool)
    requires CurrentPollRight(d)
  {
    OncePerRow(cl, Batch(d.poll)) ==> cl.tally.wanted <= Share(cl, d, waiting)
  }

  ghost predicate Tallies(s: State) {
    && CurrentPollRight(s.desk)
    && |Batch(s.desk.poll)| <= POLL_LIMIT
    && (forall c :: c in s.clients ==> TallyRight(s.clients[c]))
    && (forall c :: c in s.clients ==> ShareRight(s.clients[c], s.desk, c in s.pending))
  }

  // ---------------------------------------------------------------------------
  // The accounts
  // ---------------------------------------------------------------------------

  /** The broadcast under way still owes c the publication at position t. */
  predicate Owes(s: State, c: ClientId, t: nat) {
    && s.desk.pc.Sending? && t + 1 == |s.desk.published|
    && c in s.pending && c in s.clients && ClientWants(s.clients[c], s.desk.published[t])
  }

  /** The counters count what they say. */
  ghost predicate Counted(a: Account) {
    a.delivered == |a.sent| && a.dropped == |a.lost|
  }

  /** Every wanted send landed, was lost or is still owed, and only one of these. */
  ghost predicate Settled(s: State) {
    var a := s.account;
    && (forall c: ClientId, t: nat :: (c, t) in a.sent ==> (c, t) in a.wanted && (c, t) !in a.lost && !Owes(s, c, t))
    && (forall c: ClientId, t: nat :: (c, t) in a.lost ==> (c, t) in a.wanted && !Owes(s, c, t))
    && (forall c: ClientId, t: nat :: (c, t) in a.wanted ==>
          t < |s.desk.published| && ((c, t) in a.sent || (c, t) in a.lost || Owes(s, c, t)))
    && (forall c: ClientId, t: nat :: Owes(s, c, t) ==> (c, t) in a.wanted)
  }

  /** A finished poll: delivered and dropped split the wanted sends. */
  ghost predicate Balanced(a: Account) {
    Counted(a) && a.sent !! a.lost && a.sent + a.lost == a.wanted
  }

  /** A send is counted as delivered exactly when it is in the client's stream. */
  ghost predicate SentMatches(sent: set<Pair>, c: ClientId, cl: Client, first: nat) {
    forall t :: t >= first ==> ((c, t) in sent <==> t in Stream(cl))
  }

  ghost predicate Accounts(s: State) {
    && Counted(s.account)
    && Settled(s)
    && (forall c: ClientId, t: nat :: (c, t) in s.account.sent ==> c in s.clients)
    && (forall c :: c in s.clients ==> SentMatches(s.account.sent, c, s.clients[c], s.desk.poll.first))
    && |s.accounts| == |s.desk.polls|
    && (forall n :: 0 <= n < |s.accounts| ==> Balanced(s.accounts[n]))
  }

  ghost predicate Inv(s: State) {
    Safe(s) && Ledger(s.desk) && SegmentsRight(s.desk) && Streams(s) && Tallies(s) && Accounts(s)
  }
}
