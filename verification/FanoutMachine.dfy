/**
 The poller, the hub and its clients as one interleaved machine. Every goroutine of main.go moves one
 step at a time: the collector stores a row, a connection registers, drains its channel or leaves, the
 poller counts clients, queries, and sends to one client at a time under the read lock. A send on a
 closed channel, a second close and a receive that reports a closed channel are recorded as faults
 rather than ruled out, so that their absence is something to prove.

 `published`, `polls`, `tally`, `account`, `received` and `floor` are history: they record what happened
 and no step reads them to decide anything. A channel holds the positions in `published` of its messages.
 */
module FanoutMachine {
  import opened Prelude
  import opened Scoping
  import opened Store
  import opened Messages

  type ClientId = nat

  /** Where the goroutine of one connection is. */
  datatype Phase =
    | Connecting      // before hub.register takes the lock
    | Registering     // inside register's critical section
    | Streaming       // in the select loop of handleSSE
    | Leaving         // the request is done, before hub.unregister takes the lock
    | Unregistering   // inside unregister's critical section
    | Removed         // deleted from the map, channel not yet closed
    | Gone            // channel closed

  /** One message handed to broadcast. */
  datatype Pub = Pub(row: Row, topic: string, poll: nat, floor: int)

  function MsgOf(p: Pub): Msg {
    Msg(p.topic, p.row.payload, p.row.ns)
  }

  /** One client's figures since the latest poll began: its backlog then, and what happened since. */
  datatype Tally = Tally(backlog: nat, wanted: nat, dropped: nat, drained: nat)

  datatype Client = Client(
    topic: string,
    scope: Scope,
    phase: Phase,
    queue: seq<nat>,
    closed: bool,
    received: seq<nat>,
    tally: Tally)

  /**
   The latest poll that got an answer: its cursor, the rows ClickHouse could see, the raw answer, and
   where in `published` it begins.
   */
  datatype Poll = Poll(cursor: int, visible: set<Row>, raw: seq<Row>, first: nat, floor: int)

  function Batch(p: Poll): seq<Row> {
    Decoded(p.raw)
  }

  type Pair = (ClientId, nat)

  /** One poll's sends: who wanted which message, and what became of it. */
  datatype Account = Account(wanted: set<Pair>, sent: set<Pair>, lost: set<Pair>, delivered: nat, dropped: nat)

  /** A finished poll, the cursor it left, and where in `published` it ends. */
  datatype PollRecord = PollRecord(poll: Poll, next: int, end: nat)

  datatype Stage = ToGlobal | ToComposition

  datatype Pc =
    | Resting                                                // waiting for the ticker
    | Idle(now: int)                                         // counted no clients
    | Asking                                                 // counted some clients
    | Publishing(k: nat, stage: Stage)                       // in the row loop, no lock held
    | Sending(k: nat, stage: Stage)                          // in broadcast, read lock held

  /** The table, the poller and what it has published. */
  datatype Desk = Desk(
    log: set<Row>,
    pc: Pc,
    cursor: int,
    floor: int,
    poll: Poll,
    published: seq<Pub>,
    polls: seq<PollRecord>)

  datatype State = State(
    desk: Desk,
    clients: map<ClientId, Client>,
    registered: set<ClientId>,
    writer: Option<ClientId>,
    observers: nat,
    pending: set<ClientId>,
    account: Account,
    accounts: seq<Account>,
    panicked: bool,
    sawClosed: bool)

  datatype Step =
    | StoreRow(row: Row)
    | Connect(c: ClientId, topic: string, scope: Scope)
    | LockToRegister(c: ClientId)
    | Register(c: ClientId)
    | Receive(c: ClientId)
    | Leave(c: ClientId)
    | LockToUnregister(c: ClientId)
    | Unregister(c: ClientId)
    | Close(c: ClientId)
    | BeginObserve
    | EndObserve
    | Tick(now: int)
    | AdvanceIdle
    | QueryFails
    | QueryAnswers(raw: seq<Row>)
    | BeginBroadcast
    | Send(c: ClientId)
    | EndBroadcast
    | FinishPoll

  const EMPTY_TALLY := Tally(0, 0, 0, 0)
  const EMPTY_ACCOUNT := Account({}, {}, {}, 0, 0)

  /** A fresh process booted at `now` against a table that already holds `log`. */
  function Boot(log: set<Row>, now: int): State {
    var cursor := LiveCursor(now);
    State(Desk(log, Resting, cursor, cursor, Poll(cursor, {}, [], 0, cursor), [], []),
          map[], {}, None, 0, {}, EMPTY_ACCOUNT, [], false, false)
  }

  /** The rows pollSQL matches: `Timestamp >= toDateTime64(lastSeenUnix + 1, 9)`. */
  ghost function PollMatch(log: set<Row>, cursor: int): set<Row> {
    set r | r in log && r.ts >= (cursor + 1) * NANOS
  }

  predicate InPhase(s: State, c: ClientId, p: Phase) {
    c in s.clients && s.clients[c].phase == p
  }

  predicate LockFree(s: State) {
    s.writer.None? && s.observers == 0 && !s.desk.pc.Sending?
  }

  ghost predicate Enabled(s: State, step: Step) {
    match step
    case StoreRow(row) => true
    case Connect(c, topic, scope) => c !in s.clients
    case LockToRegister(c) => InPhase(s, c, Connecting) && LockFree(s)
    case Register(c) => InPhase(s, c, Registering)
    case Receive(c) => InPhase(s, c, Streaming) && (s.clients[c].queue != [] || s.clients[c].closed)
    case Leave(c) => InPhase(s, c, Streaming)
    case LockToUnregister(c) => InPhase(s, c, Leaving) && LockFree(s)
    case Unregister(c) => InPhase(s, c, Unregistering)
    case Close(c) => InPhase(s, c, Removed)
    case BeginObserve => s.writer.None?
    case EndObserve => s.observers > 0
    case Tick(now) => s.desk.pc.Resting? && s.writer.None?
    case AdvanceIdle => s.desk.pc.Idle?
    case QueryFails => s.desk.pc.Asking?
    case QueryAnswers(raw) =>
      s.desk.pc.Asking? && Selection(Oldest, raw, PollMatch(s.desk.log, s.desk.cursor), POLL_LIMIT)
    case BeginBroadcast => s.desk.pc.Publishing? && s.desk.pc.k < |Batch(s.desk.poll)| && s.writer.None?
    case Send(c) => s.desk.pc.Sending? && c in s.pending && c in s.clients && s.desk.published != []
    case EndBroadcast => s.desk.pc.Sending? && s.pending == {} && s.desk.pc.k < |Batch(s.desk.poll)|
    case FinishPoll => s.desk.pc.Publishing? && s.desk.pc.k == |Batch(s.desk.poll)|
  }

  function SetPhase(s: State, c: ClientId, p: Phase): State
    requires c in s.clients
  {
    s.(clients := s.clients[c := s.clients[c].(phase := p)])
  }

  function DoReceive(s: State, c: ClientId): State
    requires c in s.clients
  {
    var cl := s.clients[c];
    if cl.queue == [] then s.(sawClosed := true)
    else
      s.(clients := s.clients[c := cl.(
        queue := cl.queue[1..],
        received := cl.received + [cl.queue[0]],
        tally := cl.tally.(drained := cl.tally.drained + 1))])
  }

  function DoClose(s: State, c: ClientId): State
    requires c in s.clients
  {
    if s.clients[c].closed then s.(panicked := true)
    else s.(clients := s.clients[c := s.clients[c].(phase := Gone, closed := true)])
  }

  /** Each client's figures restart when a poll gets its answer. */
  function FreshTallies(clients: map<ClientId, Client>): map<ClientId, Client> {
    map c | c in clients :: clients[c].(tally := Tally(|clients[c].queue|, 0, 0, 0))
  }

  function Ask(d: Desk, raw: seq<Row>): Desk {
    d.(pc := Publishing(0, ToGlobal), poll := Poll(d.cursor, d.log, raw, |d.published|, d.floor))
  }

  function DoAnswer(s: State, raw: seq<Row>): State {
    s.(desk := Ask(s.desk, raw),
       clients := FreshTallies(s.clients),
       account := EMPTY_ACCOUNT)
  }

  predicate ClientWants(cl: Client, p: Pub) {
    Wants(cl.topic, cl.scope, MsgOf(p))
  }

  function Wanting(s: State, p: Pub): set<ClientId> {
    set c | c in s.registered && c in s.clients && ClientWants(s.clients[c], p)
  }

  function PairsAt(cs: set<ClientId>, tag: nat): (pairs: set<Pair>)
    ensures forall c, t :: (c, t) in pairs <==> c in cs && t == tag
  {
    set c | c in cs :: (c, tag)
  }

  function NextPub(d: Desk): Pub
    requires d.pc.Publishing? && d.pc.k < |Batch(d.poll)|
  {
    var row := Batch(d.poll)[d.pc.k];
    Pub(row, if d.pc.stage.ToGlobal? then GLOBAL_TOPIC else row.cid, |d.polls|, d.floor)
  }

  function Begin(d: Desk): Desk
    requires d.pc.Publishing? && d.pc.k < |Batch(d.poll)|
  {
    d.(pc := Sending(d.pc.k, d.pc.stage), published := d.published + [NextPub(d)])
  }

  function DoBegin(s: State): State
    requires s.desk.pc.Publishing? && s.desk.pc.k < |Batch(s.desk.poll)|
  {
    var wanting := Wanting(s, NextPub(s.desk));
    s.(desk := Begin(s.desk),
       pending := s.registered,
       account := s.account.(wanted := s.account.wanted + PairsAt(wanting, |s.desk.published|)))
  }

  function DoSend(s: State, c: ClientId): State
    requires s.desk.pc.Sending? && c in s.clients && s.desk.published != []
  {
    var cl, tag := s.clients[c], |s.desk.published| - 1;
    var t := s.(pending := s.pending - {c});
    if !ClientWants(cl, s.desk.published[tag]) then t
    else if cl.closed then t.(panicked := true)
    else if |cl.queue| < CLIENT_BUFFER then
      t.(clients := s.clients[c := cl.(queue := cl.queue + [tag],
                                       tally := cl.tally.(wanted := cl.tally.wanted + 1))],
         account := s.account.(sent := s.account.sent + {(c, tag)}, delivered := s.account.delivered + 1))
    else
      t.(clients := s.clients[c := cl.(tally := cl.tally.(wanted := cl.tally.wanted + 1,
                                                          dropped := cl.tally.dropped + 1))],
         account := s.account.(lost := s.account.lost + {(c, tag)}, dropped := s.account.dropped + 1))
  }

  function End(d: Desk): Desk
    requires d.pc.Sending? && d.pc.k < |Batch(d.poll)|
  {
    if d.pc.stage.ToGlobal? && Batch(d.poll)[d.pc.k].cid != "" then d.(pc := Publishing(d.pc.k, ToComposition))
    else d.(pc := Publishing(d.pc.k + 1, ToGlobal))
  }

  function Finish(d: Desk): Desk {
    var next := MaxTs(Batch(d.poll), d.cursor);
    d.(pc := Resting, cursor := next, polls := d.polls + [PollRecord(d.poll, next, |d.published|)])
  }

  function Advance(d: Desk): Desk
    requires d.pc.Idle?
  {
    var live := LiveCursor(d.pc.now);
    d.(pc := Resting, floor := live, cursor := if live > d.cursor then live else d.cursor)
  }

  ghost function Apply(s: State, step: Step): State
    requires Enabled(s, step)
  {
    match step
    case StoreRow(row) => s.(desk := s.desk.(log := s.desk.log + {row}))
    case Connect(c, topic, scope) =>
      s.(clients := s.clients[c := Client(topic, scope, Connecting, [], false, [], EMPTY_TALLY)])
    case LockToRegister(c) => SetPhase(s, c, Registering).(writer := Some(c))
    case Register(c) => SetPhase(s, c, Streaming).(writer := None, registered := s.registered + {c})
    case Receive(c) => DoReceive(s, c)
    case Leave(c) => SetPhase(s, c, Leaving)
    case LockToUnregister(c) => SetPhase(s, c, Unregistering).(writer := Some(c))
    case Unregister(c) => SetPhase(s, c, Removed).(writer := None, registered := s.registered - {c})
    case Close(c) => DoClose(s, c)
    case BeginObserve => s.(observers := s.observers + 1)
    case EndObserve => s.(observers := s.observers - 1)
    case Tick(now) => s.(desk := s.desk.(pc := if s.registered == {} then Idle(now) else Asking))
    case AdvanceIdle => s.(desk := Advance(s.desk))
    case QueryFails => s.(desk := s.desk.(pc := Resting))
    case QueryAnswers(raw) => DoAnswer(s, raw)
    case BeginBroadcast => DoBegin(s)
    case Send(c) => DoSend(s, c)
    case EndBroadcast => s.(desk := End(s.desk))
    case FinishPoll => s.(desk := Finish(s.desk), accounts := s.accounts + [s.account])
  }

  // ---------------------------------------------------------------------------
  // Runs
  // ---------------------------------------------------------------------------

  /** The states of a run: each is reached from the one before by an enabled step. */
  ghost predicate IsRun(states: seq<State>, steps: seq<Step>, log: set<Row>, now: int) {
    && |states| == |steps| + 1
    && states[0] == Boot(log, now)
    && forall i {:trigger steps[i]} :: 0 <= i < |steps| ==>
         Enabled(states[i], steps[i]) && states[i + 1] == Apply(states[i], steps[i])
  }
}
