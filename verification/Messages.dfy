/** What the poller publishes for a row, and what a client's bounded queue does with it. */
module Messages {
  import opened Prelude
  import opened Scoping
  import opened Store

  const GLOBAL_TOPIC := "krateo"
  const POLL_LIMIT: nat := 500
  const CLIENT_BUFFER: nat := POLL_LIMIT
  const LIVE_LOOKBACK := 30 * NANOS

  datatype Msg = Msg(topic: string, data: string, namespace: string)

  /** The topic a subscription stands for: none means the global one. */
  function Subscription(topic: string): string {
    if topic == "" then GLOBAL_TOPIC else topic
  }

  /** client.wants */
  predicate Wants(topic: string, scope: Scope, m: Msg) {
    Subscription(topic) == m.topic && Allows(scope, m.namespace)
  }

  /** The non-blocking send: a full queue leaves the message out. */
  function Offer(topic: string, scope: Scope, queue: seq<Msg>, m: Msg): seq<Msg> {
    if Wants(topic, scope, m) && |queue| < CLIENT_BUFFER then queue + [m] else queue
  }

  function OfferAll(topic: string, scope: Scope, queue: seq<Msg>, msgs: seq<Msg>): seq<Msg> {
    if msgs == [] then queue
    else Offer(topic, scope, OfferAll(topic, scope, queue, msgs[..|msgs| - 1]), msgs[|msgs| - 1])
  }

  function GlobalMsg(r: Row): Msg {
    Msg(GLOBAL_TOPIC, r.payload, r.ns)
  }

  function CompositionMsg(r: Row): Msg {
    Msg(r.cid, r.payload, r.ns)
  }

  /** One row is published on the global topic and, when it has a composition id, on that id too. */
  function RowMessages(r: Row): seq<Msg> {
    if r.cid == "" then [GlobalMsg(r)] else [GlobalMsg(r), CompositionMsg(r)]
  }

  function AllMessages(rows: seq<Row>): seq<Msg> {
    if rows == [] then [] else AllMessages(rows[..|rows| - 1]) + RowMessages(rows[|rows| - 1])
  }

  /** The cursor after a poll that decoded `rows`. */
  function MaxTs(rows: seq<Row>, cursor: int): (m: int)
    ensures m >= cursor
    ensures forall r :: r in rows ==> TsUnix(r) <= m
    ensures m == cursor || exists r :: r in rows && TsUnix(r) == m
  {
    if rows == [] then cursor
    else
      var front, last := rows[..|rows| - 1], rows[|rows| - 1];
      assert rows == front + [last];
      Max(MaxTs(front, cursor), TsUnix(last))
  }

  function LiveCursor(now: int): int {
    (now - LIVE_LOOKBACK) / NANOS
  }

  /** The cursor of a poller that has just booted or idled is the second 30 before the reading's. */
  lemma LiveCursorIs(now: int)
    ensures LiveCursor(now) == now / 1_000_000_000 - 30
  {
  }

  /** Whether a message on `subject` from namespace `ns` is for a client that asked for `topic`. */
  predicate Entitled(topic: string, scope: Scope, subject: string, ns: string) {
    && subject == (if topic == "" then "krateo" else topic)
    && (scope.Only? ==> exists i :: 0 <= i < |scope.namespaces| && scope.namespaces[i] == ns)
  }

  lemma WantsIffEntitled(topic: string, scope: Scope, m: Msg)
    ensures Wants(topic, scope, m) <==> Entitled(topic, scope, m.topic, m.namespace)
  {
  }

  /**
   Both messages of a row go to the same client exactly when it takes the global topic, the row's
   composition id is that very topic, and the namespace is in scope.
   */
  lemma WantsBothIff(topic: string, scope: Scope, r: Row)
    ensures Wants(topic, scope, GlobalMsg(r)) && Wants(topic, scope, CompositionMsg(r))
            <==> Subscription(topic) == GLOBAL_TOPIC && r.cid == GLOBAL_TOPIC && Allows(scope, r.ns)
  {
  }

  lemma {:induction false} OfferAllAppend(topic: string, scope: Scope, queue: seq<Msg>, a: seq<Msg>, m: Msg)
    ensures OfferAll(topic, scope, queue, a + [m]) == Offer(topic, scope, OfferAll(topic, scope, queue, a), m)
  {
    assert (a + [m])[..|a|] == a;
  }

  // ---------------------------------------------------------------------------
  // What a client with room gets
  // ---------------------------------------------------------------------------

  /**
   The messages of one row that are for this client: the row itself for a global subscriber (twice when its
   composition id is literally the global topic), the row under its composition id for a subscriber of that.
   */
  function OwnOf(r: Row, topic: string, scope: Scope): seq<Msg> {
    if scope.Only? && r.ns !in scope.namespaces then []
    else if topic == "" || topic == "krateo" then
      var m := Msg("krateo", r.payload, r.ns);
      if r.cid == "krateo" then [m, m] else [m]
    else if r.cid == topic then [Msg(topic, r.payload, r.ns)]
    else []
  }

  function Own(rows: seq<Row>, topic: string, scope: Scope): seq<Msg> {
    if rows == [] then [] else Own(rows[..|rows| - 1], topic, scope) + OwnOf(rows[|rows| - 1], topic, scope)
  }

  /** The messages the client wants, in order. */
  function WantedOf(topic: string, scope: Scope, msgs: seq<Msg>): seq<Msg> {
    if msgs == [] then []
    else
      var last := msgs[|msgs| - 1];
      WantedOf(topic, scope, msgs[..|msgs| - 1]) + if Wants(topic, scope, last) then [last] else []
  }

  lemma WantedOfNext(topic: string, scope: Scope, msgs: seq<Msg>, m: Msg)
    ensures WantedOf(topic, scope, msgs + [m]) ==
            WantedOf(topic, scope, msgs) + if Wants(topic, scope, m) then [m] else []
  {
    assert (msgs + [m])[..|msgs|] == msgs;
  }

  lemma WantedOfRow(topic: string, scope: Scope, msgs: seq<Msg>, r: Row)
    ensures WantedOf(topic, scope, msgs + RowMessages(r)) == WantedOf(topic, scope, msgs) + OwnOf(r, topic, scope)
  {
    var g, m, before := GlobalMsg(r), CompositionMsg(r), WantedOf(topic, scope, msgs);
    var gs := if Wants(topic, scope, g) then [g] else [];
    var ms := if r.cid != "" && Wants(topic, scope, m) then [m] else [];
    WantedOfNext(topic, scope, msgs, g);
    OwnIsWantedOf(topic, scope, r);
    if r.cid != "" {
      WantedOfNext(topic, scope, msgs + [g], m);
      Regroup(msgs, [g], [m]);
      assert [g] + [m] == [g, m];
    }
    Regroup(before, gs, ms);
  }

  lemma OwnIsWantedOf(topic: string, scope: Scope, r: Row)
    ensures OwnOf(r, topic, scope) ==
            (if Wants(topic, scope, GlobalMsg(r)) then [GlobalMsg(r)] else [])
            + (if r.cid != "" && Wants(topic, scope, CompositionMsg(r)) then [CompositionMsg(r)] else [])
  {
  }

  /** Of all the messages published for these rows, a client wants exactly its own. */
  lemma {:induction false} WantedIsOwn(topic: string, scope: Scope, rows: seq<Row>)
    ensures WantedOf(topic, scope, AllMessages(rows)) == Own(rows, topic, scope)
  {
    if rows != [] {
      WantedIsOwn(topic, scope, rows[..|rows| - 1]);
      WantedOfRow(topic, scope, AllMessages(rows[..|rows| - 1]), rows[|rows| - 1]);
    }
  }

  /** With room for all it wants, a queue takes all it wants and nothing else. */
  lemma {:induction false} RoomForAll(topic: string, scope: Scope, queue: seq<Msg>, msgs: seq<Msg>)
    requires |queue| + |WantedOf(topic, scope, msgs)| <= 500
    ensures OfferAll(topic, scope, queue, msgs) == queue + WantedOf(topic, scope, msgs)
  {
    if msgs != [] {
      RoomForAll(topic, scope, queue, msgs[..|msgs| - 1]);
    }
  }

  /** A client with room gets exactly its own rows' messages, whatever else is published with them. */
  lemma RoomForOwn(topic: string, scope: Scope, queue: seq<Msg>, rows: seq<Row>)
    requires |queue| + |Own(rows, topic, scope)| <= 500
    ensures OfferAll(topic, scope, queue, AllMessages(rows)) == queue + Own(rows, topic, scope)
  {
    WantedIsOwn(topic, scope, rows);
    RoomForAll(topic, scope, queue, AllMessages(rows));
  }

  /** With no composition id equal to the global topic, a client's own messages are at most one a row. */
  lemma {:induction false} OwnOncePerRow(rows: seq<Row>, topic: string, scope: Scope)
    requires forall r :: r in rows ==> r.cid != "krateo"
    ensures |Own(rows, topic, scope)| <= |rows|
  {
    if rows != [] {
      OwnOncePerRow(rows[..|rows| - 1], topic, scope);
      assert rows[|rows| - 1] in rows;
    }
  }
}
