/** The hub and the poller as the objects of main.go, each method run without interruption. */
module Hub {
  import opened Prelude
  import opened Scoping
  import opened Store
  import opened Messages

  class Client {
    const topic: string
    const scope: Scope
    var queue: seq<Msg>
    var closed: bool

    constructor (topic: string, scope: Scope)
      ensures this.topic == topic && this.scope == scope && queue == [] && !closed
    {
      this.topic, this.scope, queue, closed := topic, scope, [], false;
    }

    predicate WantsMsg(m: Msg) {
      Wants(topic, scope, m)
    }

    /** The select with a default case: never waits, reports whether the message went in. */
    method TrySend(m: Msg) returns (sent: bool)
      requires !closed
      modifies this`queue
      ensures sent <==> |old(queue)| < CLIENT_BUFFER
      ensures queue == if sent then old(queue) + [m] else old(queue)
    {
      sent := |queue| < CLIENT_BUFFER;
      if sent {
        queue := queue + [m];
      }
    }
  }

  /** The clients of `snap` that take m when it follows `msgs`, none of them draining. */
  ghost function Takers(snap: map<Client, seq<Msg>>, msgs: seq<Msg>, m: Msg): set<Client> {
    set c | c in snap && c.WantsMsg(m) && |OfferAll(c.topic, c.scope, snap[c], msgs)| < CLIENT_BUFFER
  }

  ghost function Losers(snap: map<Client, seq<Msg>>, msgs: seq<Msg>, m: Msg): set<Client> {
    set c | c in snap && c.WantsMsg(m) && |OfferAll(c.topic, c.scope, snap[c], msgs)| >= CLIENT_BUFFER
  }

  ghost function SentCount(snap: map<Client, seq<Msg>>, msgs: seq<Msg>): nat {
    if msgs == [] then 0
    else
      var front := msgs[..|msgs| - 1];
      SentCount(snap, front) + |Takers(snap, front, msgs[|msgs| - 1])|
  }

  ghost function DroppedCount(snap: map<Client, seq<Msg>>, msgs: seq<Msg>): nat {
    if msgs == [] then 0
    else
      var front := msgs[..|msgs| - 1];
      DroppedCount(snap, front) + |Losers(snap, front, msgs[|msgs| - 1])|
  }

  /** The (message, client) pairs in which the client wants the message. */
  ghost function WantedPairs(clients: set<Client>, msgs: seq<Msg>): nat {
    if msgs == [] then 0
    else
      WantedPairs(clients, msgs[..|msgs| - 1]) + |set c | c in clients && c.WantsMsg(msgs[|msgs| - 1])|
  }

  /** Every wanted message is either sent or counted as dropped. */
  lemma {:induction false} SentPlusDropped(snap: map<Client, seq<Msg>>, msgs: seq<Msg>)
    ensures SentCount(snap, msgs) + DroppedCount(snap, msgs) == WantedPairs(snap.Keys, msgs)
  {
    if msgs != [] {
      var front, m := msgs[..|msgs| - 1], msgs[|msgs| - 1];
      SentPlusDropped(snap, front);
      assert (set c | c in snap.Keys && c.WantsMsg(m)) == Takers(snap, front, m) + Losers(snap, front, m);
      assert Takers(snap, front, m) !! Losers(snap, front, m);
    }
  }

  class Hub {
    var clients: set<Client>

    /** What broadcast needs of its callers: sending on a closed channel panics. */
    ghost predicate Valid()
      reads this, clients
    {
      forall c :: c in clients ==> !c.closed && |c.queue| <= CLIENT_BUFFER
    }

    ghost function Snapshot(): map<Client, seq<Msg>>
      reads this, clients
    {
      map c | c in clients :: c.queue
    }

    constructor ()
      ensures clients == {} && Valid()
    {
      clients := {};
    }

    method Register(c: Client)
      requires Valid() && !c.closed && |c.queue| <= CLIENT_BUFFER
      modifies this
      ensures Valid() && clients == old(clients) + {c}
    {
      clients := clients + {c};
    }

    method Unregister(c: Client)
      requires Valid() && !c.closed
      modifies this, c`closed
      ensures Valid() && clients == old(clients) - {c} && c.closed
    {
      clients := clients - {c};
      c.closed := true;
    }

    method Count() returns (n: nat)
      ensures n == |clients|
    {
      n := |clients|;
    }

    /** The loop of broadcast; `takers` and `losers` are the wanting clients with and without room. */
    method FanOut(m: Msg, ghost takers: set<Client>, ghost losers: set<Client>) returns (sent: nat, dropped: nat)
      requires Valid() && takers <= clients && losers <= clients
      requires forall c :: c in clients ==> (c in takers <==> c.WantsMsg(m) && |c.queue| < CLIENT_BUFFER)
      requires forall c :: c in clients ==> (c in losers <==> c.WantsMsg(m) && |c.queue| >= CLIENT_BUFFER)
      modifies clients`queue
      ensures forall c :: c in clients ==> c.queue == if c in takers then old(c.queue) + [m] else old(c.queue)
      ensures sent == |takers| && dropped == |losers|
    {
      sent, dropped := 0, 0;
      var pending := clients;
      ghost var toTake, toLose := takers, losers;
      while pending != {}
        invariant pending <= clients
        invariant forall c :: c in clients && c in pending ==> c.queue == old(c.queue)
        invariant forall c :: c in clients && c !in pending ==>
                    c.queue == if c in takers then old(c.queue) + [m] else old(c.queue)
        invariant toTake <= pending && sent + |toTake| == |takers|
        invariant toLose <= pending && dropped + |toLose| == |losers|
        invariant forall c :: c in pending ==> (c in toTake <==> c in takers) && (c in toLose <==> c in losers)
        decreases pending
      {
        var c :| c in pending;
        pending := pending - {c};
        if c.WantsMsg(m) {
          var ok := c.TrySend(m);
          if ok {
            sent := sent + 1;
          } else {
            dropped := dropped + 1;
          }
        }
        toTake, toLose := toTake - {c}, toLose - {c};
      }
    }

    method Broadcast(m: Msg) returns (sent: nat, dropped: nat)
      requires Valid()
      modifies clients`queue
      ensures Valid()
      ensures forall c :: c in clients ==> c.queue == Offer(c.topic, c.scope, old(c.queue), m)
      ensures forall c :: c in clients ==>
                c.queue == if Entitled(c.topic, c.scope, m.topic, m.namespace) && |old(c.queue)| < 500
                           then old(c.queue) + [m] else old(c.queue)
      ensures sent == |Takers(old(Snapshot()), [], m)|
      ensures dropped == |Losers(old(Snapshot()), [], m)|
    {
      sent, dropped := FanOut(m, Takers(Snapshot(), [], m), Losers(Snapshot(), [], m));
      forall c | c in clients
        ensures Wants(c.topic, c.scope, m) <==> Entitled(c.topic, c.scope, m.topic, m.namespace)
      {
        WantsIffEntitled(c.topic, c.scope, m);
      }
    }
  }

  /** Offering m to queues that already hold what they took of `msgs`. */
  lemma BroadcastAfter(snap: map<Client, seq<Msg>>, now: map<Client, seq<Msg>>, msgs: seq<Msg>, m: Msg)
    requires now.Keys == snap.Keys
    requires forall c :: c in snap ==> now[c] == OfferAll(c.topic, c.scope, snap[c], msgs)
    ensures SentCount(snap, msgs + [m]) == SentCount(snap, msgs) + |Takers(now, [], m)|
    ensures DroppedCount(snap, msgs + [m]) == DroppedCount(snap, msgs) + |Losers(now, [], m)|
    ensures forall c :: c in snap ==>
              OfferAll(c.topic, c.scope, snap[c], msgs + [m]) == Offer(c.topic, c.scope, now[c], m)
  {
    assert (msgs + [m])[..|msgs|] == msgs;
    assert Takers(now, [], m) == Takers(snap, msgs, m);
    assert Losers(now, [], m) == Losers(snap, msgs, m);
    forall c | c in snap
      ensures OfferAll(c.topic, c.scope, snap[c], msgs + [m]) == Offer(c.topic, c.scope, now[c], m)
    {
      OfferAllAppend(c.topic, c.scope, snap[c], msgs, m);
    }
  }

  class Poller {
    const hub: Hub
    var lastSeenUnix: int

    constructor (hub: Hub, now: int)
      ensures this.hub == hub && lastSeenUnix == now / 1_000_000_000 - 30
    {
      LiveCursorIs(now);
      this.hub, lastSeenUnix := hub, LiveCursor(now);
    }

    /** One broadcast inside a poll that has already published `msgs`. */
    method Publish(m: Msg, ghost snap: map<Client, seq<Msg>>, ghost msgs: seq<Msg>, sentSoFar: nat, droppedSoFar: nat)
      returns (sent: nat, dropped: nat)
      requires hub.Valid() && snap.Keys == hub.clients
      requires forall c :: c in hub.clients ==> c.queue == OfferAll(c.topic, c.scope, snap[c], msgs)
      requires sentSoFar == SentCount(snap, msgs) && droppedSoFar == DroppedCount(snap, msgs)
      modifies hub.clients`queue
      ensures hub.Valid()
      ensures forall c :: c in hub.clients ==> c.queue == OfferAll(c.topic, c.scope, snap[c], msgs + [m])
      ensures sent == SentCount(snap, msgs + [m]) && dropped == DroppedCount(snap, msgs + [m])
    {
      ghost var now := hub.Snapshot();
      BroadcastAfter(snap, now, msgs, m);
      var s, d := hub.Broadcast(m);
      sent, dropped := sentSoFar + s, droppedSoFar + d;
    }

    /** The body of poll's row loop. */
    method PublishRow(row: Row, ghost snap: map<Client, seq<Msg>>, ghost msgs: seq<Msg>, sentSoFar: nat,
                      droppedSoFar: nat)
      returns (sent: nat, dropped: nat)
      requires hub.Valid() && snap.Keys == hub.clients
      requires forall c :: c in hub.clients ==> c.queue == OfferAll(c.topic, c.scope, snap[c], msgs)
      requires sentSoFar == SentCount(snap, msgs) && droppedSoFar == DroppedCount(snap, msgs)
      modifies hub.clients`queue
      ensures hub.Valid()
      ensures forall c :: c in hub.clients ==> c.queue == OfferAll(c.topic, c.scope, snap[c], msgs + RowMessages(row))
      ensures sent == SentCount(snap, msgs + RowMessages(row)) && dropped == DroppedCount(snap, msgs + RowMessages(row))
    {
      sent, dropped := Publish(GlobalMsg(row), snap, msgs, sentSoFar, droppedSoFar);
      if row.cid != "" {
        sent, dropped := Publish(CompositionMsg(row), snap, msgs + [GlobalMsg(row)], sent, dropped);
        assert msgs + [GlobalMsg(row)] + [CompositionMsg(row)] == msgs + RowMessages(row);
      }
    }

    /** poll's row loop. */
    method PublishRows(rows: seq<Row>, ghost snap: map<Client, seq<Msg>>)
      returns (maxTs: int, sent: nat, dropped: nat)
      requires hub.Valid() && snap == hub.Snapshot()
      modifies hub.clients`queue
      ensures hub.Valid()
      ensures maxTs == MaxTs(rows, lastSeenUnix)
      ensures forall c :: c in hub.clients ==> c.queue == OfferAll(c.topic, c.scope, snap[c], AllMessages(rows))
      ensures sent == SentCount(snap, AllMessages(rows)) && dropped == DroppedCount(snap, AllMessages(rows))
    {
      maxTs, sent, dropped := lastSeenUnix, 0, 0;
      for i := 0 to |rows|
        invariant hub.Valid()
        invariant maxTs == MaxTs(rows[..i], lastSeenUnix)
        invariant forall c :: c in hub.clients ==>
                    c.queue == OfferAll(c.topic, c.scope, snap[c], AllMessages(rows[..i]))
        invariant sent == SentCount(snap, AllMessages(rows[..i]))
        invariant dropped == DroppedCount(snap, AllMessages(rows[..i]))
      {
        var row := rows[i];
        ghost var msgs := AllMessages(rows[..i]);
        assert rows[..i + 1][..i] == rows[..i];
        if TsUnix(row) > maxTs {
          maxTs := TsUnix(row);
        }
        sent, dropped := PublishRow(row, snap, msgs, sent, dropped);
        assert AllMessages(rows[..i + 1]) == msgs + RowMessages(row);
      }
      assert rows[..|rows|] == rows;
    }

    /**
     poll with the answer ClickHouse gave: each client ends with its old queue plus, in publication
     order, the wanted messages that found room; the counts are of landed and lost sends; the cursor
     moves to the newest decoded second. A failed query changes nothing.
     */
    method Poll(answer: Result<seq<Row>, string>) returns (delivered: nat, dropped: nat)
      requires hub.Valid()
      modifies this`lastSeenUnix, hub.clients`queue
      ensures hub.Valid()
      ensures answer.Err? ==> delivered == dropped == 0 && lastSeenUnix == old(lastSeenUnix)
      ensures answer.Err? ==> forall c :: c in hub.clients ==> c.queue == old(c.queue)
      ensures answer.Ok? ==>
                var rows := Decoded(answer.value);
                && lastSeenUnix == MaxTs(rows, old(lastSeenUnix))
                && (forall c :: c in hub.clients ==>
                      c.queue == OfferAll(c.topic, c.scope, old(c.queue), AllMessages(rows)))
                && delivered == SentCount(old(hub.Snapshot()), AllMessages(rows))
                && dropped == DroppedCount(old(hub.Snapshot()), AllMessages(rows))
      ensures answer.Ok? ==>
                var rows := Decoded(answer.value);
                forall c :: c in hub.clients && |old(c.queue)| + |Own(rows, c.topic, c.scope)| <= 500 ==>
                  c.queue == old(c.queue) + Own(rows, c.topic, c.scope)
    {
      delivered, dropped := 0, 0;
      if answer.Err? {
        return;
      }
      var rows := DecodeRows(answer.value);
      ghost var snap := hub.Snapshot();
      var maxTs;
      maxTs, delivered, dropped := PublishRows(rows, snap);
      forall c | c in hub.clients && |snap[c]| + |Own(rows, c.topic, c.scope)| <= 500
        ensures c.queue == snap[c] + Own(rows, c.topic, c.scope)
      {
        RoomForOwn(c.topic, c.scope, snap[c], rows);
      }
      if maxTs > lastSeenUnix {
        lastSeenUnix := maxTs;
      }
    }

    /** tick: poll for connected clients, or keep the cursor live when there are none. */
    method Tick(now: int, answer: Result<seq<Row>, string>) returns (delivered: nat, dropped: nat)
      requires hub.Valid()
      modifies this`lastSeenUnix, hub.clients`queue
      ensures hub.Valid() && lastSeenUnix >= old(lastSeenUnix)
      ensures hub.clients == {} ==>
                && lastSeenUnix == Max(old(lastSeenUnix), now / 1_000_000_000 - 30)
                && delivered == dropped == 0
      ensures hub.clients != {} && answer.Err? ==> lastSeenUnix == old(lastSeenUnix) && delivered == dropped == 0
      ensures hub.clients != {} && answer.Ok? ==>
                var msgs := AllMessages(Decoded(answer.value));
                && lastSeenUnix == MaxTs(Decoded(answer.value), old(lastSeenUnix))
                && delivered == SentCount(old(hub.Snapshot()), msgs)
                && dropped == DroppedCount(old(hub.Snapshot()), msgs)
                && (forall c :: c in hub.clients ==> c.queue == OfferAll(c.topic, c.scope, old(c.queue), msgs))
      ensures hub.clients != {} && answer.Ok? ==>
                var rows := Decoded(answer.value);
                forall c :: c in hub.clients && |old(c.queue)| + |Own(rows, c.topic, c.scope)| <= 500 ==>
                  c.queue == old(c.queue) + Own(rows, c.topic, c.scope)
    {
      LiveCursorIs(now);
      delivered, dropped := 0, 0;
      var n := hub.Count();
      if n == 0 {
        if LiveCursor(now) > lastSeenUnix {
          lastSeenUnix := LiveCursor(now);
        }
        return;
      }
      delivered, dropped := Poll(answer);
    }
  }
}
