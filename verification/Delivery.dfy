/** End to end: from the rows of the table to the events a browser's reader reports. */
module Delivery {
  import opened Scoping
  import opened Messages
  import opened FanoutMachine
  import opened FanoutInvariant
  import opened FanoutRuns
  import opened Sse

  /** The messages a stream loop wrote, keepalives left out. */
  function Taken(picks: seq<Pick>): seq<(string, string)> {
    if picks == [] then []
    else if picks[0].Take? then [(picks[0].topic, picks[0].data)] + Taken(picks[1..])
    else Taken(picks[1..])
  }

  predicate Running(picks: seq<Pick>) {
    forall i :: 0 <= i < |picks| ==> !picks[i].Done? && !picks[i].ChannelClosed?
  }

  predicate ReceivedInRange(s: State, c: ClientId)
    requires c in s.clients
  {
    forall k :: 0 <= k < |s.clients[c].received| ==> s.clients[c].received[k] < |s.desk.published|
  }

  /** What the loop of client c has taken from its channel so far. */
  function ReceivedBy(s: State, c: ClientId): seq<(string, string)>
    requires c in s.clients && ReceivedInRange(s, c)
  {
    var r := s.clients[c].received;
    seq(|r|, k requires 0 <= k < |r| => (s.desk.published[r[k]].topic, s.desk.published[r[k]].row.payload))
  }

  function AsEvents(taken: seq<(string, string)>): seq<Event> {
    seq(|taken|, k requires 0 <= k < |taken| => Event(taken[k].0, taken[k].1))
  }

  lemma {:induction false} MeaningsAreTaken(picks: seq<Pick>)
    requires Running(picks)
    ensures EventsOf(picks) == AsEvents(Taken(picks))
  {
    if picks != [] {
      MeaningsAreTaken(picks[1..]);
      var taken := Taken(picks[1..]);
      if picks[0].Take? {
        var head := (picks[0].topic, picks[0].data);
        assert AsEvents([head] + taken) == [Event(head.0, head.1)] + AsEvents(taken);
      }
    }
  }

  lemma {:induction false} TakenAt(picks: seq<Pick>, i: nat)
    requires i < |picks| && picks[i].Take?
    ensures (picks[i].topic, picks[i].data) in Taken(picks)
  {
    if i > 0 {
      TakenAt(picks[1..], i - 1);
    }
  }

  lemma ReceivedAreWanted(run: Run, i: nat, c: ClientId)
    requires run.Valid() && i < |run.states| && c in run.states[i].clients
    ensures ReceivedInRange(run.states[i], c)
    ensures var s := run.states[i];
            var cl := s.clients[c];
            forall k :: 0 <= k < |cl.received| ==> ClientWants(cl, s.desk.published[cl.received[k]])
  {
    RunKeepsInv(run, i);
    var s := run.states[i];
    var cl := s.clients[c];
    assert StreamRight(cl, s.desk.published, Offered(s, c));
    forall k | 0 <= k < |cl.received|
      ensures cl.received[k] < |s.desk.published| && ClientWants(cl, s.desk.published[cl.received[k]])
    {
      assert Stream(cl)[k] == cl.received[k];
    }
  }

  /**
   Whatever keepalives come between, the bytes written to a client decode to exactly the messages it
   received: each under its subscription's own topic, from a row inside the scope fixed at connect, in
   timestamp order.
   */
  lemma BrowserSees(run: Run, i: nat, c: ClientId, picks: seq<Pick>)
    requires run.Valid() && i < |run.states| && c in run.states[i].clients
    requires ReceivedInRange(run.states[i], c)
    requires Running(picks) && Taken(picks) == ReceivedBy(run.states[i], c)
    requires NoBreak(Subscription(run.states[i].clients[c].topic))
    requires forall k :: 0 <= k < |Taken(picks)| ==> NoBreak(Taken(picks)[k].1)
    ensures var s := run.states[i];
            var cl := s.clients[c];
            var events := ParseStream(StreamText([Connected] + Emitted(picks)));
            && |events| == |cl.received|
            && (forall k :: 0 <= k < |events| ==>
                  var row := s.desk.published[cl.received[k]].row;
                  events[k] == Event(Subscription(cl.topic), row.payload) && Allows(cl.scope, row.ns))
            && (forall a, b :: 0 <= a < b < |events| ==>
                  s.desk.published[cl.received[a]].row.ts <= s.desk.published[cl.received[b]].row.ts)
  {
    var s := run.states[i];
    var cl := s.clients[c];
    ReceivedAreWanted(run, i, c);
    forall k | 0 <= k < |picks| && picks[k].Take?
      ensures Clean(Message(picks[k].topic, picks[k].data))
    {
      TakenAt(picks, k);
      var j :| 0 <= j < |cl.received| && ReceivedBy(s, c)[j] == (picks[k].topic, picks[k].data);
      assert Taken(picks)[j].1 == picks[k].data;
    }
    StreamRoundTrip(picks);
    MeaningsAreTaken(picks);
    forall a, b | 0 <= a < b < |cl.received|
      ensures s.desk.published[cl.received[a]].row.ts <= s.desk.published[cl.received[b]].row.ts
    {
      ClientStream(run, i, c, a, b);
      assert Stream(cl)[a] == cl.received[a] && Stream(cl)[b] == cl.received[b];
    }
  }
}
