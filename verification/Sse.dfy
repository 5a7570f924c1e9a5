/**
 The text of the stream, against the reader defined by the WHATWG HTML Living Standard: section 9.2.5
 (parsing an event stream) and section 9.2.6 (interpreting an event stream). The id and retry fields are
 recognised and ignored: the proxy sends neither, and they change no event's type or data.
 */
module Sse {
  import opened Prelude

  // ---------------------------------------------------------------------------
  // Writing
  // ---------------------------------------------------------------------------

  datatype Emission = Connected | Keepalive | Message(topic: string, data: string)

  /** One line and what follows it. */
  function Line(line: string, rest: string): string {
    line + "\n" + rest
  }

  function EventLine(topic: string): string {
    "event: " + topic
  }

  function DataLine(data: string): string {
    "data: " + data
  }

  /** The text of one frame, in front of the rest of the stream. */
  function Frame(e: Emission, rest: string): string {
    match e
    case Connected => Line(": connected", Line("", rest))
    case Keepalive => Line(": keepalive", Line("", rest))
    case Message(topic, data) => Line(EventLine(topic), Line(DataLine(data), Line("", rest)))
  }

  function Text(e: Emission): string {
    Frame(e, "")
  }

  function StreamText(es: seq<Emission>): string {
    if es == [] then "" else Text(es[0]) + StreamText(es[1..])
  }

  /** What the select of the stream loop picks: the request is done, the ticker fired, or the channel. */
  datatype Pick = Done | Tick | Take(topic: string, data: string) | ChannelClosed

  function Emitted(picks: seq<Pick>): seq<Emission> {
    if picks == [] || picks[0].Done? || picks[0].ChannelClosed? then []
    else [if picks[0].Tick? then Keepalive else Message(picks[0].topic, picks[0].data)] + Emitted(picks[1..])
  }

  lemma LineAppend(line: string, rest: string, more: string)
    ensures Line(line, rest) + more == Line(line, rest + more)
  {
  }

  lemma FrameAppend(e: Emission, rest: string)
    ensures Text(e) + rest == Frame(e, rest)
  {
    assert "" + rest == rest;
    LineAppend("", "", rest);
    match e
    case Connected => LineAppend(": connected", Line("", ""), rest);
    case Keepalive => LineAppend(": keepalive", Line("", ""), rest);
    case Message(topic, data) =>
      LineAppend(DataLine(data), Line("", ""), rest);
      LineAppend(EventLine(topic), Line(DataLine(data), Line("", "")), rest);
  }

  lemma StreamUnfold(e: Emission, es: seq<Emission>)
    ensures StreamText([e] + es) == Text(e) + StreamText(es)
  {
    assert ([e] + es)[1..] == es;
  }

  lemma EmittedNext(picks: seq<Pick>, i: nat, e: Emission)
    requires i < |picks| && !picks[i].Done? && !picks[i].ChannelClosed?
    requires e == if picks[i].Tick? then Keepalive else Message(picks[i].topic, picks[i].data)
    ensures StreamText(Emitted(picks[i..])) == Text(e) + StreamText(Emitted(picks[i + 1..]))
  {
    assert picks[i..][1..] == picks[i + 1..];
    StreamUnfold(e, Emitted(picks[i + 1..]));
  }

  /** The stream loop of handleSSE. */
  method Serve(picks: seq<Pick>) returns (out: string)
    ensures out == StreamText([Connected] + Emitted(picks))
  {
    out := Text(Connected);
    StreamUnfold(Connected, Emitted(picks));
    assert picks[0..] == picks;
    var i := 0;
    while i < |picks|
      invariant i <= |picks|
      invariant StreamText([Connected] + Emitted(picks)) == out + StreamText(Emitted(picks[i..]))
    {
      if picks[i].Done? || picks[i].ChannelClosed? {
        return;
      }
      var e := if picks[i].Tick? then Keepalive else Message(picks[i].topic, picks[i].data);
      EmittedNext(picks, i, e);
      Regroup(out, Text(e), StreamText(Emitted(picks[i + 1..])));
      out := out + Text(e);
      i := i + 1;
    }
  }

  // ---------------------------------------------------------------------------
  // Reading
  // ---------------------------------------------------------------------------

  datatype Event = Event(kind: string, data: string)

  /** The event type buffer and the data buffer. */
  datatype Buffers = Buffers(kind: string, data: string)

  const EMPTY := Buffers("", "")

  predicate IsBreak(c: char) {
    c == '\n' || c == '\r'
  }

  predicate NoBreak(s: string) {
    forall i :: 0 <= i < |s| ==> !IsBreak(s[i])
  }

  /** The length of the first line, or of all the text if no line ends in it. */
  function LineLength(s: string): (n: nat)
    ensures n <= |s| && NoBreak(s[..n]) && (n < |s| ==> IsBreak(s[n]))
  {
    if s == "" || IsBreak(s[0]) then 0
    else
      var n := LineLength(s[1..]);
      assert s[..n + 1] == [s[0]] + s[1..][..n];
      n + 1
  }

  /** Where the next line starts: CR LF is one line end, CR and LF alone are one each. */
  function NextLine(s: string, n: nat): (m: nat)
    requires n < |s| && IsBreak(s[n])
    ensures n < m <= n + 2 && m <= |s|
  {
    if s[n] == '\r' && n + 1 < |s| && s[n + 1] == '\n' then n + 2 else n + 1
  }

  function ColonAt(line: string): (n: nat)
    ensures n <= |line|
  {
    if line == "" || line[0] == ':' then 0 else 1 + ColonAt(line[1..])
  }

  function Value(line: string): string {
    var n := ColonAt(line);
    if n == |line| then ""
    else
      var v := line[n + 1..];
      if v != "" && v[0] == ' ' then v[1..] else v
  }

  /** Processing one non-empty line; a line starting with a colon has an empty field name and is ignored. */
  function ProcessLine(line: string, b: Buffers): Buffers {
    var field := line[..ColonAt(line)];
    if field == "event" then b.(kind := Value(line))
    else if field == "data" then b.(data := b.data + Value(line) + "\n")
    else b
  }

  /** Dispatching at an empty line: nothing without data; an empty type means "message". */
  function Dispatch(b: Buffers): seq<Event> {
    if b.data == "" then [] else [Event(if b.kind == "" then "message" else b.kind, b.data[..|b.data| - 1])]
  }

  /** The events of a text whose pending buffers are b; an unfinished event at the end is discarded. */
  function Parse(s: string, b: Buffers): seq<Event>
    decreases |s|
  {
    var n := LineLength(s);
    if n == |s| then []
    else
      var rest := s[NextLine(s, n)..];
      if n == 0 then Dispatch(b) + Parse(rest, EMPTY) else Parse(rest, ProcessLine(s[..n], b))
  }

  const BOM := '\U{FEFF}'

  function ParseStream(s: string): seq<Event> {
    Parse(if s != "" && s[0] == BOM then s[1..] else s, EMPTY)
  }

  // ---------------------------------------------------------------------------
  // Round trip
  // ---------------------------------------------------------------------------

  lemma {:induction false} LineLengthIs(line: string, rest: string)
    requires NoBreak(line)
    ensures LineLength(Line(line, rest)) == |line|
  {
    if line != "" {
      LineLengthIs(line[1..], rest);
      assert Line(line, rest)[1..] == Line(line[1..], rest);
    }
  }

  /** One written line is read as one line. */
  lemma ParseLine(line: string, rest: string, b: Buffers)
    requires NoBreak(line)
    ensures Parse(Line(line, rest), b) ==
            if line == "" then Dispatch(b) + Parse(rest, EMPTY) else Parse(rest, ProcessLine(line, b))
  {
    var s := Line(line, rest);
    LineLengthIs(line, rest);
    assert s[|line|] == '\n';
    assert s[..|line|] == line && s[|line| + 1..] == rest;
  }

  /** The three line ends of the standard are read alike. */
  lemma AnyLineEnd(line: string, rest: string, b: Buffers)
    requires '\n' !in line && '\r' !in line
    ensures Parse(line + "\r\n" + rest, b) == Parse(Line(line, rest), b)
    ensures rest == "" || rest[0] != '\n' ==> Parse(line + "\r" + rest, b) == Parse(Line(line, rest), b)
  {
    ParseLine(line, rest, b);
    OneEnd(line, "\r\n", rest, b);
    if rest == "" || rest[0] != '\n' {
      OneEnd(line, "\r", rest, b);
    }
  }

  lemma OneEnd(line: string, end: string, rest: string, b: Buffers)
    requires NoBreak(line)
    requires end == "\r\n" || (end == "\r" && (rest == "" || rest[0] != '\n'))
    ensures Parse(line + end + rest, b) ==
            if line == "" then Dispatch(b) + Parse(rest, EMPTY) else Parse(rest, ProcessLine(line, b))
  {
    var s := line + end + rest;
    FirstLineOf(line, s);
    assert s[|line|] == '\r';
    assert NextLine(s, |line|) == |line| + |end|;
    assert s[..|line|] == line && s[|line| + |end|..] == rest;
  }

  lemma ProcessEvent(topic: string, b: Buffers)
    ensures ProcessLine(EventLine(topic), b) == b.(kind := topic)
  {
    ReadField("event", topic);
    assert EventLine(topic) == Field("event", topic);
  }

  lemma ProcessData(data: string, b: Buffers)
    ensures ProcessLine(DataLine(data), b) == b.(data := b.data + data + "\n")
  {
    ReadField("data", data);
    assert DataLine(data) == Field("data", data);
  }

  function Field(field: string, text: string): string {
    field + ":" + (" " + text)
  }

  lemma ReadField(field: string, text: string)
    requires ':' !in field
    ensures var line := Field(field, text); line[..ColonAt(line)] == field && Value(line) == text
  {
    var line := Field(field, text);
    ColonAfter(field, " " + text);
    assert line[..|field|] == field;
    assert line[|field| + 1..] == " " + text;
    assert (" " + text)[1..] == text;
  }

  lemma {:induction false} ColonAfter(field: string, text: string)
    requires ':' !in field
    ensures ColonAt(field + ":" + text) == |field|
  {
    if field != "" {
      ColonAfter(field[1..], text);
      assert (field + ":" + text)[1..] == field[1..] + ":" + text;
    }
  }

  predicate Clean(e: Emission) {
    e.Message? ==> e.topic != "" && NoBreak(e.topic) && NoBreak(e.data)
  }

  function Meaning(e: Emission): seq<Event> {
    if e.Message? then [Event(e.topic, e.data)] else []
  }

  lemma FrameParses(e: Emission, rest: string)
    requires Clean(e)
    ensures Parse(Frame(e, rest), EMPTY) == Meaning(e) + Parse(rest, EMPTY)
  {
    match e
    case Message(topic, data) => MessageParses(topic, data, rest);
    case Connected => CommentParses(": connected", rest);
    case Keepalive => CommentParses(": keepalive", rest);
  }

  /** A frame of lines ends with an empty one, which dispatches what they left in the buffers. */
  lemma TwoLines(first: string, second: string, rest: string)
    requires first != "" && second != "" && NoBreak(first) && NoBreak(second)
    ensures Parse(Line(first, Line(second, Line("", rest))), EMPTY) ==
            Dispatch(ProcessLine(second, ProcessLine(first, EMPTY))) + Parse(rest, EMPTY)
  {
    ParseLine(first, Line(second, Line("", rest)), EMPTY);
    ParseLine(second, Line("", rest), ProcessLine(first, EMPTY));
    ParseLine("", rest, ProcessLine(second, ProcessLine(first, EMPTY)));
  }

  lemma OneLine(line: string, rest: string)
    requires line != "" && NoBreak(line)
    ensures Parse(Line(line, Line("", rest)), EMPTY) == Dispatch(ProcessLine(line, EMPTY)) + Parse(rest, EMPTY)
  {
    ParseLine(line, Line("", rest), EMPTY);
    ParseLine("", rest, ProcessLine(line, EMPTY));
  }

  lemma MessageParses(topic: string, data: string, rest: string)
    requires topic != "" && NoBreak(topic) && NoBreak(data)
    ensures Parse(Frame(Message(topic, data), rest), EMPTY) == [Event(topic, data)] + Parse(rest, EMPTY)
  {
    TwoLines(EventLine(topic), DataLine(data), rest);
    MessageDispatches(topic, data);
  }

  lemma MessageDispatches(topic: string, data: string)
    requires topic != ""
    ensures Dispatch(ProcessLine(DataLine(data), ProcessLine(EventLine(topic), EMPTY))) == [Event(topic, data)]
  {
    ProcessEvent(topic, EMPTY);
    ProcessData(data, Buffers(topic, ""));
    assert "" + data + "\n" == data + "\n";
    assert (data + "\n")[..|data|] == data;
  }

  lemma CommentParses(comment: string, rest: string)
    requires comment == ": connected" || comment == ": keepalive"
    ensures Parse(Line(comment, Line("", rest)), EMPTY) == Parse(rest, EMPTY)
  {
    OneLine(comment, rest);
    assert comment[..ColonAt(comment)] == "";
    assert Dispatch(EMPTY) + Parse(rest, EMPTY) == Parse(rest, EMPTY);
  }

  function Meanings(es: seq<Emission>): seq<Event> {
    if es == [] then [] else Meaning(es[0]) + Meanings(es[1..])
  }

  lemma {:induction false} FramesParse(es: seq<Emission>)
    requires forall i :: 0 <= i < |es| ==> Clean(es[i])
    ensures Parse(StreamText(es), EMPTY) == Meanings(es)
  {
    if es != [] {
      FramesParse(es[1..]);
      FrameAppend(es[0], StreamText(es[1..]));
      FrameParses(es[0], StreamText(es[1..]));
    }
  }

  predicate Ends(pick: Pick) {
    pick.Done? || pick.ChannelClosed?
  }

  /** The events that the picks before the first that ends the loop stand for. */
  function EventsOf(picks: seq<Pick>): seq<Event> {
    if picks == [] || Ends(picks[0]) then []
    else (if picks[0].Take? then [Event(picks[0].topic, picks[0].data)] else []) + EventsOf(picks[1..])
  }

  lemma {:induction false} EmittedMeans(picks: seq<Pick>)
    ensures Meanings(Emitted(picks)) == EventsOf(picks)
  {
    if picks != [] && !Ends(picks[0]) {
      EmittedMeans(picks[1..]);
      assert Emitted(picks)[1..] == Emitted(picks[1..]);
    }
  }

  /** For every interleaving of keepalives and messages, the reader gets exactly the messages, in order. */
  lemma StreamRoundTrip(picks: seq<Pick>)
    requires forall i :: 0 <= i < |picks| && picks[i].Take? ==> Clean(Message(picks[i].topic, picks[i].data))
    ensures ParseStream(StreamText([Connected] + Emitted(picks))) == EventsOf(picks)
  {
    EmittedClean(picks);
    FramesRoundTrip(Emitted(picks));
    EmittedMeans(picks);
  }

  lemma FramesRoundTrip(es: seq<Emission>)
    requires forall i :: 0 <= i < |es| ==> Clean(es[i])
    ensures ParseStream(StreamText([Connected] + es)) == Meanings(es)
  {
    FramesParse([Connected] + es);
    MeaningsAfterConnect(es);
    StartsWithComment(es);
  }

  lemma MeaningsAfterConnect(es: seq<Emission>)
    ensures Meanings([Connected] + es) == Meanings(es)
  {
    assert ([Connected] + es)[1..] == es;
  }

  lemma StartsWithComment(es: seq<Emission>)
    ensures var text := StreamText([Connected] + es); text != "" && text[0] == ':'
  {
    StreamUnfold(Connected, es);
    FrameAppend(Connected, StreamText(es));
  }

  lemma {:induction false} EmittedClean(picks: seq<Pick>)
    requires forall i :: 0 <= i < |picks| && picks[i].Take? ==> Clean(Message(picks[i].topic, picks[i].data))
    ensures forall i :: 0 <= i < |Emitted(picks)| ==> Clean(Emitted(picks)[i])
  {
    if picks != [] && !picks[0].Done? && !picks[0].ChannelClosed? {
      EmittedClean(picks[1..]);
    }
  }

  // ---------------------------------------------------------------------------
  // The comments that hold the connection open
  // ---------------------------------------------------------------------------

  /** The complete lines of a text that are comments. */
  function CommentsIn(s: string): seq<string>
    decreases |s|
  {
    var n := LineLength(s);
    if n == |s| then []
    else (if n > 0 && s[0] == ':' then [s[..n]] else []) + CommentsIn(s[NextLine(s, n)..])
  }

  function CommentsOf(picks: seq<Pick>): seq<string> {
    if picks == [] || Ends(picks[0]) then []
    else (if picks[0].Tick? then [": keepalive"] else []) + CommentsOf(picks[1..])
  }

  function CommentOf(e: Emission): seq<string> {
    match e
    case Connected => [": connected"]
    case Keepalive => [": keepalive"]
    case Message(_, _) => []
  }

  predicate IsComment(line: string) {
    line != "" && line[0] == ':'
  }

  lemma OneMoreLine(line: string, rest: string)
    requires NoBreak(line)
    ensures CommentsIn(Line(line, rest)) ==
            if IsComment(line) then [line] + CommentsIn(rest) else CommentsIn(rest)
  {
    var s := Line(line, rest);
    LineLengthIs(line, rest);
    assert s[|line|] == '\n';
    assert s[..|line|] == line && s[|line| + 1..] == rest;
    assert [] + CommentsIn(rest) == CommentsIn(rest);
  }

  lemma CommentFrame(comment: string, blank: string, rest: string)
    requires NoBreak(comment) && IsComment(comment) && blank == ""
    ensures CommentsIn(Line(comment, Line(blank, rest))) == [comment] + CommentsIn(rest)
  {
    OneMoreLine(comment, Line(blank, rest));
    OneMoreLine(blank, rest);
  }

  lemma PlainFrame(first: string, second: string, blank: string, rest: string)
    requires NoBreak(first) && NoBreak(second) && !IsComment(first) && !IsComment(second) && blank == ""
    ensures CommentsIn(Line(first, Line(second, Line(blank, rest)))) == CommentsIn(rest)
  {
    OneMoreLine(first, Line(second, Line(blank, rest)));
    OneMoreLine(second, Line(blank, rest));
    OneMoreLine(blank, rest);
  }

  lemma FrameComments(e: Emission, rest: string)
    requires Clean(e)
    ensures CommentsIn(Frame(e, rest)) == CommentOf(e) + CommentsIn(rest)
  {
    match e
    case Connected => CommentFrame(": connected", "", rest);
    case Keepalive => CommentFrame(": keepalive", "", rest);
    case Message(topic, data) =>
      assert NoBreak(EventLine(topic)) && NoBreak(DataLine(data));
      PlainFrame(EventLine(topic), DataLine(data), "", rest);
  }

  lemma {:induction false} EmittedComments(picks: seq<Pick>)
    requires forall i :: 0 <= i < |picks| && picks[i].Take? ==> Clean(Message(picks[i].topic, picks[i].data))
    ensures CommentsIn(StreamText(Emitted(picks))) == CommentsOf(picks)
  {
    if picks != [] && !Ends(picks[0]) {
      EmittedComments(picks[1..]);
      var es := Emitted(picks);
      assert es[1..] == Emitted(picks[1..]);
      FrameAppend(es[0], StreamText(es[1..]));
      FrameComments(es[0], StreamText(es[1..]));
    }
  }

  /** The stream opens with the connect comment, and carries one keepalive comment for each tick of the loop. */
  lemma CommentsArrive(picks: seq<Pick>)
    requires forall i :: 0 <= i < |picks| && picks[i].Take? ==> Clean(Message(picks[i].topic, picks[i].data))
    ensures CommentsIn(StreamText([Connected] + Emitted(picks))) == [": connected"] + CommentsOf(picks)
  {
    EmittedComments(picks);
    StreamUnfold(Connected, Emitted(picks));
    FrameAppend(Connected, StreamText(Emitted(picks)));
    FrameComments(Connected, StreamText(Emitted(picks)));
  }

  /** Without a topic the reader reports the standard's default type. */
  lemma NoTopicIsMessage(data: string)
    requires NoBreak(data)
    ensures Parse(Text(Message("", data)), EMPTY) == [Event("message", data)]
  {
    TwoLines(EventLine(""), DataLine(data), "");
    DefaultType(data);
    assert Parse("", EMPTY) == [];
  }

  lemma DefaultType(data: string)
    ensures Dispatch(ProcessLine(DataLine(data), ProcessLine(EventLine(""), EMPTY))) == [Event("message", data)]
  {
    ProcessEvent("", EMPTY);
    ProcessData(data, EMPTY);
    assert "" + data + "\n" == data + "\n" && (data + "\n")[..|data|] == data;
  }

  // ---------------------------------------------------------------------------
  // Exactly which messages survive
  // ---------------------------------------------------------------------------

  /** Every type the reader reports is non-empty and on one line. */
  lemma {:induction false} KindsAreLines(s: string, b: Buffers)
    requires NoBreak(b.kind)
    ensures forall e :: e in Parse(s, b) ==> e.kind != "" && NoBreak(e.kind)
    decreases |s|
  {
    var n := LineLength(s);
    if n < |s| {
      var rest := s[NextLine(s, n)..];
      if n == 0 {
        KindsAreLines(rest, EMPTY);
      } else {
        KindsAreLines(rest, ProcessLine(s[..n], b));
      }
    }
  }

  function Room(s: string): nat {
    if |s| >= 5 then |s| - 5 else 0
  }

  /** The reader adds to the data buffer less than it reads: at least four characters of every data line are lost. */
  lemma {:induction false} DataShrinks(s: string, b: Buffers)
    ensures forall e :: e in Parse(s, b) ==> |e.data| + 1 <= |b.data| + Room(s)
    decreases |s|
  {
    var n := LineLength(s);
    if n < |s| {
      var rest := s[NextLine(s, n)..];
      if n == 0 {
        DataShrinks(rest, EMPTY);
      } else {
        DataShrinks(rest, ProcessLine(s[..n], b));
      }
    }
  }

  /**
   A message written to the stream is read back as itself exactly when its topic is not empty and neither
   its topic nor its data holds a line break.
   */
  lemma FrameRoundTripIff(topic: string, data: string)
    ensures Parse(Text(Message(topic, data)), EMPTY) == [Event(topic, data)]
            <==> topic != "" && NoBreak(topic) && NoBreak(data)
  {
    var e := Message(topic, data);
    var events := Parse(Text(e), EMPTY);
    if Clean(e) {
      FrameParses(e, "");
      assert Parse("", EMPTY) == [];
    } else if events == [Event(topic, data)] {
      KindsAreLines(Text(e), EMPTY);
      assert events[0] in events;
      BrokenData(topic, data);
    }
  }

  /** Data with a line break in it comes out shorter, if at all. */
  lemma BrokenData(topic: string, data: string)
    requires topic != "" && NoBreak(topic) && !NoBreak(data)
    ensures forall x :: x in Parse(Text(Message(topic, data)), EMPTY) ==> |x.data| < |data|
  {
    var tail := Line(DataLine(data), Line("", ""));
    ParseLine(EventLine(topic), tail, EMPTY);
    ProcessEvent(topic, EMPTY);
    BrokenTail(data, Buffers(topic, ""));
  }

  lemma BrokenTail(data: string, b: Buffers)
    requires !NoBreak(data) && b.data == ""
    ensures forall x :: x in Parse(Line(DataLine(data), Line("", "")), b) ==> |x.data| < |data|
  {
    var tail := Line(DataLine(data), Line("", ""));
    var i := LineLength(data);
    assert data[..|data|] == data;
    var line := DataLine(data[..i]);
    assert tail[..|line|] == line && tail[|line|] == data[i];
    FirstLineOf(line, tail);
    ProcessData(data[..i], b);
    DataShrinks(tail[NextLine(tail, |line|)..], ProcessLine(line, b));
  }

  lemma {:induction false} FirstLineOf(line: string, s: string)
    requires NoBreak(line) && |line| < |s| && s[..|line|] == line && IsBreak(s[|line|])
    ensures LineLength(s) == |line|
  {
    if line != "" {
      assert s[0] == line[0];
      assert s[1..][..|line| - 1] == line[1..];
      FirstLineOf(line[1..], s[1..]);
    }
  }
}
