/**
  Streams of whole requests and interleaved packets: what every one of them comes to.
  */
module RequestStream {
  import opened Common
  import opened RequestScanner
  import opened RtspHandler
  import opened StreamDivision
  import opened InterleavedFraming

  /** A packet, or a request with what its line and its headers say. */
  datatype Message =
    | Packet(frame: Frame)
    | Whole(line: seq<Byte>, headers: seq<Byte>, started: Request, request: Request)

  /** The automata accept the line and the headers as a request without a body; packets can be
      described. */
  predicate Proper(p: Parsers, m: Message) {
    match m
    case Packet(f) => Fits(f)
    case Whole(line, headers, started, request) =>
      && line != [] && line[0] != DOLLAR && LineDecided(p, line)
      && ParseLine(p, line, []) == GoodLine(|line|, Rtsp, true, started)
      && HeadersDecided(p, started, headers)
      && ParseHeaders(p, started, headers, [], 0) == AllHeaders(|headers|, request)
      && !request.hasContent
  }

  function TextOf(m: Message): seq<Byte> {
    match m
    case Packet(f) => Encode(f)
    case Whole(line, headers, _, _) => line + headers
  }

  function StreamOf(ms: seq<Message>): seq<Byte> {
    if ms == [] then [] else TextOf(ms[0]) + StreamOf(ms[1..])
  }

  /** The events that these messages come to after those before them. */
  function Outcome(events: seq<Event>, ms: seq<Message>): seq<Event>
    decreases |ms|
  {
    if ms == [] then events
    else
      var e := match ms[0]
               case Packet(f) => Received(f.channel, f.payload)
               case Whole(_, _, _, request) => Fate(events, request);
      Outcome(events + [e], ms[1..])
  }

  /** A connection between two messages. */
  predicate Between(c: Conn) {
    c.status == Begin && c.pending == None && c.lastCseq == Highest(c.events)
  }

  lemma LineTaken(p: Parsers, c: Conn, m: Message, rest: seq<Byte>)
    requires Automata(p) && Between(c) && m.Whole? && Proper(p, m) && c.input == m.line + rest
    ensures Decided(p, c) && !Rejects(p, c)
    ensures Step(p, c, NoMemory()) == (c.(status := RtspHeaders, pending := Some(m.started), input := rest), true)
  {
    LineStays(p, m.line, rest);
    LineByOwnBytes(p, m.line, []);
    assert c.input[0] == m.line[0] && c.input[|m.line|..] == rest;
    assert ParseLine(p, c.input, []) == GoodLine(|m.line|, Rtsp, true, m.started);
  }

  lemma HeadersTaken(p: Parsers, c: Conn, m: Message, rest: seq<Byte>)
    requires Automata(p) && m.Whole? && Proper(p, m)
    requires c.status == RtspHeaders && c.pending == Some(m.started) && c.input == m.headers + rest
    ensures Decided(p, c) && !Rejects(p, c)
    ensures Step(p, c, NoMemory()) == (c.(status := RtspContent, pending := Some(m.request), input := rest), true)
  {
    HeadersStay(p, m.started, m.headers, rest);
    assert c.input[|m.headers|..] == rest;
    assert ParseHeaders(p, m.started, c.input, [], 0) == AllHeaders(|m.headers|, m.request);
  }

  /** A whole request at the front is read, and comes to its one event. */
  lemma RequestTaken(p: Parsers, c: Conn, m: Message, rest: seq<Byte>) returns (d: Conn)
    requires Automata(p) && Between(c) && m.Whole? && Proper(p, m) && c.input == TextOf(m) + rest
    ensures Between(d) && d.input == rest && d.events == c.events + [Fate(c.events, m.request)]
    ensures Drain(p, c, NoMemory()) == Drain(p, d, NoMemory()) && (Clean(p, d) ==> Clean(p, c))
  {
    assert c.input == m.line + (m.headers + rest);
    LineTaken(p, c, m, m.headers + rest);
    CleanStep(p, c, Step(p, c, NoMemory()).0);
    var c1 := Step(p, c, NoMemory()).0;
    HeadersTaken(p, c1, m, rest);
    CleanStep(p, c1, Step(p, c1, NoMemory()).0);
    var c2 := Step(p, c1, NoMemory()).0;
    RequestAnswered(p, c2, NoMemory());
    d := Step(p, c2, NoMemory()).0;
    CleanStep(p, c2, d);
  }

  lemma MessageTaken(p: Parsers, c: Conn, ms: seq<Message>, tail: seq<Byte>) returns (d: Conn)
    requires Automata(p) && Between(c) && ms != [] && Proper(p, ms[0]) && c.input == StreamOf(ms) + tail
    ensures Between(d) && d.input == StreamOf(ms[1..]) + tail && Outcome(d.events, ms[1..]) == Outcome(c.events, ms)
    ensures Drain(p, c, NoMemory()) == Drain(p, d, NoMemory()) && (Clean(p, d) ==> Clean(p, c))
  {
    var rest := StreamOf(ms[1..]) + tail;
    Regroup(TextOf(ms[0]), StreamOf(ms[1..]), tail);
    if ms[0].Packet? {
      var f := ms[0].frame;
      TakePacket(p, c, f, rest);
      d := Step(p, c, NoMemory()).0;
      CleanStep(p, c, d);
      HighestOfMore(c.events, Received(f.channel, f.payload));
    } else {
      d := RequestTaken(p, c, ms[0], rest);
    }
  }

  lemma {:induction false} MessagesTaken(p: Parsers, c: Conn, ms: seq<Message>, tail: seq<Byte>)
    requires Automata(p) && Between(c) && c.input == StreamOf(ms) + tail && Incomplete(tail)
    requires forall i :: 0 <= i < |ms| ==> Proper(p, ms[i])
    ensures Yields(p, c, Outcome(c.events, ms), tail)
    decreases |ms|
  {
    if ms == [] {
      assert c.input == tail;
      TailYields(p, c);
    } else {
      var d := MessageTaken(p, c, ms, tail);
      MessagesTaken(p, d, ms[1..], tail);
    }
  }

  /** For any whole requests and packets, any division into reads that fit and end inside no request,
      and any memory: every packet is delivered, and every request is passed on, dropped or refused
      by its sequence number, in order; exactly the incomplete packet at the end is kept. */
  lemma {:induction false} StreamAnswered(p: Parsers, ms: seq<Message>, tail: seq<Byte>, chunks: seq<seq<Byte>>, heaps: seq<Heap>)
    requires Automata(p) && |heaps| == |chunks| && (forall i :: 0 <= i < |ms| ==> Proper(p, ms[i])) && Incomplete(tail)
    requires Flatten(chunks) == StreamOf(ms) + tail && UncutAll(p, chunks) && Fitting(p, chunks)
    ensures var link := FeedAll(p, NewConn, chunks, heaps);
            link.Open? && link.conn.events == Outcome([], ms) && link.conn.input == tail
  {
    MessagesTaken(p, Extended(NewConn, Flatten(chunks)), ms, tail);
    AnyDivision(p, chunks, heaps);
  }

  /** A read that ends between two messages or inside a packet cuts no request. */
  lemma {:induction false} EndsBetween(p: Parsers, ms: seq<Message>, tail: seq<Byte>)
    requires Automata(p) && (forall i :: 0 <= i < |ms| ==> Proper(p, ms[i])) && Incomplete(tail)
    ensures Uncut(p, StreamOf(ms) + tail)
  {
    MessagesTaken(p, Extended(NewConn, StreamOf(ms) + tail), ms, tail);
  }

  /** The requests are whole and each has a sequence number above those before it and above zero. */
  predicate Rising(ms: seq<Message>) {
    && (forall i :: 0 <= i < |ms| ==> ms[i].Whole? && ms[i].request.cseq.Some? && ms[i].request.cseq.value > 0)
    && (forall i, j :: 0 <= i < j < |ms| ==> ms[i].request.cseq.value < ms[j].request.cseq.value)
  }

  function Dispatches(ms: seq<Message>): (es: seq<Event>)
    requires Rising(ms)
    ensures |es| == |ms| && forall i :: 0 <= i < |ms| ==> es[i] == Dispatched(ms[i].request, ms[i].request.cseq.value)
  {
    seq(|ms|, i requires 0 <= i < |ms| => Dispatched(ms[i].request, ms[i].request.cseq.value))
  }

  lemma FirstDispatch(events: seq<Event>, ms: seq<Message>)
    requires Rising(ms) && ms != []
    ensures Rising(ms[1..]) && (ms[1..] != [] ==> ms[0].request.cseq.value < ms[1..][0].request.cseq.value)
    ensures events + Dispatches(ms) ==
            events + [Dispatched(ms[0].request, ms[0].request.cseq.value)] + Dispatches(ms[1..])
  {
    assert Dispatches(ms) == [Dispatched(ms[0].request, ms[0].request.cseq.value)] + Dispatches(ms[1..]);
  }

  lemma {:induction false} RisingOutcome(events: seq<Event>, ms: seq<Message>)
    requires Rising(ms) && (ms != [] ==> Highest(events) < ms[0].request.cseq.value)
    ensures Outcome(events, ms) == events + Dispatches(ms)
    decreases |ms|
  {
    if ms == [] {
      assert Dispatches(ms) == [];
    } else {
      var first := Dispatched(ms[0].request, ms[0].request.cseq.value);
      HighestOfMore(events, first);
      FirstDispatch(events, ms);
      FirstOutcome(events, ms);
      RisingOutcome(events + [first], ms[1..]);
    }
  }

  lemma FirstOutcome(events: seq<Event>, ms: seq<Message>)
    requires ms != [] && ms[0].Whole? && ms[0].request.cseq.Some? && Highest(events) < ms[0].request.cseq.value
    ensures Outcome(events, ms) == Outcome(events + [Dispatched(ms[0].request, ms[0].request.cseq.value)], ms[1..])
  {
  }

  /** Requests with rising sequence numbers are all passed on, in order, and nothing else happens. */
  lemma {:induction false} RisingAllDispatched(p: Parsers, ms: seq<Message>, chunks: seq<seq<Byte>>, heaps: seq<Heap>)
    requires Automata(p) && |heaps| == |chunks| && (forall i :: 0 <= i < |ms| ==> Proper(p, ms[i])) && Rising(ms)
    requires Flatten(chunks) == StreamOf(ms) && UncutAll(p, chunks) && Fitting(p, chunks)
    ensures FeedAll(p, NewConn, chunks, heaps).Open?
    ensures FeedAll(p, NewConn, chunks, heaps).conn.events == Dispatches(ms)
  {
    assert StreamOf(ms) + [] == StreamOf(ms);
    StreamAnswered(p, ms, [], chunks, heaps);
    RisingOutcome([], ms);
    assert [] + Dispatches(ms) == Dispatches(ms);
  }
}
