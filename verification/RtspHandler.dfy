/**
  The incremental message handler of a client connection (rtsp_state_machine.c) and the read callback
  that feeds it (rtsp_lowlevel.c).  The parsers of request lines and headers may read on behind the
  end of the input; what lies there is supplied from outside.
  */
module RtspHandler {
  import opened Common
  import opened RequestScanner

  const DOLLAR: Byte := 36

  // ---------------------------------------------------------------- the connection

  datatype Status = Begin | Interleaved | RtspHeaders | RtspContent | HttpHeaders | Aborted

  /** `Rejected` answers what could not be read as a request; `Refused` answers a request. */
  datatype Event =
    | Received(channel: Byte, payload: seq<Byte>)
    | Dispatched(request: Request, cseq: nat)
    | Rejected(code: nat)
    | Refused(code: nat)
    | Dropped(request: Request)

  datatype Conn = Conn(
    status: Status,
    input: seq<Byte>,
    pending: Option<Request>,
    lastCseq: nat,
    events: seq<Event>)

  /** What a parser finds where the input ends, and what its caller's size holds before it is set. */
  datatype Memory = Memory(behind: seq<Byte>, unset: nat)

  /** The memory during one run of the handler; it does not change while the input does not. */
  type Heap = seq<Byte> -> Memory

  /** A request is pending exactly while its headers or its content are read, and an interleaved
      packet starts with a dollar sign. */
  predicate WellFormed(c: Conn) {
    && (c.status == RtspHeaders || c.status == RtspContent || c.status == HttpHeaders ==> c.pending.Some?)
    && (c.status == Begin || c.status == Interleaved ==> c.pending.None?)
    && (c.status == Interleaved ==> c.input != [] && c.input[0] == DOLLAR)
  }

  /** g_byte_array_remove_range from the front: a range that is not there is not removed. */
  function Removed(input: seq<Byte>, n: nat): seq<Byte> {
    if n <= |input| then input[n..] else input
  }

  /** RTSP_handle_interleaved */
  function HandleInterleaved(c: Conn): (Conn, bool) {
    if |c.input| < 4 then (c, false)
    else
      var length: nat := c.input[2] as int * 256 + c.input[3] as int;
      if |c.input| < length + 4 then (c, false)
      else
        (c.(status := Begin,
            input := c.input[length + 4..],
            events := c.events + [Received(c.input[1], c.input[4..length + 4])]),
         true)
  }

  /** RTSP_handle_new */
  function HandleNew(p: Parsers, c: Conn, m: Memory): (Conn, bool) {
    if c.input == [] then (c, false)
    else if c.input[0] == DOLLAR then HandleInterleaved(c.(status := Interleaved))
    else
      match ParseLine(p, c.input, m.behind)
      case NeedLine => (c, false)
      case BadLine => (c.(events := c.events + [Rejected(400)]), false)
      case StrayLine => (c.(status := Aborted), false)
      case GoodLine(size, protocol, known, request) =>
        if protocol.UnknownProtocol? then (c.(events := c.events + [Rejected(505)]), false)
        else
          var d := c.(status := if protocol.Rtsp? then RtspHeaders else HttpHeaders);
          if !known then (d.(events := d.events + [Rejected(501)]), false)
          else (d.(pending := Some(request), input := Removed(d.input, size)), true)
  }

  /** RTSP_handle_headers */
  function HandleHeaders(p: Parsers, c: Conn, m: Memory): (Conn, bool)
    requires c.pending.Some?
  {
    match ParseHeaders(p, c.pending.value, c.input, m.behind, m.unset)
    case BadHeaders(request) => (c.(pending := Some(request), events := c.events + [Rejected(400)]), false)
    case StrayHeaders => (c.(status := Aborted), false)
    case MoreHeaders(size, request) => (c.(pending := Some(request), input := Removed(c.input, size)), false)
    case AllHeaders(size, request) =>
      (c.(status := RtspContent, pending := Some(request), input := Removed(c.input, size)), true)
  }

  /** rtsp_handle_request: a request is passed on only with a sequence number above the last. */
  function HandleRequest(c: Conn, r: Request): Conn {
    var d := c.(pending := None);
    if r.cseq.None? then d.(events := d.events + [Refused(400)])
    else if r.cseq.value <= c.lastCseq then d.(events := d.events + [Dropped(r)])
    else d.(lastCseq := r.cseq.value, events := d.events + [Dispatched(r, r.cseq.value)])
  }

  /** RTSP_handle_content: a request with a body stops the program. */
  function HandleContent(c: Conn): (Conn, bool)
    requires c.pending.Some?
  {
    if c.pending.value.hasContent then (c.(status := Aborted), false)
    else (HandleRequest(c, c.pending.value).(status := Begin), true)
  }

  function Step(p: Parsers, c: Conn, heap: Heap): (Conn, bool)
    requires WellFormed(c)
  {
    match c.status
    case Begin => HandleNew(p, c, heap(c.input))
    case Interleaved => HandleInterleaved(c)
    case RtspHeaders => HandleHeaders(p, c, heap(c.input))
    case RtspContent => HandleContent(c)
    case HttpHeaders => (c, false)
    case Aborted => (c, false)
  }

  /** How many more steps there can be without the input getting shorter: a line or block that ends
      behind the input is not removed, but the same bytes are not taken for both. */
  function Awaiting(p: Parsers, c: Conn, heap: Heap): nat {
    if ParseLine(p, c.input, heap(c.input).behind).GoodLine? then
      (if c.status == RtspContent then 2 else if c.status == Begin then 1 else 0)
    else
      (if c.status == RtspHeaders then 2 else if c.status == RtspContent then 1 else 0)
  }

  lemma StepProgress(p: Parsers, c: Conn, heap: Heap)
    requires Automata(p) && WellFormed(c) && Step(p, c, heap).1
    ensures WellFormed(Step(p, c, heap).0)
    ensures var d := Step(p, c, heap).0;
            |d.input| < |c.input| || (d.input == c.input && Awaiting(p, d, heap) < Awaiting(p, c, heap))
  {
    var m := heap(c.input);
    if c.pending.Some? {
      SizesPositive(p, c.pending.value, c.input, m.behind, m.unset);
      if ParseLine(p, c.input, m.behind).GoodLine? {
        NotBoth(p, c.pending.value, c.input, m.behind, m.unset);
      }
    } else {
      SizesPositive(p, Request([], None, false), c.input, m.behind, m.unset);
    }
  }

  /** RTSP_handler: steps until one of them needs more input or stops. */
  function Drain(p: Parsers, c: Conn, heap: Heap): Conn
    requires Automata(p) && WellFormed(c)
    decreases |c.input|, Awaiting(p, c, heap)
  {
    var (d, more) := Step(p, c, heap);
    if more then
      StepProgress(p, c, heap);
      Drain(p, d, heap)
    else d
  }

  // ---------------------------------------------------------------- the code

  class Client {
    const parsers: Parsers
    var status: Status
    var input: seq<Byte>
    var pending: Option<Request>
    var lastCseq: nat
    /** What the connection has delivered, passed on and answered so far. */
    var events: seq<Event>

    function Snap(): Conn
      reads this
    {
      Conn(status, input, pending, lastCseq, events)
    }

    ghost predicate Valid()
      reads this
    {
      Automata(parsers) && WellFormed(Snap())
    }

    constructor (parsers: Parsers)
      requires Automata(parsers)
      ensures Valid() && this.parsers == parsers && Snap() == NewConn
    {
      this.parsers := parsers;
      status, input, pending, lastCseq, events := Begin, [], None, 0, [];
    }

    method InterleavedStep() returns (more: bool)
      requires WellFormed(Snap()) && status == Interleaved
      modifies this
      ensures (Snap(), more) == HandleInterleaved(old(Snap()))
    {
      if |input| < 4 {
        return false;
      }
      var length: nat := input[2] as int * 256 + input[3] as int;
      assert input[0] == DOLLAR;
      if |input| < length + 4 {
        return false;
      }
      events := events + [Received(input[1], input[4..length + 4])];
      input := input[length + 4..];
      status := Begin;
      return true;
    }

    method NewStep(m: Memory) returns (more: bool)
      requires Valid() && status == Begin
      modifies this
      ensures (Snap(), more) == HandleNew(parsers, old(Snap()), m)
    {
      if |input| < 1 {
        return false;
      }
      if input[0] == DOLLAR {
        status := Interleaved;
        more := InterleavedStep();
        return more;
      }
      var line := RunLine(parsers, input, m.behind);
      match line {
        case BadLine =>
          events := events + [Rejected(400)];
          return false;
        case NeedLine =>
          return false;
        case StrayLine =>
          status := Aborted;
          return false;
        case GoodLine(size, protocol, known, request) =>
          if protocol.UnknownProtocol? {
            events := events + [Rejected(505)];
            return false;
          }
          status := if protocol.Rtsp? then RtspHeaders else HttpHeaders;
          if !known {
            events := events + [Rejected(501)];
            return false;
          }
          pending := Some(request);
          input := Removed(input, size);
          return true;
      }
    }

    method HeadersStep(m: Memory) returns (more: bool)
      requires Valid() && status == RtspHeaders
      modifies this
      ensures (Snap(), more) == HandleHeaders(parsers, old(Snap()), m)
    {
      var headers := RunHeaders(parsers, pending.value, input, m.behind, m.unset);
      match headers {
        case BadHeaders(request) =>
          pending := Some(request);
          events := events + [Rejected(400)];
          return false;
        case StrayHeaders =>
          status := Aborted;
          return false;
        case MoreHeaders(size, request) =>
          pending := Some(request);
          input := Removed(input, size);
          return false;
        case AllHeaders(size, request) =>
          pending := Some(request);
          input := Removed(input, size);
          status := RtspContent;
          return true;
      }
    }

    method RequestStep(r: Request)
      modifies this
      ensures Snap() == HandleRequest(old(Snap()), r)
    {
      if r.cseq.None? {
        events := events + [Refused(400)];
      } else if r.cseq.value <= lastCseq {
        events := events + [Dropped(r)];
      } else {
        lastCseq := r.cseq.value;
        events := events + [Dispatched(r, r.cseq.value)];
      }
      pending := None;
    }

    method ContentStep() returns (more: bool)
      requires Valid() && status == RtspContent
      modifies this
      ensures (Snap(), more) == HandleContent(old(Snap()))
    {
      if pending.value.hasContent {
        status := Aborted;
        return false;
      }
      RequestStep(pending.value);
      status := Begin;
      return true;
    }

    /** The loop of RTSP_handler terminates on every input and in every memory, and leaves a connection
        that can go on exactly if it read no line with an unsupported method. */
    method Handler(heap: Heap)
      requires Valid()
      modifies this
      ensures Snap() == Drain(parsers, old(Snap()), heap)
      ensures Valid() <==> !MeetsUnsupported(parsers, old(Snap()), heap)
    {
      WellFormedIff(parsers, Snap(), heap);
      var more := true;
      while more
        invariant more ==> Valid()
        invariant (if more then Drain(parsers, Snap(), heap) else Snap()) == Drain(parsers, old(Snap()), heap)
        decreases more, |input|, Awaiting(parsers, Snap(), heap)
      {
        ghost var c := Snap();
        match status {
          case Begin => more := NewStep(heap(input));
          case Interleaved => more := InterleavedStep();
          case RtspHeaders => more := HeadersStep(heap(input));
          case RtspContent => more := ContentStep();
          case HttpHeaders => more := false;
          case Aborted => more := false;
        }
        assert (Snap(), more) == Step(parsers, c, heap);
        if more {
          StepProgress(parsers, c, heap);
        }
      }
    }

    /** rtsp_tcp_read_cb: a read that gives nothing, or more than the buffer may hold, ends the
        connection; other bytes are appended and handled. */
    method Receive(chunk: seq<Byte>, heap: Heap) returns (open: bool)
      requires Valid()
      modifies this
      ensures Feed(parsers, old(Snap()), chunk, heap) == if open then Open(Snap()) else Closed(Snap())
    {
      if |chunk| == 0 || |input| + |chunk| > BUFFER_SIZE {
        return false;
      }
      input := input + chunk;
      Handler(heap);
      return true;
    }
  }

  const NewConn := Conn(Begin, [], None, 0, [])

  function Extended(c: Conn, chunk: seq<Byte>): Conn {
    c.(input := c.input + chunk)
  }

  /** What the input buffer of a connection may hold (RTSP_BUFFERSIZE). */
  const BUFFER_SIZE: nat := 5000

  /** A connection after some reads: open, closed by either side, or the program has followed a
      null pointer. */
  datatype Link = Open(conn: Conn) | Closed(conn: Conn) | Crashed(conn: Conn)

  /** rtsp_tcp_read_cb */
  function Feed(p: Parsers, c: Conn, chunk: seq<Byte>, heap: Heap): Link
    requires Automata(p)
  {
    if |chunk| == 0 || |c.input| + |chunk| > BUFFER_SIZE then Closed(c)
    else if !WellFormed(c) then Crashed(c)
    else Open(Drain(p, Extended(c, chunk), heap))
  }

  /** The reads of a connection, one after the other, as long as it is open. */
  function FeedAll(p: Parsers, c: Conn, chunks: seq<seq<Byte>>, heaps: seq<Heap>): Link
    requires Automata(p) && |heaps| == |chunks|
    decreases |chunks|
  {
    if chunks == [] then Open(c)
    else
      var k := |chunks| - 1;
      var before := FeedAll(p, c, chunks[..k], heaps[..k]);
      if before.Open? then Feed(p, before.conn, chunks[k], heaps[k]) else before
  }

  // ---------------------------------------------------------------- unsupported methods

  /** At a request line of a known protocol with an unsupported method: the status changes although
      no request is pending. */
  predicate AtUnsupported(p: Parsers, c: Conn, heap: Heap) {
    && c.status == Begin && c.input != [] && c.input[0] != DOLLAR
    && var line := ParseLine(p, c.input, heap(c.input).behind);
       line.GoodLine? && !line.protocol.UnknownProtocol? && !line.known
  }

  /** The handler comes to such a line. */
  predicate MeetsUnsupported(p: Parsers, c: Conn, heap: Heap)
    requires Automata(p) && WellFormed(c)
    decreases |c.input|, Awaiting(p, c, heap)
  {
    || AtUnsupported(p, c, heap)
    || (Step(p, c, heap).1 && (StepProgress(p, c, heap); MeetsUnsupported(p, Step(p, c, heap).0, heap)))
  }

  lemma StepWellFormedIff(p: Parsers, c: Conn, heap: Heap)
    requires Automata(p) && WellFormed(c)
    ensures WellFormed(Step(p, c, heap).0) <==> !AtUnsupported(p, c, heap)
    ensures AtUnsupported(p, c, heap) ==> !Step(p, c, heap).1
  {
  }

  /** The handler leaves the connection well formed, so that it can be read again, if and only if it
      met no such line. */
  lemma {:induction false} WellFormedIff(p: Parsers, c: Conn, heap: Heap)
    requires Automata(p) && WellFormed(c)
    ensures WellFormed(Drain(p, c, heap)) <==> !MeetsUnsupported(p, c, heap)
    decreases |c.input|, Awaiting(p, c, heap)
  {
    StepWellFormedIff(p, c, heap);
    if Step(p, c, heap).1 {
      StepProgress(p, c, heap);
      WellFormedIff(p, Step(p, c, heap).0, heap);
    }
  }

  /** The next read of a connection follows a null pointer if and only if the read before it met a
      request line with an unsupported method. */
  lemma CrashIff(p: Parsers, c: Conn, chunk: seq<Byte>, next: seq<Byte>, heap: Heap, heap': Heap)
    requires Automata(p) && WellFormed(c) && Feed(p, c, chunk, heap).Open?
    requires next != [] && |Feed(p, c, chunk, heap).conn.input| + |next| <= BUFFER_SIZE
    ensures Feed(p, Feed(p, c, chunk, heap).conn, next, heap').Crashed? <==> MeetsUnsupported(p, Extended(c, chunk), heap)
  {
    WellFormedIff(p, Extended(c, chunk), heap);
  }

  lemma FeedTwo(p: Parsers, c: Conn, a: seq<Byte>, b: seq<Byte>, g: Heap, h: Heap)
    requires Automata(p) && Feed(p, c, a, g).Open?
    ensures FeedAll(p, c, [a, b], [g, h]) == Feed(p, Feed(p, c, a, g).conn, b, h)
  {
    assert [a, b][..1] == [a] && [g, h][..1] == [g] && [a][..0] == [] && [g][..0] == [];
    assert FeedAll(p, c, [a], [g]) == Feed(p, c, a, g);
  }

  /** Any request line with an unsupported method, and any bytes in a read of their own after it,
      crash the program. */
  lemma UnsupportedCrashes(p: Parsers, line: seq<Byte>, next: seq<Byte>, heap: Heap, heap': Heap)
    requires Automata(p) && line != [] && line[0] != DOLLAR && next != [] && |line| + |next| <= BUFFER_SIZE
    requires LineDecided(p, line) && ParseLine(p, line, []).GoodLine?
    requires !ParseLine(p, line, []).protocol.UnknownProtocol? && !ParseLine(p, line, []).known
    ensures FeedAll(p, NewConn, [line, next], [heap, heap']).Crashed?
  {
    var c := Extended(NewConn, line);
    assert c.input == line;
    LineByOwnBytes(p, line, heap(line).behind);
    assert AtUnsupported(p, c, heap) && !Step(p, c, heap).1;
    assert Feed(p, NewConn, line, heap) == Open(Step(p, c, heap).0);
    FeedTwo(p, NewConn, line, next, heap, heap');
  }

  // ---------------------------------------------------------------- every connection

  lemma StepEventsStay(p: Parsers, c: Conn, heap: Heap)
    requires WellFormed(c)
    ensures c.events <= Step(p, c, heap).0.events
  {
  }

  lemma {:induction false} EventsStay(p: Parsers, c: Conn, heap: Heap)
    requires Automata(p) && WellFormed(c)
    ensures c.events <= Drain(p, c, heap).events
    decreases |c.input|, Awaiting(p, c, heap)
  {
    StepEventsStay(p, c, heap);
    if Step(p, c, heap).1 {
      StepProgress(p, c, heap);
      EventsStay(p, Step(p, c, heap).0, heap);
    }
  }

  /** The requests passed on so far have strictly increasing sequence numbers, up to the last. */
  predicate InSequence(events: seq<Event>, last: nat) {
    && (forall i :: 0 <= i < |events| && events[i].Dispatched? ==> events[i].cseq <= last)
    && (forall i, j :: 0 <= i < j < |events| && events[i].Dispatched? && events[j].Dispatched? ==>
          events[i].cseq < events[j].cseq)
  }

  lemma StepInSequence(p: Parsers, c: Conn, heap: Heap)
    requires WellFormed(c) && InSequence(c.events, c.lastCseq)
    ensures InSequence(Step(p, c, heap).0.events, Step(p, c, heap).0.lastCseq)
  {
  }

  lemma {:induction false} DrainInSequence(p: Parsers, c: Conn, heap: Heap)
    requires Automata(p) && WellFormed(c) && InSequence(c.events, c.lastCseq)
    ensures InSequence(Drain(p, c, heap).events, Drain(p, c, heap).lastCseq)
    decreases |c.input|, Awaiting(p, c, heap)
  {
    StepInSequence(p, c, heap);
    if Step(p, c, heap).1 {
      StepProgress(p, c, heap);
      DrainInSequence(p, Step(p, c, heap).0, heap);
    }
  }

  /** On every connection, whatever it reads and whatever is in memory, no sequence number is passed
      on twice or out of order. */
  lemma {:induction false} NoReplay(p: Parsers, chunks: seq<seq<Byte>>, heaps: seq<Heap>)
    requires Automata(p) && |heaps| == |chunks|
    ensures var c := FeedAll(p, NewConn, chunks, heaps).conn; InSequence(c.events, c.lastCseq)
    decreases |chunks|
  {
    if chunks != [] {
      var k := |chunks| - 1;
      NoReplay(p, chunks[..k], heaps[..k]);
      var before := FeedAll(p, NewConn, chunks[..k], heaps[..k]);
      if Feed(p, before.conn, chunks[k], heaps[k]).Open? {
        DrainInSequence(p, Extended(before.conn, chunks[k]), heaps[k]);
      }
    }
  }

  /** What can have been delivered: packets that fitted the buffer with their preamble. */
  predicate Deliverable(events: seq<Event>) {
    forall i :: 0 <= i < |events| && events[i].Received? ==> |events[i].payload| <= BUFFER_SIZE - 4
  }

  lemma StepDeliverable(p: Parsers, c: Conn, heap: Heap)
    requires WellFormed(c) && |c.input| <= BUFFER_SIZE && Deliverable(c.events)
    ensures |Step(p, c, heap).0.input| <= |c.input| && Deliverable(Step(p, c, heap).0.events)
  {
  }

  lemma {:induction false} DrainDeliverable(p: Parsers, c: Conn, heap: Heap)
    requires Automata(p) && WellFormed(c) && |c.input| <= BUFFER_SIZE && Deliverable(c.events)
    ensures |Drain(p, c, heap).input| <= BUFFER_SIZE && Deliverable(Drain(p, c, heap).events)
    decreases |c.input|, Awaiting(p, c, heap)
  {
    StepDeliverable(p, c, heap);
    if Step(p, c, heap).1 {
      StepProgress(p, c, heap);
      DrainDeliverable(p, Step(p, c, heap).0, heap);
    }
  }

  /** On every connection, whatever it reads, no payload of more than 4996 bytes is delivered. */
  lemma {:induction false} OnlySmallPackets(p: Parsers, chunks: seq<seq<Byte>>, heaps: seq<Heap>)
    requires Automata(p) && |heaps| == |chunks|
    ensures Deliverable(FeedAll(p, NewConn, chunks, heaps).conn.events)
    ensures |FeedAll(p, NewConn, chunks, heaps).conn.input| <= BUFFER_SIZE
    decreases |chunks|
  {
    if chunks != [] {
      var k := |chunks| - 1;
      OnlySmallPackets(p, chunks[..k], heaps[..k]);
      var before := FeedAll(p, NewConn, chunks[..k], heaps[..k]);
      if Feed(p, before.conn, chunks[k], heaps[k]).Open? {
        DrainDeliverable(p, Extended(before.conn, chunks[k]), heaps[k]);
      }
    }
  }

  // ---------------------------------------------------------------- what becomes of a request

  /** The highest sequence number passed on so far, or 0. */
  function Highest(events: seq<Event>): nat {
    if events == [] then 0
    else
      var n, last := Highest(events[..|events| - 1]), events[|events| - 1];
      if last.Dispatched? && last.cseq > n then last.cseq else n
  }

  lemma {:induction false} HighestIsMaximum(events: seq<Event>)
    ensures forall i :: 0 <= i < |events| && events[i].Dispatched? ==> events[i].cseq <= Highest(events)
    ensures Highest(events) == 0 || exists i :: 0 <= i < |events| && events[i].Dispatched? && events[i].cseq == Highest(events)
    decreases |events|
  {
    if events != [] {
      HighestIsMaximum(events[..|events| - 1]);
    }
  }

  lemma HighestOfMore(events: seq<Event>, e: Event)
    ensures Highest(events + [e]) == if e.Dispatched? && e.cseq > Highest(events) then e.cseq else Highest(events)
  {
    assert (events + [e])[..|events|] == events;
  }

  /** What is to become of a request after these events. */
  function Fate(events: seq<Event>, r: Request): Event {
    match r.cseq
    case None => Refused(400)
    case Some(n) => if n > Highest(events) then Dispatched(r, n) else Dropped(r)
  }

  /** A request whose headers have ended: one without a body adds exactly one event.  It is passed on if
      and only if its sequence number is above every one passed on before, dropped if it is not above
      them, and refused if it has none.  One with a body ends the program without an event. */
  lemma RequestAnswered(p: Parsers, c: Conn, heap: Heap)
    requires WellFormed(c) && c.status == RtspContent && c.lastCseq == Highest(c.events)
    ensures var r := c.pending.value;
            var (d, more) := Step(p, c, heap);
            && d.input == c.input
            && (r.hasContent ==> !more && d.status == Aborted && d.events == c.events)
            && (!r.hasContent ==>
                  && more && d.status == Begin && d.pending == None && d.lastCseq == Highest(d.events)
                  && d.events == c.events + [Fate(c.events, r)]
                  && (r.cseq == None ==> Fate(c.events, r) == Refused(400))
                  && (r.cseq.Some? && r.cseq.value > Highest(c.events) ==> Fate(c.events, r) == Dispatched(r, r.cseq.value))
                  && (r.cseq.Some? && r.cseq.value <= Highest(c.events) ==> Fate(c.events, r) == Dropped(r)))
  {
    HighestOfMore(c.events, Fate(c.events, c.pending.value));
  }

  lemma StepKeepsHighest(p: Parsers, c: Conn, heap: Heap)
    requires WellFormed(c) && c.lastCseq == Highest(c.events)
    ensures Step(p, c, heap).0.lastCseq == Highest(Step(p, c, heap).0.events)
  {
    if c.status == RtspContent {
      RequestAnswered(p, c, heap);
    } else {
      var e := OtherEvent(p, c, heap);
      if e.Some? {
        HighestOfMore(c.events, e.value);
      }
    }
  }

  /** Elsewhere a step adds at most one event, and passes nothing on. */
  lemma OtherEvent(p: Parsers, c: Conn, heap: Heap) returns (e: Option<Event>)
    requires WellFormed(c) && c.status != RtspContent
    ensures var d := Step(p, c, heap).0;
            && d.lastCseq == c.lastCseq
            && d.events == (if e.Some? then c.events + [e.value] else c.events)
            && (e.Some? ==> !e.value.Dispatched?)
  {
    var d := Step(p, c, heap).0;
    e := if |d.events| > |c.events| then Some(d.events[|c.events|]) else None;
  }

  lemma {:induction false} DrainKeepsHighest(p: Parsers, c: Conn, heap: Heap)
    requires Automata(p) && WellFormed(c) && c.lastCseq == Highest(c.events)
    ensures Drain(p, c, heap).lastCseq == Highest(Drain(p, c, heap).events)
    decreases |c.input|, Awaiting(p, c, heap)
  {
    StepKeepsHighest(p, c, heap);
    if Step(p, c, heap).1 {
      StepProgress(p, c, heap);
      DrainKeepsHighest(p, Step(p, c, heap).0, heap);
    }
  }

  /** On every connection the number that requests are compared with is the highest one passed on. */
  lemma {:induction false} LastIsHighest(p: Parsers, chunks: seq<seq<Byte>>, heaps: seq<Heap>)
    requires Automata(p) && |heaps| == |chunks|
    ensures var c := FeedAll(p, NewConn, chunks, heaps).conn; c.lastCseq == Highest(c.events)
    decreases |chunks|
  {
    if chunks != [] {
      var k := |chunks| - 1;
      LastIsHighest(p, chunks[..k], heaps[..k]);
      var before := FeedAll(p, NewConn, chunks[..k], heaps[..k]);
      if Feed(p, before.conn, chunks[k], heaps[k]).Open? {
        DrainKeepsHighest(p, Extended(before.conn, chunks[k]), heaps[k]);
      }
    }
  }

  /** What is answered to a line that is no request, and that it stays unread. */
  lemma LineRejected(p: Parsers, line: seq<Byte>, heap: Heap)
    requires Automata(p) && line != [] && line[0] != DOLLAR && |line| <= BUFFER_SIZE && LineDecided(p, line)
    ensures var l := ParseLine(p, line, []);
            var link := Feed(p, NewConn, line, heap);
            && link.Open?
            && (l.BadLine? ==> link.conn == Conn(Begin, line, None, 0, [Rejected(400)]))
            && (l.GoodLine? && l.protocol.UnknownProtocol? ==> link.conn == Conn(Begin, line, None, 0, [Rejected(505)]))
            && (l.GoodLine? && !l.protocol.UnknownProtocol? && !l.known ==>
                  link.conn.events == [Rejected(501)] && link.conn.input == line && link.conn.pending == None
                  && link.conn.status == if l.protocol.Rtsp? then RtspHeaders else HttpHeaders)
            && (l.GoodLine? && l.protocol.Http? && l.known ==>
                  l.size <= |line| && link.conn == Conn(HttpHeaders, line[l.size..], Some(l.request), 0, []))
  {
    var c := Extended(NewConn, line);
    assert c.input == line;
    LineByOwnBytes(p, line, heap(line).behind);
    var (d, more) := Step(p, c, heap);
    if more && d.status == HttpHeaders {
      StepProgress(p, c, heap);
      assert Drain(p, d, heap) == d;
    }
  }

  /** While its headers are read, a connection takes the header lines that the parser completes, if
      there is as much input, and answers malformed headers; in both cases it waits. */
  lemma HeadersWait(p: Parsers, c: Conn, heap: Heap)
    requires WellFormed(c) && c.status == RtspHeaders
    ensures var m := heap(c.input);
            var h := ParseHeaders(p, c.pending.value, c.input, m.behind, m.unset);
            var (d, more) := Step(p, c, heap);
            && (h.MoreHeaders? ==>
                  && !more && d.status == RtspHeaders && d.pending == Some(h.request) && d.events == c.events
                  && d.input == if h.size <= |c.input| then c.input[h.size..] else c.input)
            && (h.BadHeaders? ==>
                  !more && d.status == RtspHeaders && d.input == c.input && d.events == c.events + [Rejected(400)])
            && (h.StrayHeaders? ==> !more && d.status == Aborted && d.events == c.events)
  {
  }
}
