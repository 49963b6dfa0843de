/**
  How the division of a byte stream into reads matters: not at all as long as no read ends inside a
  request and every read fits the buffer.  A read that ends inside a request leaves the parsers to
  what is in memory behind it.
  */
module StreamDivision {
  import opened Common
  import opened RequestScanner
  import opened RtspHandler

  /** For what does not depend on memory. */
  function NoMemory(): Heap {
    (s: seq<Byte>) => Memory([], 0)
  }

  // ---------------------------------------------------------------- streams that are not cut

  /** The next step is decided by the bytes of the input. */
  predicate Decided(p: Parsers, c: Conn) {
    match c.status
    case Begin => c.input == [] || c.input[0] == DOLLAR || LineDecided(p, c.input)
    case RtspHeaders => c.pending.Some? && HeadersDecided(p, c.pending.value, c.input)
    case _ => true
  }

  /** The handler rejects the request line or the headers it is at; the bytes stay where they are. */
  predicate Rejects(p: Parsers, c: Conn) {
    match c.status
    case Begin =>
      c.input != [] && c.input[0] != DOLLAR &&
      (match ParseLine(p, c.input, [])
       case BadLine => true
       case GoodLine(_, protocol, known, _) => protocol.UnknownProtocol? || !known
       case _ => false)
    case RtspHeaders => c.pending.Some? && ParseHeaders(p, c.pending.value, c.input, [], 0).BadHeaders?
    case _ => false
  }

  /** Every step is decided by the bytes of the input, and nothing is rejected. */
  predicate Clean(p: Parsers, c: Conn)
    requires Automata(p) && WellFormed(c)
    decreases |c.input|, Awaiting(p, c, NoMemory())
  {
    && Decided(p, c) && !Rejects(p, c)
    && (Step(p, c, NoMemory()).1 ==>
          (StepProgress(p, c, NoMemory()); Clean(p, Step(p, c, NoMemory()).0)))
  }

  /** A step that is decided does not depend on memory. */
  lemma DecidedStep(p: Parsers, c: Conn, heap: Heap)
    requires Automata(p) && WellFormed(c) && Decided(p, c)
    ensures Step(p, c, heap) == Step(p, c, NoMemory())
  {
    var m := heap(c.input);
    if c.status == Begin && c.input != [] && c.input[0] != DOLLAR {
      LineByOwnBytes(p, c.input, m.behind);
    } else if c.status == RtspHeaders {
      HeadersByOwnBytes(p, c.pending.value, c.input, m.behind, m.unset);
    }
  }

  lemma CleanStepWellFormed(p: Parsers, c: Conn)
    requires Automata(p) && WellFormed(c) && Decided(p, c) && !Rejects(p, c)
    ensures WellFormed(Step(p, c, NoMemory()).0)
  {
    if c.status == RtspHeaders {
      HeadersByOwnBytes(p, c.pending.value, c.input, [], 0);
    }
  }

  lemma {:induction false} CleanDrain(p: Parsers, c: Conn, heap: Heap)
    requires Automata(p) && WellFormed(c) && Clean(p, c)
    ensures Drain(p, c, heap) == Drain(p, c, NoMemory()) && WellFormed(Drain(p, c, heap))
    decreases |c.input|, Awaiting(p, c, NoMemory())
  {
    DecidedStep(p, c, heap);
    CleanStepWellFormed(p, c);
    if Step(p, c, NoMemory()).1 {
      StepProgress(p, c, NoMemory());
      CleanDrain(p, Step(p, c, NoMemory()).0, heap);
    }
  }

  // ---------------------------------------------------------------- more bytes

  lemma InterleavedExtended(c: Conn, b: seq<Byte>)
    requires HandleInterleaved(c).1
    ensures HandleInterleaved(Extended(c, b)) == (Extended(HandleInterleaved(c).0, b), true)
  {
    var n: nat := c.input[2] as int * 256 + c.input[3] as int + 4;
    var d := Extended(c, b);
    assert n <= |c.input|;
    assert d.input[n..] == c.input[n..] + b;
    assert d.input[4..n] == c.input[4..n];
  }

  lemma LineExtended(p: Parsers, c: Conn, b: seq<Byte>)
    requires Automata(p) && c.status == Begin && c.input != [] && c.input[0] != DOLLAR && LineDecided(p, c.input)
    ensures HandleNew(p, Extended(c, b), Memory([], 0)) ==
            (Extended(HandleNew(p, c, Memory([], 0)).0, b), HandleNew(p, c, Memory([], 0)).1)
    ensures Decided(p, Extended(c, b)) && (Rejects(p, Extended(c, b)) <==> Rejects(p, c))
  {
    LineByOwnBytes(p, c.input, []);
    LineStays(p, c.input, b);
    var line := ParseLine(p, c.input, []);
    if line.GoodLine? {
      assert (c.input + b)[line.size..] == c.input[line.size..] + b;
    }
  }

  lemma HeadersExtended(p: Parsers, c: Conn, b: seq<Byte>)
    requires Automata(p) && c.status == RtspHeaders && c.pending.Some? && HeadersDecided(p, c.pending.value, c.input)
    ensures HandleHeaders(p, Extended(c, b), Memory([], 0)) ==
            (Extended(HandleHeaders(p, c, Memory([], 0)).0, b), HandleHeaders(p, c, Memory([], 0)).1)
    ensures Decided(p, Extended(c, b)) && (Rejects(p, Extended(c, b)) <==> Rejects(p, c))
  {
    HeadersByOwnBytes(p, c.pending.value, c.input, [], 0);
    HeadersStay(p, c.pending.value, c.input, b);
    var headers := ParseHeaders(p, c.pending.value, c.input, [], 0);
    if headers.AllHeaders? {
      assert (c.input + b)[headers.size..] == c.input[headers.size..] + b;
    }
  }

  /** A decided step that goes on does the same when there is more input behind; one that rejects
      still does. */
  lemma StepExtended(p: Parsers, c: Conn, b: seq<Byte>)
    requires Automata(p) && WellFormed(c) && Decided(p, c) && (Step(p, c, NoMemory()).1 || Rejects(p, c))
    ensures Step(p, c, NoMemory()).1 ==> Step(p, Extended(c, b), NoMemory()) == (Extended(Step(p, c, NoMemory()).0, b), true)
    ensures Decided(p, Extended(c, b)) && (Rejects(p, Extended(c, b)) <==> Rejects(p, c))
  {
    match c.status
    case Begin =>
      if c.input[0] == DOLLAR {
        InterleavedExtended(c.(status := Interleaved), b);
      } else {
        LineExtended(p, c, b);
      }
    case Interleaved => InterleavedExtended(c, b);
    case RtspHeaders => HeadersExtended(p, c, b);
    case RtspContent =>
    case HttpHeaders =>
    case Aborted =>
  }

  /** A clean step stops only where nothing, or part of a packet, is left, or for good; it can be
      repeated once there is more input. */
  lemma StepResumed(p: Parsers, c: Conn, b: seq<Byte>)
    requires Automata(p) && WellFormed(c) && Decided(p, c) && !Rejects(p, c) && !Step(p, c, NoMemory()).1
    ensures var d := Step(p, c, NoMemory()).0;
            && WellFormed(d)
            && (|| (d == c.(status := d.status) && (d.status == c.status || (c.status == Begin && c.input != [] && c.input[0] == DOLLAR && d.status == Interleaved)))
                || (d == c.(status := Aborted) && c.status == RtspContent))
  {
    if c.status == RtspHeaders {
      HeadersByOwnBytes(p, c.pending.value, c.input, [], 0);
    } else if c.status == Begin && c.input != [] && c.input[0] != DOLLAR {
      LineByOwnBytes(p, c.input, []);
    }
  }

  /** Taking up where a clean run stopped is running on. */
  lemma Resumed(p: Parsers, c: Conn, b: seq<Byte>)
    requires Automata(p) && WellFormed(c) && Decided(p, c) && !Rejects(p, c) && !Step(p, c, NoMemory()).1
    ensures var d := Step(p, c, NoMemory()).0;
            && WellFormed(d)
            && Drain(p, Extended(d, b), NoMemory()) == Drain(p, Extended(c, b), NoMemory())
            && (Clean(p, Extended(d, b)) <==> Clean(p, Extended(c, b)))
  {
    StepResumed(p, c, b);
    var d := Step(p, c, NoMemory()).0;
    if d.status == Aborted && c.status == RtspContent {
      assert Step(p, Extended(c, b), NoMemory()) == (Extended(d, b), false);
    } else {
      assert Step(p, Extended(d, b), NoMemory()) == Step(p, Extended(c, b), NoMemory());
    }
  }

  /** Handling what there is and then the rest is handling it all at once, and one is clean if and
      only if the other is. */
  lemma {:induction false} DrainResumed(p: Parsers, c: Conn, b: seq<Byte>)
    requires Automata(p) && WellFormed(c) && Clean(p, c)
    ensures WellFormed(Drain(p, c, NoMemory()))
    ensures Drain(p, Extended(Drain(p, c, NoMemory()), b), NoMemory()) == Drain(p, Extended(c, b), NoMemory())
    ensures Clean(p, Extended(Drain(p, c, NoMemory()), b)) <==> Clean(p, Extended(c, b))
    decreases |c.input|, Awaiting(p, c, NoMemory())
  {
    if Step(p, c, NoMemory()).1 {
      StepExtended(p, c, b);
      StepProgress(p, c, NoMemory());
      DrainResumed(p, Step(p, c, NoMemory()).0, b);
      DrainOnce(p, Extended(c, b));
    } else {
      Resumed(p, c, b);
    }
  }

  lemma DrainOnce(p: Parsers, c: Conn)
    requires Automata(p) && WellFormed(c) && Step(p, c, NoMemory()).1
    ensures WellFormed(Step(p, c, NoMemory()).0)
    ensures Drain(p, c, NoMemory()) == Drain(p, Step(p, c, NoMemory()).0, NoMemory())
    ensures Clean(p, c) <==> Decided(p, c) && !Rejects(p, c) && Clean(p, Step(p, c, NoMemory()).0)
  {
    StepProgress(p, c, NoMemory());
  }

  // ---------------------------------------------------------------- divisions

  function Flatten(chunks: seq<seq<Byte>>): seq<Byte> {
    if chunks == [] then [] else Flatten(chunks[..|chunks| - 1]) + chunks[|chunks| - 1]
  }

  /** What a new connection makes of a stream that arrives in one piece and fits the buffer. */
  function Whole(p: Parsers, stream: seq<Byte>): Conn
    requires Automata(p)
  {
    Drain(p, Extended(NewConn, stream), NoMemory())
  }

  /** The stream consists of whole requests that are not rejected and of packets, and ends between
      them or inside a packet. */
  predicate Uncut(p: Parsers, stream: seq<Byte>)
    requires Automata(p)
  {
    Clean(p, Extended(NewConn, stream))
  }

  /** No read ends inside a request. */
  predicate UncutAll(p: Parsers, chunks: seq<seq<Byte>>)
    requires Automata(p)
  {
    chunks == [] || (UncutAll(p, chunks[..|chunks| - 1]) && Uncut(p, Flatten(chunks)))
  }

  /** Every read brings something, and finds room beside what is still unread of the reads before
      it, which does not depend on how these were divided as long as nothing was cut. */
  predicate Fitting(p: Parsers, chunks: seq<seq<Byte>>)
    requires Automata(p)
  {
    chunks == [] ||
    (var k := |chunks| - 1;
     && Fitting(p, chunks[..k]) && chunks[k] != []
     && (UncutAll(p, chunks[..k]) ==> |Whole(p, Flatten(chunks[..k])).input| + |chunks[k]| <= BUFFER_SIZE))
  }

  /** If no read ends inside a request, then in every memory the connection stays open if and only if
      every read fits, and is then in the state, with the events and with the unread bytes, of
      reading the stream in one piece; otherwise it is closed. */
  lemma {:induction false} AnyDivision(p: Parsers, chunks: seq<seq<Byte>>, heaps: seq<Heap>)
    requires Automata(p) && |heaps| == |chunks| && UncutAll(p, chunks)
    ensures if Fitting(p, chunks) then FeedAll(p, NewConn, chunks, heaps) == Open(Whole(p, Flatten(chunks)))
            else FeedAll(p, NewConn, chunks, heaps).Closed?
    decreases |chunks|
  {
    if chunks != [] {
      var k := |chunks| - 1;
      var c := Extended(NewConn, Flatten(chunks[..k]));
      AnyDivision(p, chunks[..k], heaps[..k]);
      if k == 0 {
        EmptyIsUncut(p);
      }
      NextRead(p, Flatten(chunks[..k]), chunks[k], heaps[k]);
    }
  }

  lemma EmptyIsUncut(p: Parsers)
    requires Automata(p)
    ensures Uncut(p, []) && Whole(p, []) == NewConn
  {
    assert Extended(NewConn, []) == NewConn;
  }

  /** One more read after a part of the stream that was not cut. */
  lemma {:induction false} NextRead(p: Parsers, a: seq<Byte>, b: seq<Byte>, heap: Heap)
    requires Automata(p) && Uncut(p, a)
    ensures WellFormed(Whole(p, a)) && (Clean(p, Extended(Whole(p, a), b)) <==> Uncut(p, a + b))
    ensures Uncut(p, a + b) ==> Drain(p, Extended(Whole(p, a), b), heap) == Whole(p, a + b)
  {
    var c := Extended(NewConn, a);
    assert Extended(c, b) == Extended(NewConn, a + b);
    DrainResumed(p, c, b);
    if Uncut(p, a + b) {
      CleanDrain(p, Extended(Whole(p, a), b), heap);
    }
  }

  /** What is unread is never more than what there was. */
  lemma {:induction false} DrainShrinks(p: Parsers, c: Conn, heap: Heap)
    requires Automata(p) && WellFormed(c)
    ensures |Drain(p, c, heap).input| <= |c.input|
    decreases |c.input|, Awaiting(p, c, heap)
  {
    if Step(p, c, heap).1 {
      StepProgress(p, c, heap);
      DrainShrinks(p, Step(p, c, heap).0, heap);
    }
  }

  /** A stream that fits the buffer as a whole fits it in any division. */
  lemma {:induction false} ShortStreamFits(p: Parsers, chunks: seq<seq<Byte>>)
    requires Automata(p) && |Flatten(chunks)| <= BUFFER_SIZE
    requires forall i :: 0 <= i < |chunks| ==> chunks[i] != []
    ensures Fitting(p, chunks)
    decreases |chunks|
  {
    if chunks != [] {
      var k := |chunks| - 1;
      ShortStreamFits(p, chunks[..k]);
      DrainShrinks(p, Extended(NewConn, Flatten(chunks[..k])), NoMemory());
    }
  }

  // ---------------------------------------------------------------- requests that are cut

  predicate HasRejected(events: seq<Event>) {
    exists i :: 0 <= i < |events| && events[i].Rejected?
  }

  lemma RejectedStays(a: seq<Event>, b: seq<Event>)
    requires a <= b && HasRejected(a)
    ensures HasRejected(b)
  {
    var i :| 0 <= i < |a| && a[i].Rejected?;
    assert b[i].Rejected?;
  }

  /** A clean run rejects nothing. */
  lemma {:induction false} CleanRejectsNothing(p: Parsers, c: Conn)
    requires Automata(p) && WellFormed(c) && Clean(p, c) && !HasRejected(c.events)
    ensures !HasRejected(Drain(p, c, NoMemory()).events)
    decreases |c.input|, Awaiting(p, c, NoMemory())
  {
    StepRejectsNothing(p, c);
    if Step(p, c, NoMemory()).1 {
      StepProgress(p, c, NoMemory());
      CleanRejectsNothing(p, Step(p, c, NoMemory()).0);
    }
  }

  lemma StepRejectsNothing(p: Parsers, c: Conn)
    requires Automata(p) && WellFormed(c) && Decided(p, c) && !Rejects(p, c) && !HasRejected(c.events)
    ensures !HasRejected(Step(p, c, NoMemory()).0.events)
  {
  }

  /** A step that is not decided is rejected in some memory. */
  lemma UndecidedRejected(p: Parsers, c: Conn) returns (heap: Heap)
    requires Automata(p) && Fragile(p) && WellFormed(c) && !Decided(p, c)
    ensures !Step(p, c, heap).1 && HasRejected(Step(p, c, heap).0.events)
  {
    var b: seq<Byte>;
    if c.status == Begin {
      b :| ParseLine(p, c.input, b).BadLine?;
    } else {
      b :| ParseHeaders(p, c.pending.value, c.input, b, 0).BadHeaders?;
    }
    heap := (s: seq<Byte>) => Memory(b, 0);
    var events := Step(p, c, heap).0.events;
    assert events == c.events + [Rejected(400)];
    assert events[|c.events|].Rejected?;
  }

  /** A read that ends inside a request of a clean stream is rejected in some memory. */
  lemma {:induction false} CutRejected(p: Parsers, c: Conn, rest: seq<Byte>) returns (heap: Heap)
    requires Automata(p) && Fragile(p) && WellFormed(c) && !Clean(p, c) && Clean(p, Extended(c, rest))
    ensures HasRejected(Drain(p, c, heap).events)
    decreases |c.input|, Awaiting(p, c, NoMemory())
  {
    if !Decided(p, c) {
      heap := UndecidedRejected(p, c);
    } else {
      if Rejects(p, c) {
        StepExtended(p, c, rest);
        assert false;
      }
      StepExtended(p, c, rest);
      StepProgress(p, c, NoMemory());
      DrainOnce(p, Extended(c, rest));
      heap := CutRejected(p, Step(p, c, NoMemory()).0, rest);
      DecidedStep(p, c, heap);
    }
  }

  lemma FeedEventsStay(p: Parsers, c: Conn, chunk: seq<Byte>, heap: Heap)
    requires Automata(p)
    ensures c.events <= Feed(p, c, chunk, heap).conn.events
  {
    if Feed(p, c, chunk, heap).Open? {
      EventsStay(p, Extended(c, chunk), heap);
    }
  }

  lemma Regroup(a: seq<Byte>, b: seq<Byte>, c: seq<Byte>)
    ensures a + b + c == a + (b + c)
  {
  }

  /** The first read that ends inside a request. */
  lemma {:induction false} FirstCut(p: Parsers, chunks: seq<seq<Byte>>, rest: seq<Byte>) returns (heaps: seq<Heap>)
    requires Automata(p) && Fragile(p) && Fitting(p, chunks) && chunks != []
    requires UncutAll(p, chunks[..|chunks| - 1]) && !Uncut(p, Flatten(chunks)) && Uncut(p, Flatten(chunks) + rest)
    ensures |heaps| == |chunks| && HasRejected(FeedAll(p, NewConn, chunks, heaps).conn.events)
  {
    var k := |chunks| - 1;
    var a, b := Flatten(chunks[..k]), chunks[k];
    Regroup(a, b, rest);
    heaps := seq(k, i => NoMemory());
    AnyDivision(p, chunks[..k], heaps);
    UncutPrefix(p, chunks[..k]);
    var heap := CutRead(p, a, b, rest);
    LastRead(p, chunks, heaps, heap);
    heaps := heaps + [heap];
  }

  lemma {:induction false} CutRead(p: Parsers, a: seq<Byte>, b: seq<Byte>, rest: seq<Byte>) returns (heap: Heap)
    requires Automata(p) && Fragile(p) && Uncut(p, a) && !Uncut(p, a + b) && Uncut(p, a + (b + rest))
    ensures WellFormed(Whole(p, a)) && HasRejected(Drain(p, Extended(Whole(p, a), b), heap).events)
  {
    NextRead(p, a, b, NoMemory());
    NextRead(p, a, b + rest, NoMemory());
    var w := Whole(p, a);
    Regroup(w.input, b, rest);
    heap := CutRejected(p, Extended(w, b), rest);
  }

  /** What was rejected stays so. */
  lemma {:induction false} RejectedBefore(p: Parsers, chunks: seq<seq<Byte>>, heaps: seq<Heap>, heap: Heap)
    requires Automata(p) && |chunks| == |heaps| + 1
    requires HasRejected(FeedAll(p, NewConn, chunks[..|heaps|], heaps).conn.events)
    ensures HasRejected(FeedAll(p, NewConn, chunks, heaps + [heap]).conn.events)
  {
    var before := FeedAll(p, NewConn, chunks[..|heaps|], heaps);
    LastRead(p, chunks, heaps, heap);
    FeedEventsStay(p, before.conn, chunks[|heaps|], heap);
    RejectedStays(before.conn.events, FeedAll(p, NewConn, chunks, heaps + [heap]).conn.events);
  }

  lemma {:induction false} CutDivision(p: Parsers, chunks: seq<seq<Byte>>, rest: seq<Byte>) returns (heaps: seq<Heap>)
    requires Automata(p) && Fragile(p) && Fitting(p, chunks) && !UncutAll(p, chunks) && Uncut(p, Flatten(chunks) + rest)
    ensures |heaps| == |chunks| && HasRejected(FeedAll(p, NewConn, chunks, heaps).conn.events)
    decreases |chunks|
  {
    var k := |chunks| - 1;
    if UncutAll(p, chunks[..k]) {
      heaps := FirstCut(p, chunks, rest);
    } else {
      Regroup(Flatten(chunks[..k]), chunks[k], rest);
      heaps := CutDivision(p, chunks[..k], chunks[k] + rest);
      RejectedBefore(p, chunks, heaps, NoMemory());
      heaps := heaps + [NoMemory()];
    }
  }

  lemma {:induction false} UncutPrefix(p: Parsers, chunks: seq<seq<Byte>>)
    requires Automata(p) && UncutAll(p, chunks)
    ensures Uncut(p, Flatten(chunks))
  {
    EmptyIsUncut(p);
  }

  lemma {:induction false} LastRead(p: Parsers, chunks: seq<seq<Byte>>, heaps: seq<Heap>, heap: Heap)
    requires Automata(p) && |chunks| == |heaps| + 1
    ensures var before := FeedAll(p, NewConn, chunks[..|heaps|], heaps);
            FeedAll(p, NewConn, chunks, heaps + [heap]) ==
            if before.Open? then Feed(p, before.conn, chunks[|heaps|], heap) else before
  {
    assert (heaps + [heap])[..|heaps|] == heaps;
  }

  /** For a stream of whole requests and packets and any division into reads that fit: what the
      handler makes of the reads is in every memory what it makes of the stream in one piece, if and
      only if no read ends inside a request. */
  lemma {:induction false} DivisionIff(p: Parsers, chunks: seq<seq<Byte>>)
    requires Automata(p) && Fragile(p) && Fitting(p, chunks) && Uncut(p, Flatten(chunks))
    ensures (forall heaps :: |heaps| == |chunks| ==> FeedAll(p, NewConn, chunks, heaps) == Open(Whole(p, Flatten(chunks))))
            <==> UncutAll(p, chunks)
  {
    if UncutAll(p, chunks) {
      forall heaps: seq<Heap> | |heaps| == |chunks|
        ensures FeedAll(p, NewConn, chunks, heaps) == Open(Whole(p, Flatten(chunks)))
      {
        AnyDivision(p, chunks, heaps);
      }
    } else {
      assert Flatten(chunks) + [] == Flatten(chunks);
      var heaps := CutDivision(p, chunks, []);
      CleanRejectsNothing(p, Extended(NewConn, Flatten(chunks)));
      assert FeedAll(p, NewConn, chunks, heaps) != Open(Whole(p, Flatten(chunks)));
    }
  }

  /** What lies behind the rest of an input after n bytes have been removed from its front: the rest
      was moved, and its old place and what was before it is still there. */
  function Stale(input: seq<Byte>, n: nat): seq<Byte>
    requires n <= |input|
  {
    input[|input| - n..]
  }

  /** A request line and part of its headers in one read: what the line left behind is read as the
      continuation of the headers. If that makes no header, the request is rejected. */
  lemma CutHeadersRejected(p: Parsers, line: seq<Byte>, part: seq<Byte>, r: Request, heap: Heap)
    requires Automata(p) && line != [] && line[0] != DOLLAR && LineDecided(p, line)
    requires ParseLine(p, line, []) == GoodLine(|line|, Rtsp, true, r)
    requires heap(part).behind == Stale(line + part, |line|)
    requires ParseHeaders(p, r, part, Stale(line + part, |line|), heap(part).unset).BadHeaders?
    ensures Drain(p, Extended(NewConn, line + part), heap).events == [Rejected(400)]
  {
    var c := Extended(NewConn, line + part);
    assert c.input == line + part && c.input[0] == line[0];
    LineStays(p, line, part);
    LineByOwnBytes(p, line + part, heap(line + part).behind);
    var d := Step(p, c, heap).0;
    assert (line + part)[|line|..] == part;
    assert Step(p, c, heap) == (NewConn.(status := RtspHeaders, pending := Some(r), input := part), true);
    assert Step(p, d, heap).0.events == [] + [Rejected(400)] && !Step(p, d, heap).1;
  }

  /** "OPTIONS * RTSP/1.0" and a line break. */
  const OptionsLine: seq<Byte> := [79, 80, 84, 73, 79, 78, 83, 32, 42, 32, 82, 84, 83, 80, 47, 49, 46, 48, 13, 10]

  /** "CS", the beginning of a header. */
  const HeaderPart: seq<Byte> := [67, 83]

  /** So it is with "OPTIONS * RTSP/1.0", a line break and "CS": behind "CS" the old input goes on with
      "TIONS *", and a header name has no blank in it. */
  lemma CutOptionsRejected(p: Parsers, r: Request, heap: Heap)
    requires Automata(p) && LineDecided(p, OptionsLine) && ParseLine(p, OptionsLine, []) == GoodLine(20, Rtsp, true, r)
    requires heap(HeaderPart).behind == Stale(OptionsLine + HeaderPart, 20)
    requires forall n :: 0 <= n <= 7 ==> p.headers(r, [67, 83, 84, 73, 79, 78, 83][..n]).HeadGoing?
    requires p.headers(r, [67, 83, 84, 73, 79, 78, 83, 32]).HeadFailed?
    ensures Drain(p, Extended(NewConn, OptionsLine + HeaderPart), heap).events == [Rejected(400)]
  {
    var text := HeaderPart + Stale(OptionsLine + HeaderPart, 20);
    StaleText();
    HeadersStopAt(p, r, text);
    CutHeadersRejected(p, OptionsLine, HeaderPart, r, heap);
  }

  lemma StaleText()
    ensures var text := HeaderPart + Stale(OptionsLine + HeaderPart, 20);
            |text| == 22 && text[..8] == [67, 83, 84, 73, 79, 78, 83, 32]
  {
    assert Stale(OptionsLine + HeaderPart, 20) == (OptionsLine + HeaderPart)[2..];
  }

  lemma HeadersStopAt(p: Parsers, r: Request, text: seq<Byte>)
    requires |text| >= 8 && text[..8] == [67, 83, 84, 73, 79, 78, 83, 32]
    requires forall n :: 0 <= n <= 7 ==> p.headers(r, [67, 83, 84, 73, 79, 78, 83][..n]).HeadGoing?
    requires p.headers(r, [67, 83, 84, 73, 79, 78, 83, 32]).HeadFailed?
    ensures Stop(HeadersGo(p, r), text, 0) == Some(8)
  {
    forall n | 0 <= n <= 7 ensures HeadersGo(p, r)(text[..n]) {
      assert text[..n] == text[..8][..n] == [67, 83, 84, 73, 79, 78, 83][..n];
    }
  }
}
