/**
  Interleaved packets (rtsp_interleaved.c, section 10.12 of RFC 2326): what is sent is what the
  handler delivers, for any division into reads that fit.
  */
module InterleavedFraming {
  import opened Common
  import opened RequestScanner
  import opened RtspHandler
  import opened StreamDivision

  datatype Frame = Frame(channel: Byte, payload: seq<Byte>)

  /** The wire form of a packet; the length field has 16 bits. */
  function Encode(f: Frame): seq<Byte> {
    [DOLLAR, f.channel, (|f.payload| / 256) % 256, |f.payload| % 256] + f.payload
  }

  lemma LengthBytes(n: nat)
    ensures (n % 65536) / 256 == (n / 256) % 256 && (n % 65536) % 256 == n % 256
    ensures (n / 256) % 256 * 256 + n % 256 == n % 65536
  {
    var low, high := n % 256, (n / 256) % 256;
    var rest := (n / 256) / 256;
    assert n == 65536 * rest + (256 * high + low);
    assert 0 <= 256 * high + low < 65536;
    Residue65536(n, rest, 256 * high + low);
    Residue256(256 * high + low, high, low);
  }

  lemma Residue65536(n: nat, q: nat, r: nat)
    requires r < 65536 && n == 65536 * q + r
    ensures n % 65536 == r
  {
  }

  lemma Residue256(n: nat, q: nat, r: nat)
    requires r < 256 && n == 256 * q + r
    ensures n / 256 == q && n % 256 == r
  {
  }

  /** rtp_interleaved_send_pkt: the preamble is prepended and its length filled in. */
  method SendPacket(payload: seq<Byte>, channel: Byte) returns (buffer: seq<Byte>)
    ensures buffer == Encode(Frame(channel, payload))
  {
    var length := |payload| % 65536;
    LengthBytes(|payload|);
    var preamble := [DOLLAR, channel, 0, 0];
    buffer := preamble + payload;
    buffer := buffer[2 := length / 256];
    buffer := buffer[3 := length % 256];
  }

  function EncodeAll(frames: seq<Frame>): seq<Byte> {
    if frames == [] then [] else Encode(frames[0]) + EncodeAll(frames[1..])
  }

  function Deliveries(frames: seq<Frame>): seq<Event> {
    if frames == [] then [] else [Received(frames[0].channel, frames[0].payload)] + Deliveries(frames[1..])
  }

  predicate Fits(f: Frame) {
    |f.payload| < 65536
  }

  /** Nothing, or the beginning of a packet that is not all there. */
  predicate Incomplete(tail: seq<Byte>) {
    tail == [] ||
    (tail[0] == DOLLAR && (|tail| < 4 || |tail| < tail[2] as int * 256 + tail[3] as int + 4))
  }

  lemma SlicePacket(preamble: seq<Byte>, payload: seq<Byte>, rest: seq<Byte>, n: nat)
    requires |preamble| == 4 && n <= |payload|
    ensures var s := preamble + payload + rest;
            s[n + 4..] == payload[n..] + rest && s[4..n + 4] == payload[..n]
  {
  }

  /** The handler takes one packet off the front, with as much payload as the length field says. */
  lemma OnePacket(p: Parsers, c: Conn, f: Frame, rest: seq<Byte>)
    requires Automata(p) && c.status == Begin && c.pending.None? && c.input == Encode(f) + rest
    ensures var n := |f.payload| % 65536;
            Step(p, c, NoMemory()) == (c.(input := f.payload[n..] + rest, events := c.events + [Received(f.channel, f.payload[..n])]), true)
    ensures Decided(p, c) && !Rejects(p, c)
  {
    var n := |f.payload| % 65536;
    LengthBytes(|f.payload|);
    assert c.input[2] as int * 256 + c.input[3] as int == n;
    SlicePacket(Encode(f)[..4], f.payload, rest, n);
    assert c.input == Encode(f)[..4] + f.payload + rest;
  }

  lemma TakePacket(p: Parsers, c: Conn, f: Frame, rest: seq<Byte>)
    requires Automata(p) && c.status == Begin && c.pending.None? && c.input == Encode(f) + rest && Fits(f)
    ensures Step(p, c, NoMemory()) == (c.(input := rest, events := c.events + [Received(f.channel, f.payload)]), true)
    ensures Decided(p, c) && !Rejects(p, c)
  {
    OnePacket(p, c, f, rest);
    assert f.payload[|f.payload|..] + rest == rest && f.payload[..|f.payload|] == f.payload;
  }

  lemma TailWaits(p: Parsers, c: Conn)
    requires Automata(p) && c.status == Begin && c.pending.None? && Incomplete(c.input)
    ensures Decided(p, c) && !Rejects(p, c) && !Step(p, c, NoMemory()).1
    ensures Step(p, c, NoMemory()).0.events == c.events && Step(p, c, NoMemory()).0.input == c.input
  {
  }

  lemma CleanStep(p: Parsers, c: Conn, d: Conn)
    requires Automata(p) && WellFormed(c) && Decided(p, c) && !Rejects(p, c) && Step(p, c, NoMemory()) == (d, true)
    ensures WellFormed(d)
    ensures Clean(p, d) ==> Clean(p, c)
    ensures Drain(p, c, NoMemory()) == Drain(p, d, NoMemory())
  {
    StepProgress(p, c, NoMemory());
  }

  lemma FirstFrame(frames: seq<Frame>, tail: seq<Byte>)
    requires frames != []
    ensures EncodeAll(frames) + tail == Encode(frames[0]) + (EncodeAll(frames[1..]) + tail)
  {
  }

  /** What the handler makes of an input without refusing anything. */
  ghost predicate Yields(p: Parsers, c: Conn, events: seq<Event>, tail: seq<Byte>)
    requires Automata(p) && WellFormed(c)
  {
    Clean(p, c) && Drain(p, c, NoMemory()).events == events && Drain(p, c, NoMemory()).input == tail
  }

  lemma YieldsFirst(p: Parsers, c: Conn, f: Frame, rest: seq<Byte>, events: seq<Event>, tail: seq<Byte>)
    requires Automata(p) && c.status == Begin && c.pending.None? && c.input == Encode(f) + rest && Fits(f)
    requires Yields(p, c.(input := rest, events := c.events + [Received(f.channel, f.payload)]), events, tail)
    ensures Yields(p, c, events, tail)
  {
    TakePacket(p, c, f, rest);
    CleanStep(p, c, c.(input := rest, events := c.events + [Received(f.channel, f.payload)]));
  }

  lemma TailYields(p: Parsers, c: Conn)
    requires Automata(p) && c.status == Begin && c.pending.None? && Incomplete(c.input)
    ensures Yields(p, c, c.events, c.input)
  {
    TailWaits(p, c);
  }

  lemma FirstDelivery(events: seq<Event>, frames: seq<Frame>)
    requires frames != []
    ensures events + Deliveries(frames) ==
            events + [Received(frames[0].channel, frames[0].payload)] + Deliveries(frames[1..])
  {
  }

  lemma {:induction false} FramesDelivered(p: Parsers, c: Conn, frames: seq<Frame>, tail: seq<Byte>)
    requires Automata(p) && c.status == Begin && c.pending.None? && c.input == EncodeAll(frames) + tail
    requires (forall i :: 0 <= i < |frames| ==> Fits(frames[i])) && Incomplete(tail)
    ensures Yields(p, c, c.events + Deliveries(frames), tail)
    decreases |frames|
  {
    if frames == [] {
      assert c.input == tail && c.events + Deliveries(frames) == c.events;
      TailYields(p, c);
    } else {
      var f, rest := frames[0], EncodeAll(frames[1..]) + tail;
      FirstFrame(frames, tail);
      FirstDelivery(c.events, frames);
      FramesDelivered(p, c.(input := rest, events := c.events + [Received(f.channel, f.payload)]), frames[1..], tail);
      YieldsFirst(p, c, f, rest, c.events + Deliveries(frames), tail);
    }
  }

  /** Between two reads exactly the incomplete packet is unread. */
  lemma UnreadTail(p: Parsers, frames: seq<Frame>, tail: seq<Byte>)
    requires Automata(p)
    requires (forall i :: 0 <= i < |frames| ==> Fits(frames[i])) && Incomplete(tail)
    ensures Clean(p, Extended(NewConn, EncodeAll(frames) + tail))
    ensures Whole(p, EncodeAll(frames) + tail).events == Deliveries(frames)
    ensures Whole(p, EncodeAll(frames) + tail).input == tail
  {
    var c := Extended(NewConn, EncodeAll(frames) + tail);
    assert c.input == EncodeAll(frames) + tail && c.events + Deliveries(frames) == Deliveries(frames);
    FramesDelivered(p, c, frames, tail);
  }

  /** Part of a packet is incomplete. */
  lemma PartIncomplete(f: Frame, n: nat)
    requires Fits(f) && n < |Encode(f)|
    ensures Incomplete(Encode(f)[..n])
  {
    LengthBytes(|f.payload|);
  }

  lemma PrependFrame(frames: seq<Frame>, i: nat, s: seq<Byte>, part: seq<Byte>)
    requires i < |frames| && s == EncodeAll(frames[1..][..i]) + part
    ensures Encode(frames[0]) + s == EncodeAll(frames[..i + 1]) + part
  {
    assert frames[..i + 1][0] == frames[0] && frames[..i + 1][1..] == frames[1..][..i];
  }

  lemma PrefixOfTwo(s: seq<Byte>, a: seq<Byte>, b: seq<Byte>)
    requires s <= a + b
    ensures |s| < |a| ==> s == a[..|s|]
    ensures |s| >= |a| ==> s == a + s[|a|..] && s[|a|..] <= b
  {
    assert s == (a + b)[..|s|];
  }

  lemma TailPartIncomplete(tail: seq<Byte>, s: seq<Byte>)
    requires Incomplete(tail) && s <= tail
    ensures Incomplete(s)
  {
  }

  /** The beginning of a stream of packets is some of the packets and part of the next. */
  lemma {:induction false} PrefixSplits(frames: seq<Frame>, tail: seq<Byte>, s: seq<Byte>) returns (j: nat, part: seq<Byte>)
    requires s <= EncodeAll(frames) + tail && Incomplete(tail)
    requires forall i :: 0 <= i < |frames| ==> Fits(frames[i])
    ensures j <= |frames| && s == EncodeAll(frames[..j]) + part && Incomplete(part)
    ensures if j < |frames| then |part| < |Encode(frames[j])| else |part| <= |tail|
    decreases |frames|
  {
    if frames == [] {
      assert EncodeAll(frames) + tail == tail;
      TailPartIncomplete(tail, s);
      j, part := 0, s;
    } else {
      var f, rest := Encode(frames[0]), EncodeAll(frames[1..]) + tail;
      FirstFrame(frames, tail);
      PrefixOfTwo(s, f, rest);
      if |s| < |f| {
        PartIncomplete(frames[0], |s|);
        j, part := 0, s;
      } else {
        j, part := PrefixSplits(frames[1..], tail, s[|f|..]);
        PrependFrame(frames, j, s[|f|..], part);
        j := j + 1;
      }
    }
  }

  /** A part of a stream of packets is never cut inside a request. */
  lemma {:induction false} PacketsUncut(p: Parsers, frames: seq<Frame>, tail: seq<Byte>, chunks: seq<seq<Byte>>)
    requires Automata(p) && Flatten(chunks) <= EncodeAll(frames) + tail && Incomplete(tail)
    requires forall i :: 0 <= i < |frames| ==> Fits(frames[i])
    ensures UncutAll(p, chunks)
    decreases |chunks|
  {
    if chunks != [] {
      var k := |chunks| - 1;
      assert Flatten(chunks[..k]) <= Flatten(chunks);
      PacketsUncut(p, frames, tail, chunks[..k]);
      var j, part := PrefixSplits(frames, tail, Flatten(chunks));
      UnreadTail(p, frames[..j], part);
    }
  }

  /** For any packets that the sender can describe, any division of their encodings into reads and
      any memory, the connection stays open if and only if every read fits; it has then delivered
      exactly their channels and payloads, in order, and keeps exactly the incomplete tail. */
  lemma {:induction false} InterleavedRoundTrip(p: Parsers, frames: seq<Frame>, tail: seq<Byte>, chunks: seq<seq<Byte>>, heaps: seq<Heap>)
    requires Automata(p) && |heaps| == |chunks|
    requires (forall i :: 0 <= i < |frames| ==> Fits(frames[i])) && Incomplete(tail)
    requires Flatten(chunks) == EncodeAll(frames) + tail
    ensures FeedAll(p, NewConn, chunks, heaps).Open? <==> Fitting(p, chunks)
    ensures Fitting(p, chunks) ==>
              var d := FeedAll(p, NewConn, chunks, heaps).conn;
              d.events == Deliveries(frames) && d.input == tail
  {
    UnreadTail(p, frames, tail);
    PacketsUncut(p, frames, tail, chunks);
    AnyDivision(p, chunks, heaps);
  }

  /** Less than a packet is unread after any part of a stream of packets. */
  lemma UnreadIsPart(p: Parsers, frames: seq<Frame>, tail: seq<Byte>, s: seq<Byte>, m: nat)
    requires Automata(p) && s <= EncodeAll(frames) + tail && Incomplete(tail) && |tail| < m
    requires forall i :: 0 <= i < |frames| ==> Fits(frames[i]) && |Encode(frames[i])| <= m
    ensures |Whole(p, s).input| < m
  {
    var j, part := PrefixSplits(frames, tail, s);
    UnreadTail(p, frames[..j], part);
  }

  /** Reads that leave room for the longest packet always fit. */
  lemma {:induction false} SmallReadsFit(p: Parsers, frames: seq<Frame>, tail: seq<Byte>, chunks: seq<seq<Byte>>, m: nat)
    requires Automata(p) && Flatten(chunks) <= EncodeAll(frames) + tail && Incomplete(tail) && |tail| < m
    requires forall i :: 0 <= i < |frames| ==> Fits(frames[i]) && |Encode(frames[i])| <= m
    requires forall i :: 0 <= i < |chunks| ==> 0 < |chunks[i]| <= BUFFER_SIZE + 1 - m
    ensures Fitting(p, chunks)
    decreases |chunks|
  {
    if chunks != [] {
      var k := |chunks| - 1;
      assert Flatten(chunks[..k]) <= Flatten(chunks);
      SmallReadsFit(p, frames, tail, chunks[..k], m);
      UnreadIsPart(p, frames, tail, Flatten(chunks[..k]), m);
    }
  }

  lemma FlattenTwo(a: seq<Byte>, b: seq<Byte>)
    ensures Flatten([]) == [] && Flatten([a]) == a && Flatten([a, b]) == a + b
  {
    assert [a][..0] == [] && [a, b][..1] == [a];
    assert Flatten([a]) == [] + a;
  }

  lemma FittingOne(p: Parsers, a: seq<Byte>)
    requires Automata(p)
    ensures Fitting(p, [a]) <==> a != [] && |a| <= BUFFER_SIZE
  {
    assert [a][..0] == [] && Fitting(p, []);
    assert Extended(NewConn, Flatten([])).input == [];
    DrainShrinks(p, Extended(NewConn, Flatten([])), NoMemory());
  }

  lemma FittingTwo(p: Parsers, a: seq<Byte>, b: seq<Byte>)
    requires Automata(p) && Uncut(p, a)
    ensures Fitting(p, [a, b]) <==>
              a != [] && b != [] && |a| <= BUFFER_SIZE && |Whole(p, a).input| + |b| <= BUFFER_SIZE
  {
    FlattenTwo(a, b);
    FittingOne(p, a);
    assert [a][..0] == [] && [a, b][..1] == [a];
    assert UncutAll(p, [a]);
  }

  lemma EncodeTwo(f: Frame, g: Frame)
    ensures EncodeAll([]) == [] && EncodeAll([f]) == Encode(f) && EncodeAll([f, g]) == Encode(f) + Encode(g)
  {
    assert [f][1..] == [] && [f, g][1..] == [g] && [g][1..] == [];
    assert Encode(f) + [] == Encode(f) && Encode(g) + [] == Encode(g);
  }

  /** Two packets in two reads: the division matters. */
  lemma TwoPackets(p: Parsers, f: Frame, g: Frame, a: seq<Byte>, b: seq<Byte>, frames: seq<Frame>, part: seq<Byte>, heaps: seq<Heap>)
    requires Automata(p) && |heaps| == 2 && Fits(f) && Fits(g) && a != [] && b != [] && |a| <= BUFFER_SIZE
    requires a + b == Encode(f) + Encode(g) && a == EncodeAll(frames) + part && Incomplete(part)
    requires forall i :: 0 <= i < |frames| ==> Fits(frames[i])
    ensures FeedAll(p, NewConn, [a, b], heaps).Open? <==> |part| + |b| <= BUFFER_SIZE
  {
    FlattenTwo(a, b);
    EncodeTwo(f, g);
    UnreadTail(p, frames, part);
    FittingTwo(p, a, b);
    assert Encode(f) + Encode(g) + [] == Encode(f) + Encode(g);
    InterleavedRoundTrip(p, [f, g], [], [a, b], heaps);
  }

  /** Two packets of 3000 bytes come through one by one, and end the connection when all but the
      last byte of the first comes first. */
  lemma DivisionMatters(p: Parsers, f: Frame, g: Frame, heaps: seq<Heap>)
    requires Automata(p) && |heaps| == 2 && |f.payload| == 3000 && |g.payload| == 3000
    ensures FeedAll(p, NewConn, [Encode(f), Encode(g)], heaps).Open?
    ensures var s := Encode(f) + Encode(g); !FeedAll(p, NewConn, [s[..3003], s[3003..]], heaps).Open?
  {
    var s := Encode(f) + Encode(g);
    EncodeTwo(f, g);
    assert EncodeAll([f]) + [] == Encode(f);
    TwoPackets(p, f, g, Encode(f), Encode(g), [f], [], heaps);
    PartIncomplete(f, 3003);
    assert EncodeAll([]) + s[..3003] == s[..3003] == Encode(f)[..3003] && s[..3003] + s[3003..] == s;
    TwoPackets(p, f, g, s[..3003], s[3003..], [], s[..3003], heaps);
  }

  /** A single packet comes through whole if and only if its payload has at most 4996 bytes, in
      whatever pieces it is read. */
  lemma {:induction false} PacketReceivedIff(p: Parsers, f: Frame, chunks: seq<seq<Byte>>, heaps: seq<Heap>)
    requires Automata(p) && |heaps| == |chunks| && Flatten(chunks) == Encode(f)
    requires forall i :: 0 <= i < |chunks| ==> chunks[i] != []
    ensures Received(f.channel, f.payload) in FeedAll(p, NewConn, chunks, heaps).conn.events <==> |f.payload| <= BUFFER_SIZE - 4
    ensures |f.payload| <= BUFFER_SIZE - 4 ==>
              FeedAll(p, NewConn, chunks, heaps).Open? && FeedAll(p, NewConn, chunks, heaps).conn.events == [Received(f.channel, f.payload)]
  {
    OnlySmallPackets(p, chunks, heaps);
    if |f.payload| <= BUFFER_SIZE - 4 {
      assert [f][1..] == [] && EncodeAll([f]) + [] == Encode(f) + [] == Encode(f);
      ShortStreamFits(p, chunks);
      InterleavedRoundTrip(p, [f], [], chunks, heaps);
      assert Deliveries([f]) == [Received(f.channel, f.payload)];
    }
  }

  /** What is sent: a dollar sign, the channel, two bytes of length with the high one first, and the
      payload.  The length describes the whole payload if and only if that is shorter than 65536
      bytes. */
  lemma PacketDescribedIff(f: Frame)
    ensures var s := Encode(f);
            && |s| == |f.payload| + 4 && s[0] == '$' as int && s[1] == f.channel && s[4..] == f.payload
            && s[2] as int * 256 + s[3] as int == |f.payload| % 65536
            && (s[2] as int * 256 + s[3] as int == |f.payload| <==> |f.payload| < 65536)
  {
    LengthBytes(|f.payload|);
  }
}
