/**
  The RTP side of the queue (rtp.c): the writer callback takes one buffer per call from the
  queue, hands it to the transport and keeps the counters of the sender reports.
  */
module RtpWriter {
  import opened Common
  import opened BufferLog
  import opened BufferQueue

  /** The counters of an RTP session are 32 bits wide. */
  const WRAP: nat := 0x1_0000_0000

  /** A buffer handed to the transport, and whether the transport took it. */
  datatype Sending = Sending(reading: Reading, ok: bool)

  /** The number of packets that the transport took. */
  ghost function Packets(sent: seq<Sending>): nat {
    |set i | 0 <= i < |sent| && sent[i].ok|
  }

  /** Their total size. */
  ghost function Octets(sent: seq<Sending>): nat {
    if sent == [] then 0
    else Octets(sent[..|sent| - 1]) + if sent[|sent| - 1].ok then |sent[|sent| - 1].reading.frame.bytes| else 0
  }

  /** What one more sending adds to both. */
  lemma CountSending(sent: seq<Sending>, x: Sending)
    ensures Packets(sent + [x]) == Packets(sent) + if x.ok then 1 else 0
    ensures Octets(sent + [x]) == Octets(sent) + if x.ok then |x.reading.frame.bytes| else 0
  {
    var more := sent + [x];
    var before, after := set i | 0 <= i < |sent| && sent[i].ok, set i | 0 <= i < |more| && more[i].ok;
    assert after == if x.ok then before + {|sent|} else before;
    assert more[..|sent|] == sent;
  }

  /** Counting in 32 bits is counting modulo 2^32. */
  lemma AddWrapped(a: nat, b: nat)
    ensures (a % WRAP + b) % WRAP == (a + b) % WRAP
  {
  }

  /** Where the consumer stands in the log of the queue. */
  ghost function Next(p: Producer, id: Id): nat
    requires p.Valid() && id in p.cursors
    reads p
  {
    p.contents.cursors[id].next
  }

  class RtpSession {
    /** The consumer of this session in the queue of its track. */
    const id: Id
    var pktCount: nat
    var octetCount: nat
    var lastTimestamp: real
    /** What was handed to the transport so far. */
    ghost var handed: seq<Sending>

    ghost predicate Valid()
      reads this
    {
      pktCount == Packets(handed) % WRAP && octetCount == Octets(handed) % WRAP
    }

    constructor (id: Id)
      ensures Valid() && this.id == id && handed == []
    {
      this.id, pktCount, octetCount, lastTimestamp, handed := id, 0, 0, 0.0, [];
    }

    /** rtp_packet_send: the counters move only when the transport takes the packet. */
    method PacketSend(r: Reading, ok: bool)
      requires Valid()
      modifies this
      ensures Valid() && handed == old(handed) + [Sending(r, ok)]
      ensures lastTimestamp == if ok then r.frame.timestamp else old(lastTimestamp)
    {
      CountSending(handed, Sending(r, ok));
      AddWrapped(Packets(handed), 1);
      AddWrapped(Octets(handed), |r.frame.bytes|);
      handed := handed + [Sending(r, ok)];
      if ok {
        lastTimestamp := r.frame.timestamp;
        pktCount := (pktCount + 1) % WRAP;
        octetCount := (octetCount + |r.frame.bytes|) % WRAP;
      }
    }
  }

  /** A call that is neither a reset nor made for this session. */
  predicate Foreign(call: Call, id: Id) {
    call != CReset && !ActsFor(EventOf(call), id)
  }

  /** Somebody else's call leaves this session where it is. */
  method PerformOther(p: Producer, call: Call, id: Id)
    requires p.Valid() && Allowed(p.Snap(), call) && id in p.cursors && !ActsFor(EventOf(call), id)
    modifies p
    ensures p.Valid() && id in p.cursors && old(p.contents.entries) <= p.contents.entries
    ensures call != CReset ==> p.contents.cursors[id] == old(p.contents.cursors[id])
    ensures AtStart(old(p.contents), id) ==> AtStart(p.contents, id)
  {
    StepMovesCursor(p.contents, EventOf(call), id);
    StartStays(p.contents, EventOf(call), id);
    var _ := Perform(p, call);
  }

  /** What others do to the queue between two calls of a callback, which takes the lock of the queue
      for each of them. */
  method Meanwhile(p: Producer, calls: seq<Call>, id: Id)
    requires p.Valid() && id in p.cursors && forall i :: 0 <= i < |calls| ==> Foreign(calls[i], id)
    modifies p
    ensures p.Valid() && id in p.cursors && old(p.contents.entries) <= p.contents.entries
    ensures p.contents.cursors[id] == old(p.contents.cursors[id])
  {
    var i := 0;
    while i < |calls| && Allowed(p.Snap(), calls[i])
      invariant i <= |calls| && p.Valid() && id in p.cursors && old(p.contents.entries) <= p.contents.entries
      invariant p.contents.cursors[id] == old(p.contents.cursors[id])
    {
      PerformOther(p, calls[i], id);
      i := i + 1;
    }
  }

  /** What others do during a callback: between the get and the move, and between the move and the
      second get. */
  datatype Interference = Interference(sending: seq<Call>, moving: seq<Call>)

  predicate ForeignAll(x: Interference, id: Id) {
    && (forall i :: 0 <= i < |x.sending| ==> Foreign(x.sending[i], id))
    && (forall i :: 0 <= i < |x.moving| ==> Foreign(x.moving[i], id))
  }

  /** rtp_write_cb: hands over the next buffer of the queue, if there is one; the timer is armed
      again except at the end of the resource. */
  method WriteCallback(s: RtpSession, p: Producer, ok: bool, endOfResource: bool, others: Interference)
    returns (rearmed: bool)
    requires s.Valid() && p.Valid() && s.id in p.cursors && ForeignAll(others, s.id)
    modifies s, p
    ensures s.Valid() && p.Valid() && s.id in p.cursors && old(p.contents.entries) <= p.contents.entries
    ensures var n := old(Next(p, s.id));
            if n < |old(p.contents.entries)| then
              && Next(p, s.id) == n + 1 && rearmed
              && s.handed == old(s.handed) + [Sending(Reading(p.contents.entries[n], old(p.contents).Serial(n)), ok)]
            else
              && Next(p, s.id) == n && rearmed == !endOfResource
              && s.handed == old(s.handed) && (AtStart(p.contents, s.id) <==> AtStart(old(p.contents), s.id))
  {
    GetKeepsPlace(p.contents, s.id);
    var reading := p.Get(s.id);
    if reading.None? {
      return !endOfResource;
    }
    s.PacketSend(reading.value, ok);
    Meanwhile(p, others.sending, s.id);
    MoveOn(s.id, p, others.moving);
    rearmed := true;
  }

  /** The end of rtp_write_cb: after a successful move there is a next buffer to look at, whatever
      others do before that. */
  method MoveOn(id: Id, p: Producer, others: seq<Call>)
    requires p.Valid() && id in p.cursors && p.contents.cursors[id].holding
    requires forall i :: 0 <= i < |others| ==> Foreign(others[i], id)
    modifies p
    ensures p.Valid() && id in p.cursors && old(p.contents.entries) <= p.contents.entries
    ensures p.contents.cursors[id].next == old(p.contents.cursors[id].next) + 1
  {
    LeaveAfterMove(p.contents, id);
    var moved := p.Move(id);
    if moved {
      Meanwhile(p, others, id);
      GetKeepsPlace(p.contents, id);
      var next := p.Get(id);
      assert next.Some?;
    }
  }

  // ---------------------------------------------------------------- runs of the writer

  /** What can happen while a session streams: its timer fires, or anybody else uses the queue. */
  datatype Tick =
    | Fire(ok: bool, endOfResource: bool, others: Interference)
    | Other(call: Call)

  /** Nobody else acts for this session, and nobody resets the queue. */
  predicate ForeignTick(tick: Tick, id: Id) {
    match tick
    case Fire(_, _, others) => ForeignAll(others, id)
    case Other(call) => Foreign(call, id)
  }

  /** Nobody else acts for this session; between callbacks the queue may be reset. */
  predicate StrangeTick(tick: Tick, id: Id) {
    match tick
    case Fire(_, _, others) => ForeignAll(others, id)
    case Other(call) => !ActsFor(EventOf(call), id)
  }

  /** What was handed over from the k-th packet on are the log entries n up to m. */
  ghost predicate HandedOver(handed: seq<Sending>, k: nat, entries: seq<Frame>, n: nat, m: nat) {
    && n <= m <= |entries| && |handed| == k + (m - n)
    && forall i :: n <= i < m ==> handed[k + (i - n)].reading.frame == entries[i]
  }

  /** A longer log has the same beginning. */
  lemma StayHandedOver(handed: seq<Sending>, k: nat, entries: seq<Frame>, n: nat, m: nat, more: seq<Frame>)
    requires HandedOver(handed, k, entries, n, m) && entries <= more
    ensures HandedOver(handed, k, more, n, m)
  {
  }

  /** One more packet is one more entry. */
  lemma HandOver(handed: seq<Sending>, k: nat, entries: seq<Frame>, n: nat, m: nat, more: seq<Frame>, x: Sending)
    requires HandedOver(handed, k, entries, n, m) && entries <= more && m < |more| && x.reading.frame == more[m]
    ensures HandedOver(handed + [x], k, more, n, m + 1)
  {
  }

  /** One tick of a run: nothing is handed over twice, skipped or taken back. */
  method StreamTick(s: RtpSession, p: Producer, tick: Tick, ghost k: nat, ghost n: nat)
    requires s.Valid() && p.Valid() && s.id in p.cursors
    requires ForeignTick(tick, s.id) && (tick.Other? ==> Allowed(p.Snap(), tick.call))
    requires HandedOver(s.handed, k, p.contents.entries, n, p.contents.cursors[s.id].next)
    modifies s, p
    ensures s.Valid() && p.Valid() && s.id in p.cursors && old(s.handed) <= s.handed
    ensures HandedOver(s.handed, k, p.contents.entries, n, p.contents.cursors[s.id].next)
  {
    ghost var handed, l := s.handed, p.contents;
    ghost var m := l.cursors[s.id].next;
    match tick {
      case Fire(ok, eor, others) =>
        var rearmed := WriteCallback(s, p, ok, eor, others);
        if m < |l.entries| {
          HandOver(handed, k, l.entries, n, m, p.contents.entries,
                   Sending(Reading(p.contents.entries[m], l.Serial(m)), ok));
        } else {
          StayHandedOver(handed, k, l.entries, n, m, p.contents.entries);
        }
      case Other(call) =>
        PerformOther(p, call, s.id);
        StayHandedOver(handed, k, l.entries, n, m, p.contents.entries);
    }
  }

  /** Over any run of callbacks between which anything but a reset may happen, the buffers handed
      to the transport are exactly the consecutive entries of the log from where the session
      stood: each once, in put order, across underruns. */
  method Stream(s: RtpSession, p: Producer, ticks: seq<Tick>) returns (done: nat)
    requires s.Valid() && p.Valid() && s.id in p.cursors
    requires forall i :: 0 <= i < |ticks| ==> ForeignTick(ticks[i], s.id)
    modifies s, p
    ensures s.Valid() && p.Valid() && s.id in p.cursors && done <= |ticks|
    ensures done < |ticks| ==> ticks[done].Other? && !Allowed(p.Snap(), ticks[done].call)
    ensures old(s.handed) <= s.handed
    ensures HandedOver(s.handed, |old(s.handed)|, p.contents.entries,
                       old(p.contents.cursors[s.id].next), p.contents.cursors[s.id].next)
  {
    done := 0;
    ghost var n := p.contents.cursors[s.id].next;
    ghost var k := |s.handed|;
    while done < |ticks| && (ticks[done].Fire? || Allowed(p.Snap(), ticks[done].call))
      invariant s.Valid() && p.Valid() && s.id in p.cursors && done <= |ticks| && old(s.handed) <= s.handed
      invariant HandedOver(s.handed, k, p.contents.entries, n, p.contents.cursors[s.id].next)
    {
      StreamTick(s, p, ticks[done], k, n);
      done := done + 1;
    }
  }

  /** r_seek: the queue of every track that has one starts again, whether the demuxer could seek
      or not. */
  method SeekTracks(tracks: seq<Producer?>)
    requires forall i :: 0 <= i < |tracks| && tracks[i] != null ==> tracks[i].Valid()
    requires forall i, j :: 0 <= i < j < |tracks| && tracks[i] != null ==> tracks[i] != tracks[j]
    modifies set i | 0 <= i < |tracks| && tracks[i] != null :: tracks[i]
    ensures forall i :: 0 <= i < |tracks| && tracks[i] != null ==>
              tracks[i].Valid() && tracks[i].contents == Reset(old(tracks[i].contents))
  {
    var k := 0;
    while k < |tracks|
      invariant 0 <= k <= |tracks|
      invariant forall i :: 0 <= i < |tracks| && tracks[i] != null ==> tracks[i].Valid()
      invariant forall i :: 0 <= i < k && tracks[i] != null ==> tracks[i].contents == Reset(old(tracks[i].contents))
      invariant forall i :: k <= i < |tracks| && tracks[i] != null ==> tracks[i].contents == old(tracks[i].contents)
    {
      if tracks[k] != null {
        tracks[k].ResetQueue();
        assert forall i :: 0 <= i < |tracks| && i != k ==> tracks[i] != tracks[k];
      }
      k := k + 1;
    }
  }

  /** PLAY seeks, which resets the queues of the tracks.  Whatever happens then, however often the
      writer of a track fires in vain, and whatever comes later, the first packet that it sends has
      the sequence number 1 that the RTP-Info header announces. */
  method FirstPacketAfterSeek(s: RtpSession, tracks: seq<Producer?>, t: nat, ticks: seq<Tick>) returns (done: nat)
    requires forall i :: 0 <= i < |tracks| && tracks[i] != null ==> tracks[i].Valid()
    requires forall i, j :: 0 <= i < j < |tracks| && tracks[i] != null ==> tracks[i] != tracks[j]
    requires t < |tracks| && tracks[t] != null && s.Valid() && s.id in tracks[t].cursors
    requires forall i :: 0 <= i < |ticks| ==> StrangeTick(ticks[i], s.id)
    modifies s, set i | 0 <= i < |tracks| && tracks[i] != null :: tracks[i]
    ensures s.Valid() && tracks[t].Valid() && done <= |ticks|
    ensures done < |ticks| ==> ticks[done].Other? && !Allowed(tracks[t].Snap(), ticks[done].call)
    ensures FirstIsOne(s.handed, old(s.handed))
  {
    SeekTracks(tracks);
    var p: Producer := tracks[t];
    done := FirstPacketFromStart(s, p, ticks);
  }

  /** The first packet handed over since `before`, if there is one, has the sequence number 1. */
  predicate FirstIsOne(handed: seq<Sending>, before: seq<Sending>) {
    before <= handed && (handed != before ==> handed[|before|].reading.seqNo == 1)
  }

  /** The same for any session that is at the start of a generation of its queue. */
  method FirstPacketFromStart(s: RtpSession, p: Producer, ticks: seq<Tick>) returns (done: nat)
    requires s.Valid() && p.Valid() && s.id in p.cursors && AtStart(p.contents, s.id)
    requires forall i :: 0 <= i < |ticks| ==> StrangeTick(ticks[i], s.id)
    modifies s, p
    ensures s.Valid() && p.Valid() && done <= |ticks|
    ensures done < |ticks| ==> ticks[done].Other? && !Allowed(p.Snap(), ticks[done].call)
    ensures FirstIsOne(s.handed, old(s.handed))
  {
    done := 0;
    while done < |ticks| && (ticks[done].Fire? || Allowed(p.Snap(), ticks[done].call))
      invariant s.Valid() && p.Valid() && s.id in p.cursors && done <= |ticks|
      invariant FirstIsOne(s.handed, old(s.handed))
      invariant s.handed == old(s.handed) ==> AtStart(p.contents, s.id)
    {
      StartTick(s, p, ticks[done], old(s.handed));
      done := done + 1;
    }
  }

  method StartTick(s: RtpSession, p: Producer, tick: Tick, ghost before: seq<Sending>)
    requires s.Valid() && p.Valid() && s.id in p.cursors
    requires StrangeTick(tick, s.id) && (tick.Other? ==> Allowed(p.Snap(), tick.call))
    requires FirstIsOne(s.handed, before) && (s.handed == before ==> AtStart(p.contents, s.id))
    modifies s, p
    ensures s.Valid() && p.Valid() && s.id in p.cursors
    ensures FirstIsOne(s.handed, before) && (s.handed == before ==> AtStart(p.contents, s.id))
  {
    match tick {
      case Fire(ok, eor, others) => var _ := WriteCallback(s, p, ok, eor, others);
      case Other(call) => PerformOther(p, call, s.id);
    }
  }
}
