/**
  RTCP compounds (rtcp.c, section 6.4.1 of RFC 3550): the sender reports that the server builds
  and the walk over what it receives.
  */
module Rtcp {
  import opened Common

  /** Packet types. */
  const SR: Byte := 200
  const RR: Byte := 201
  const SDES: Byte := 202
  const BYE: Byte := 203

  const CNAME: Byte := 1

  const HEADER: nat := 4
  const SR_SIZE: nat := 28
  /** The largest packet that a 16-bit count of 32-bit words can describe. */
  const MAX_PACKET: nat := 0x4_0000

  function Be16(n: nat): seq<Byte> {
    [(n / 256) % 256, n % 256]
  }

  function Be32(n: nat): seq<Byte> {
    Be16((n / 65536) % 65536) + Be16(n % 65536)
  }

  function Zeros(n: nat): (z: seq<Byte>)
    ensures |z| == n && forall i :: 0 <= i < n ==> z[i] == 0
  {
    seq(n, i => 0)
  }

  /** RTCP_header for a packet of `size` bytes: version 2, no padding, the length in words less one. */
  function Header(count: nat, packetType: Byte, size: nat): seq<Byte>
    requires count < 32 && 4 <= size
  {
    [128 + count, packetType] + Be16((size / 4 - 1) % 65536)
  }

  /** The fields of a sender report, as 32-bit values. */
  datatype Report = Report(ssrc: nat, ntpHigh: nat, ntpLow: nat, rtpTime: nat, packets: nat, octets: nat)

  function ReportBytes(r: Report): (s: seq<Byte>)
    ensures |s| == SR_SIZE
  {
    Header(0, SR, SR_SIZE) + (Be32(r.ssrc) + Be32(r.ntpHigh) + Be32(r.ntpLow)
                              + Be32(r.rtpTime) + Be32(r.packets) + Be32(r.octets))
  }

  /** What has to be added to fill the last word. */
  function Padding(size: nat): nat {
    if size % 4 == 0 then 0 else 4 - size % 4
  }

  /** The size of the payload packet with its padding. */
  function Padded(payload: seq<Byte>): nat {
    HEADER + |payload| + Padding(HEADER + |payload|)
  }

  /** The packet after the sender report, filled up to whole words. */
  function SecondPacket(packetType: Byte, payload: seq<Byte>): (s: seq<Byte>)
    ensures |s| == Padded(payload)
  {
    Header(1, packetType, Padded(payload)) + (payload + Zeros(Padding(HEADER + |payload|)))
  }

  /** A sender report followed by one more packet. */
  function Compound(r: Report, packetType: Byte, payload: seq<Byte>): (s: seq<Byte>)
    ensures |s| == SR_SIZE + Padded(payload)
  {
    ReportBytes(r) + SecondPacket(packetType, payload)
  }

  function SdesPayload(ssrc: nat, name: seq<Byte>): seq<Byte> {
    Be32(ssrc) + [CNAME, |name| % 256] + name
  }

  /** The reason is sent with its terminating zero; its length byte keeps the low byte of a
      number in network order, which is zero. */
  function ByePayload(ssrc: nat): seq<Byte> {
    Be32(ssrc) + [0] + Reason() + [0]
  }

  /** "The medium is over." */
  function Reason(): seq<Byte> {
    [84, 104, 101, 32, 109, 101, 100, 105, 117, 109, 32, 105, 115, 32, 111, 118, 101, 114, 46]
  }

  // ---------------------------------------------------------------- building

  /** memcpy into a buffer of which the first |pre| bytes are filled and the rest is zero. */
  method Fill(a: array<Byte>, ghost pre: seq<Byte>, at: nat, bytes: seq<Byte>)
    requires at == |pre| && at + |bytes| <= a.Length && a[..] == pre + Zeros(a.Length - at)
    modifies a
    ensures a[..] == pre + bytes + Zeros(a.Length - at - |bytes|)
  {
    var i := 0;
    while i < |bytes|
      invariant 0 <= i <= |bytes|
      invariant forall j :: 0 <= j < at ==> a[j] == pre[j]
      invariant forall j :: 0 <= j < i ==> a[at + j] == bytes[j]
      invariant forall j :: at + i <= j < a.Length ==> a[j] == 0
    {
      a[at + i] := bytes[i];
      i := i + 1;
    }
  }

  /** The size of the payload packet and of the compound, rounded up to words. */
  method Sizes(payload: seq<Byte>) returns (payloadSize: nat, size: nat)
    ensures payloadSize == Padded(payload) && size == SR_SIZE + payloadSize
  {
    payloadSize := HEADER + |payload|;
    size := SR_SIZE + payloadSize;
    if size % 4 != 0 {
      var padding := 4 - size % 4;
      payloadSize := payloadSize + padding;
      size := size + padding;
    }
  }

  /** rtcp_pkt_sr_sdes and rtcp_pkt_sr_bye: the buffer is zeroed and filled in. */
  method Build(r: Report, packetType: Byte, payload: seq<Byte>) returns (a: array<Byte>)
    ensures fresh(a) && a[..] == Compound(r, packetType, payload)
  {
    var payloadSize, size := Sizes(payload);
    a := new Byte[size](_ => 0);
    var header, report := Header(1, packetType, payloadSize), ReportBytes(r);
    assert a[..] == [] + Zeros(size);
    Fill(a, [], 0, report);
    assert [] + report == report;
    Fill(a, report, SR_SIZE, header);
    Fill(a, report + header, SR_SIZE + HEADER, payload);
    CompoundPieces(r, packetType, payload);
  }

  lemma CompoundPieces(r: Report, packetType: Byte, payload: seq<Byte>)
    ensures Compound(r, packetType, payload) ==
            ReportBytes(r) + Header(1, packetType, Padded(payload)) + payload + Zeros(Padding(HEADER + |payload|))
  {
  }

  // ---------------------------------------------------------------- walking

  /** A packet found in a buffer. */
  datatype Visit = Visit(start: nat, size: nat)

  /** The size that the header at `at` claims. */
  function Claimed(s: seq<Byte>, at: nat): nat
    requires at + 4 <= |s|
  {
    (s[at + 2] as int * 256 + s[at + 3] as int + 1) * 4
  }

  function Walk(s: seq<Byte>, at: nat): seq<Visit>
    requires at <= |s|
    decreases |s| - at
  {
    if |s| - at <= HEADER || Claimed(s, at) > |s| - at then []
    else [Visit(at, Claimed(s, at))] + Walk(s, at + Claimed(s, at))
  }

  /** Where the reading of a visited packet ends: sender and receiver reports are read up to the
      end of as many report blocks of 24 bytes as the header counts, starting behind the first source. */
  function ReadEnd(s: seq<Byte>, v: Visit): nat
    requires v.start + HEADER <= |s|
  {
    v.start + HEADER +
    if s[v.start + 1] == SR || s[v.start + 1] == RR then 4 + 24 * (s[v.start] as int % 32) else 0
  }

  /** parse_receiver_report */
  method ParseReports(packet: nat, count: nat) returns (end: nat)
    ensures end == packet + 4 + 24 * count
  {
    end := packet + 4;
    var left := count;
    while left > 0
      invariant 0 <= left <= count && end == packet + 4 + 24 * (count - left)
    {
      left := left - 1;
      end := end + 24;
    }
  }

  /** The visits whose reading stays inside the buffer. */
  predicate ReadInside(s: seq<Byte>, visits: seq<Visit>) {
    forall i :: 0 <= i < |visits| ==> visits[i].start + HEADER <= |s| && ReadEnd(s, visits[i]) <= |s|
  }

  lemma OneMoreVisit(s: seq<Byte>, visits: seq<Visit>, v: Visit)
    requires v.start + HEADER <= |s|
    ensures ReadInside(s, visits + [v]) <==> ReadInside(s, visits) && ReadEnd(s, v) <= |s|
  {
    var more := visits + [v];
    assert more[|visits|] == v && forall i :: 0 <= i < |visits| ==> more[i] == visits[i];
  }

  lemma WalkGoesOn(s: seq<Byte>, visits: seq<Visit>, at: nat)
    requires |s| - at > HEADER && Claimed(s, at) <= |s| - at
    ensures visits + Walk(s, at) == visits + [Visit(at, Claimed(s, at))] + Walk(s, at + Claimed(s, at))
  {
  }

  /** The switch on the packet type. */
  method ReadPacket(s: seq<Byte>, v: Visit) returns (end: nat)
    requires v.start + HEADER <= |s|
    ensures end == ReadEnd(s, v)
  {
    end := v.start + HEADER;
    if s[v.start + 1] == SR || s[v.start + 1] == RR {
      end := ParseReports(v.start + 4, s[v.start] as int % 32);
    }
  }

  /** rtcp_handle: the loop visits packet after packet while there are more than four bytes; `reach`
      is the end of the farthest byte that it reads. */
  method Handle(s: seq<Byte>) returns (visits: seq<Visit>, reach: nat)
    ensures visits == Walk(s, 0)
    ensures reach <= |s| <==> ReadInside(s, visits)
  {
    visits, reach := [], 0;
    var packet: nat, len: nat := 0, |s|;
    while len > HEADER
      invariant packet + len == |s| && visits + Walk(s, packet) == Walk(s, 0)
      invariant reach <= |s| <==> ReadInside(s, visits)
      decreases len
    {
      var size := (s[packet + 2] as int * 256 + s[packet + 3] as int + 1) * 4;
      reach := if reach < packet + HEADER then packet + HEADER else reach;
      if size > len {
        return;
      }
      var v := Visit(packet, size);
      assert size == Claimed(s, packet);
      var end := ReadPacket(s, v);
      reach := if reach < end then end else reach;
      OneMoreVisit(s, visits, v);
      WalkGoesOn(s, visits, packet);
      visits := visits + [v];
      len := len - size;
      packet := packet + size;
    }
  }

  /** Whatever the input, the packets visited follow one another from the start and lie inside the
      buffer. */
  lemma {:induction false} WalkStaysInside(s: seq<Byte>, at: nat, k: nat)
    requires at <= |s| && k < |Walk(s, at)|
    ensures var v := Walk(s, at);
            && 4 <= v[k].size && v[k].size % 4 == 0 && v[k].start + v[k].size <= |s|
            && v[k].start == (if k == 0 then at else v[k - 1].start + v[k - 1].size)
            && v[k].size == Claimed(s, v[k].start)
    decreases |s| - at
  {
    if k > 0 {
      WalkStaysInside(s, at + Claimed(s, at), k - 1);
    }
  }

  /** The walk ends only where at most a bare header is left, or where a packet claims more than
      there is. */
  lemma {:induction false} WalkStopsAtEnd(s: seq<Byte>, at: nat)
    requires at <= |s|
    ensures var v := Walk(s, at);
            var end := if v == [] then at else v[|v| - 1].start + v[|v| - 1].size;
            end <= |s| && (|s| - end <= HEADER || Claimed(s, end) > |s| - end)
    decreases |s| - at
  {
    if Walk(s, at) != [] {
      WalkStopsAtEnd(s, at + Claimed(s, at));
    }
  }

  lemma HeaderClaims(before: seq<Byte>, count: nat, packetType: Byte, size: nat, after: seq<Byte>)
    requires count < 32 && 4 <= size <= MAX_PACKET && size % 4 == 0
    ensures Claimed(before + (Header(count, packetType, size) + after), |before|) == size
  {
    var s := before + (Header(count, packetType, size) + after);
    var n := size / 4 - 1;
    assert s[|before| + 2] == n / 256 && s[|before| + 3] == n % 256;
  }

  lemma ReportClaims(r: Report, rest: seq<Byte>)
    ensures Claimed(ReportBytes(r) + rest, 0) == SR_SIZE
  {
    var s := ReportBytes(r) + rest;
    assert s[2] == 0 && s[3] == 6;
  }

  lemma SecondClaims(before: seq<Byte>, packetType: Byte, payload: seq<Byte>)
    requires Padded(payload) <= MAX_PACKET
    ensures Claimed(before + SecondPacket(packetType, payload), |before|) == Padded(payload)
  {
    HeaderClaims(before, 1, packetType, Padded(payload), payload + Zeros(Padding(HEADER + |payload|)));
  }

  lemma CompoundClaims(r: Report, packetType: Byte, payload: seq<Byte>)
    requires Padded(payload) <= MAX_PACKET
    ensures Claimed(Compound(r, packetType, payload), 0) == SR_SIZE
    ensures Claimed(Compound(r, packetType, payload), SR_SIZE) == Padded(payload)
  {
    ReportClaims(r, SecondPacket(packetType, payload));
    SecondClaims(ReportBytes(r), packetType, payload);
  }

  /** Walking a compound visits exactly its two packets, which tile it with less than four bytes
      of padding. */
  lemma WalkCompound(r: Report, packetType: Byte, payload: seq<Byte>)
    requires Padded(payload) <= MAX_PACKET && payload != []
    ensures Walk(Compound(r, packetType, payload), 0) == [Visit(0, SR_SIZE), Visit(SR_SIZE, Padded(payload))]
    ensures Padded(payload) % 4 == 0 && 0 <= Padded(payload) - (HEADER + |payload|) < 4
  {
    var s := Compound(r, packetType, payload);
    var size := Padded(payload);
    CompoundClaims(r, packetType, payload);
    assert Walk(s, |s|) == [];
    assert Walk(s, SR_SIZE) == [Visit(SR_SIZE, size)];
  }

  lemma SdesSize(ssrc: nat, name: seq<Byte>)
    ensures |SdesPayload(ssrc, name)| == 6 + |name|
    ensures Padded(SdesPayload(ssrc, name)) == 4 * ((|name| + 13) / 4)
  {
  }

  /** The report with the host name, for every name that a packet can hold. */
  lemma WalkSdes(r: Report, name: seq<Byte>)
    requires HEADER + 6 + |name| <= MAX_PACKET
    ensures var size := Padded(SdesPayload(r.ssrc, name));
            && Walk(Compound(r, SDES, SdesPayload(r.ssrc, name)), 0) == [Visit(0, SR_SIZE), Visit(SR_SIZE, size)]
            && size == 4 * ((|name| + 13) / 4)
  {
    SdesSize(r.ssrc, name);
    WalkCompound(r, SDES, SdesPayload(r.ssrc, name));
  }

  lemma WalkBye(r: Report)
    ensures Walk(Compound(r, BYE, ByePayload(r.ssrc)), 0) == [Visit(0, SR_SIZE), Visit(SR_SIZE, 32)]
  {
    assert |Reason()| == 19;
    WalkCompound(r, BYE, ByePayload(r.ssrc));
  }

  /** The reading of a report stays inside its own packet if and only if the packet has room for the
      blocks that it counts; only the last packets of a buffer can make the walk read behind it. */
  lemma ReadInsideIff(s: seq<Byte>, k: nat)
    requires k < |Walk(s, 0)|
    ensures var v := Walk(s, 0)[k];
            && 4 <= v.size && v.start + v.size <= |s|
            && var report := s[v.start + 1] == SR || s[v.start + 1] == RR;
            && (ReadEnd(s, v) <= v.start + v.size <==> (report ==> 8 + 24 * (s[v.start] as int % 32) <= v.size))
            && (ReadEnd(s, v) <= |s| <==> (report ==> 8 + 24 * (s[v.start] as int % 32) <= |s| - v.start))
  {
    WalkStaysInside(s, 0, k);
  }

  /** A receiver report of 8 bytes that counts one block is read up to byte 32. */
  lemma ReportReadsBehind(ssrc: nat)
    ensures var s := Header(1, RR, 8) + Be32(ssrc);
            Walk(s, 0) == [Visit(0, 8)] && ReadEnd(s, Visit(0, 8)) == 32 && !ReadInside(s, Walk(s, 0))
  {
    var s := Header(1, RR, 8) + Be32(ssrc);
    assert s == [] + (Header(1, RR, 8) + Be32(ssrc));
    HeaderClaims([], 1, RR, 8, Be32(ssrc));
    assert Walk(s, 8) == [];
    assert Walk(s, 0)[0] == Visit(0, 8);
  }

  /** What the server itself sends is read without leaving the buffer. */
  lemma CompoundReadInside(r: Report, packetType: Byte, payload: seq<Byte>)
    requires Padded(payload) <= MAX_PACKET && payload != [] && packetType != SR && packetType != RR
    ensures ReadInside(Compound(r, packetType, payload), Walk(Compound(r, packetType, payload), 0))
  {
    WalkCompound(r, packetType, payload);
    var s := Compound(r, packetType, payload);
    assert s[0] == 128 && s[SR_SIZE + 1] == packetType;
  }

  // ---------------------------------------------------------------- what is in the packets

  /** The number in four bytes, the highest one first. */
  function Number32(s: seq<Byte>, at: nat): nat
    requires at + 4 <= |s|
  {
    ((s[at] as int * 256 + s[at + 1] as int) * 256 + s[at + 2] as int) * 256 + s[at + 3] as int
  }

  lemma Split16(n: nat)
    ensures (n / 256) % 256 * 256 + n % 256 == n % 65536
  {
    var q, high, low := n / 65536, (n / 256) % 256, n % 256;
    assert n == 65536 * q + (256 * high + low);
  }

  /** What Be32 writes is the number modulo 2^32. */
  lemma Be32Number(n: nat)
    ensures Number32(Be32(n), 0) == n % 0x1_0000_0000
  {
    var high, low := (n / 65536) % 65536, n % 65536;
    Split16(high);
    Split16(low);
    Halves(n);
    assert Number32(Be32(n), 0) == high * 65536 + low;
  }

  lemma Halves(n: nat)
    ensures (n / 65536) % 65536 * 65536 + n % 65536 == n % 0x1_0000_0000
  {
    var q, r := (n / 65536) / 65536, (n / 65536) % 65536;
    assert n == 0x1_0000_0000 * q + (r * 65536 + n % 65536);
    Residue32(n, q, r * 65536 + n % 65536);
  }

  lemma Residue32(n: nat, q: nat, r: nat)
    requires r < 0x1_0000_0000 && n == 0x1_0000_0000 * q + r
    ensures n % 0x1_0000_0000 == r
  {
  }

  /** The header of a packet as the receiver sees it: version 2 in the two highest bits, no padding
      bit, the count in the five lowest, the type, and the length in words less one. */
  lemma HeaderFields(count: nat, packetType: Byte, size: nat)
    requires count < 32 && 4 <= size <= MAX_PACKET && size % 4 == 0
    ensures var h := Header(count, packetType, size);
            && |h| == 4 && h[0] / 64 == 2 && (h[0] / 32) % 2 == 0 && h[0] % 32 == count && h[1] == packetType
            && (h[2] as int * 256 + h[3] as int + 1) * 4 == size
  {
    assert Claimed([] + (Header(count, packetType, size) + []), 0) == size by {
      HeaderClaims([], count, packetType, size, []);
    }
    assert [] + (Header(count, packetType, size) + []) == Header(count, packetType, size);
  }

  /** The sender report: its six fields, in the order of section 6.4.1 of RFC 3550. */
  lemma ReportFields(r: Report)
    ensures var s := ReportBytes(r);
            && s[1] == 200
            && Number32(s, 4) == r.ssrc % 0x1_0000_0000
            && Number32(s, 8) == r.ntpHigh % 0x1_0000_0000
            && Number32(s, 12) == r.ntpLow % 0x1_0000_0000
            && Number32(s, 16) == r.rtpTime % 0x1_0000_0000
            && Number32(s, 20) == r.packets % 0x1_0000_0000
            && Number32(s, 24) == r.octets % 0x1_0000_0000
  {
    Be32Number(r.ssrc);
    Be32Number(r.ntpHigh);
    Be32Number(r.ntpLow);
    Be32Number(r.rtpTime);
    Be32Number(r.packets);
    Be32Number(r.octets);
    ReportPlaces(r);
  }

  lemma ReportPlaces(r: Report)
    ensures var s := ReportBytes(r);
            && s[4..8] == Be32(r.ssrc) && s[8..12] == Be32(r.ntpHigh) && s[12..16] == Be32(r.ntpLow)
            && s[16..20] == Be32(r.rtpTime) && s[20..24] == Be32(r.packets) && s[24..28] == Be32(r.octets)
  {
  }

  /** The compound: the report, a header for the second packet, its payload and zeros up to whole words. */
  lemma CompoundLayout(r: Report, packetType: Byte, payload: seq<Byte>)
    ensures var s := Compound(r, packetType, payload);
            && s[..28] == ReportBytes(r) && s[28] == 129 && s[29] == packetType
            && s[32..32 + |payload|] == payload
            && (forall i :: 32 + |payload| <= i < |s| ==> s[i] == 0)
  {
  }

  /** A source description names the source and its host; a goodbye the source and the reason. */
  lemma PayloadFields(ssrc: nat, name: seq<Byte>)
    ensures var d := SdesPayload(ssrc, name);
            && Number32(d, 0) == ssrc % 0x1_0000_0000 && d[4] == 1 && d[5] == |name| % 256 && d[6..] == name
    ensures var b := ByePayload(ssrc);
            && |b| == 25 && Number32(b, 0) == ssrc % 0x1_0000_0000 && b[4] == 0 && b[24] == 0
            && (forall i :: 0 <= i < 19 ==> b[5 + i] == "The medium is over."[i] as int)
  {
    Be32Number(ssrc);
  }
}
