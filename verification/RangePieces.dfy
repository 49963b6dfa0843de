/**
  Range headers with several parts behind semicolons (ragel_range.c): what each part comes to.  A time
  that is not finished is given up at the semicolon, but what has already been added to the sum
  stays there; "now" as a begin or an end refuses the header.
  */
module RangePieces {
  import opened Common
  import opened RangeTable
  import opened RangeParser

  /** A begin or an end that stops short: in its seconds, at the point or in the fraction behind them,
      at the first colon, in the minutes, at the second colon or in the seconds behind it; or "now"
      without the dash. */
  datatype Partial =
    | InSeconds(sec: seq<int>)
    | AtPoint(t: Time)
    | InFraction(t: Time)
    | AtHours(hours: seq<int>)
    | InMinutes(hours: seq<int>, minutes: seq<int>)
    | AtMinutes(hours: seq<int>, minutes: seq<int>)
    | InLast(hours: seq<int>, minutes: seq<int>, secs: seq<int>)
    | AtNow

  /** "now" */
  const NOW: seq<int> := [110, 111, 119]

  predicate ProperNumber(ds: seq<int>) {
    Digits(ds) && ds != []
  }

  predicate ProperPartial(g: Partial) {
    match g
    case InSeconds(sec) => ProperNumber(sec)
    case AtPoint(t) => Proper(t) && t.fraction == []
    case InFraction(t) => Proper(t) && t.fraction != []
    case AtHours(hours) => ProperNumber(hours)
    case InMinutes(hours, minutes) => ProperNumber(hours) && Sixty(minutes)
    case AtMinutes(hours, minutes) => ProperNumber(hours) && Sixty(minutes)
    case InLast(hours, minutes, secs) => ProperNumber(hours) && Sixty(minutes) && Sixty(secs)
    case AtNow => true
  }

  function PartialText(g: Partial): seq<int> {
    match g
    case InSeconds(sec) => sec
    case AtPoint(t) => WholeText(t) + [46]
    case InFraction(t) => Text(t, 46)
    case AtHours(hours) => hours + [58]
    case InMinutes(hours, minutes) => hours + [58] + minutes
    case AtMinutes(hours, minutes) => hours + [58] + minutes + [58]
    case InLast(hours, minutes, secs) => hours + [58] + minutes + [58] + secs
    case AtNow => NOW
  }

  /** What is given up has added to the sum. */
  function LeftBy(g: Partial): int {
    match g
    case InSeconds(sec) => 0
    case AtPoint(t) => WholeValue(t)
    case InFraction(t) => WholeValue(t)
    case AtHours(hours) => 3600 * Accumulate(0, hours)
    case InMinutes(hours, minutes) => 3600 * Accumulate(0, hours)
    case AtMinutes(hours, minutes) => 3600 * Accumulate(0, hours) + 60 * Accumulate(0, minutes)
    case InLast(hours, minutes, secs) => 3600 * Accumulate(0, hours) + 60 * Accumulate(0, minutes)
    case AtNow => 0
  }

  /** A begin or an end: not there, written out, given up, or "now". */
  datatype Half = Missing | Written(t: Time) | GivenUp(part: Partial) | Now

  /** One part of a header, from "npt=" to the semicolon or the end. A begin that is given up has no
      end. */
  datatype Piece = Piece(begin: Half, end: Half)

  predicate ProperHalf(h: Half) {
    match h
    case Missing => true
    case Written(t) => Proper(t)
    case GivenUp(g) => ProperPartial(g)
    case Now => true
  }

  /** The end of a range may come where its digits are; elsewhere it is given up. */
  predicate EndPartial(g: Partial) {
    g.AtPoint? || g.AtHours? || g.InMinutes? || g.AtMinutes?
  }

  predicate ProperPiece(piece: Piece) {
    && ProperHalf(piece.begin) && ProperHalf(piece.end)
    && (piece.begin.GivenUp? ==> piece.end.Missing?)
    && (piece.end.GivenUp? ==> EndPartial(piece.end.part))
  }

  function HalfText(h: Half): seq<int> {
    match h
    case Missing => []
    case Written(t) => Text(t, 46)
    case GivenUp(g) => PartialText(g)
    case Now => NOW
  }

  /** The text of a part and the mark behind it, a semicolon or the zero at the end of the header. */
  function PieceText(piece: Piece, mark: int): seq<int> {
    NPT + (HalfText(piece.begin) + (if piece.begin.GivenUp? then [mark] else [45] + (HalfText(piece.end) + [mark])))
  }

  predicate Mark(mark: int) {
    mark == 59 || mark == 0
  }

  /** The state behind a mark. */
  function After(mark: int): nat {
    if mark == 59 then 5 else 67
  }

  /** All parts, each with its semicolon. */
  function PiecesText(pieces: seq<Piece>): seq<int> {
    if pieces == [] then [] else PiecesText(pieces[..|pieces| - 1]) + PieceText(pieces[|pieces| - 1], 59)
  }

  // ---------------------------------------------------------------- what a header means

  /** What has been read so far: the sum, the range, and whether a range has been named. */
  datatype Meaning = Meaning(sum: real, range: Range, named: bool)

  function EndMeaning(m: Meaning, begun: bool, end: Half): Meaning {
    match end
    case Missing => m.(named := m.named || begun)
    case Written(t) => Meaning(0.0, m.range.(end := m.sum + Value(t)), true)
    case GivenUp(g) => m.(sum := m.sum + LeftBy(g) as real)
    case Now => m
  }

  function PieceMeaning(m: Meaning, piece: Piece): Meaning {
    match piece.begin
    case Missing => EndMeaning(m, false, piece.end)
    case Written(t) => EndMeaning(Meaning(0.0, m.range.(begin := m.sum + Value(t)), m.named), true, piece.end)
    case GivenUp(g) => m.(sum := m.sum + LeftBy(g) as real)
    case Now => m
  }

  function PiecesMeaning(range: Range, pieces: seq<Piece>): Meaning {
    if pieces == [] then Meaning(0.0, range, false)
    else PieceMeaning(PiecesMeaning(range, pieces[..|pieces| - 1]), pieces[|pieces| - 1])
  }

  predicate SaysNow(piece: Piece) {
    piece.begin.Now? || (piece.end.Now? && !piece.begin.GivenUp?)
  }

  predicate Means(s: Scanner, m: Meaning) {
    s.seconds == m.sum && s.range == m.range && s.supported == m.named && !s.rejected
  }

  // ---------------------------------------------------------------- what is given up

  /** A mark here ends nothing. */
  predicate Drops(cs: nat) {
    cs == 10 || cs == 12 || 14 <= cs <= 17 || 23 <= cs <= 25 || 27 <= cs <= 32 || cs == 35
  }

  lemma OnMarkLow(cs: nat, mark: int)
    requires (cs == 10 || cs == 12 || 14 <= cs <= 15) && Mark(mark)
    ensures Leads(cs, mark, To(After(mark), []))
  {
  }

  lemma OnMarkNext(cs: nat, mark: int)
    requires (16 <= cs <= 17 || 23 <= cs <= 24) && Mark(mark)
    ensures Leads(cs, mark, To(After(mark), []))
  {
  }

  lemma OnMarkMiddle(cs: nat, mark: int)
    requires (cs == 25 || 27 <= cs <= 28) && Mark(mark)
    ensures Leads(cs, mark, To(After(mark), []))
  {
  }

  lemma OnMarkHigh(cs: nat, mark: int)
    requires 29 <= cs <= 30 && Mark(mark)
    ensures Leads(cs, mark, To(After(mark), []))
  {
  }

  lemma OnMarkLast(cs: nat, mark: int)
    requires (31 <= cs <= 32 || cs == 35) && Mark(mark)
    ensures Leads(cs, mark, To(After(mark), []))
  {
  }

  lemma ReadDropped(s: Scanner, mark: int, clock: real)
    requires Drops(s.cs) && !s.rejected && Mark(mark)
    ensures Reads(s, [mark], s.(cs := After(mark)), clock)
  {
    if s.cs <= 15 {
      OnMarkLow(s.cs, mark);
    } else if s.cs <= 24 {
      OnMarkNext(s.cs, mark);
    } else if s.cs <= 28 {
      OnMarkMiddle(s.cs, mark);
    } else if s.cs <= 30 {
      OnMarkHigh(s.cs, mark);
    } else {
      OnMarkLast(s.cs, mark);
    }
    ReadsOne(s, mark, To(After(mark), []), s.(cs := After(mark)), clock);
  }

  lemma ReadHours(s: Scanner, hours: seq<int>, clock: real) returns (u: Scanner)
    requires AtTime(s.cs) && !s.rejected && ProperNumber(hours)
    ensures Reads(s, hours + [58], u, clock) && SameOutcome(s, u) && u.cs == Minutes(AtBegin(s.cs))
    ensures u.seconds == s.seconds + (3600 * Accumulate(0, hours)) as real
  {
    var begin := AtBegin(s.cs);
    ReadNumber(s, hours, clock);
    var v := s.(cs := Whole(begin), integer := Accumulate(0, hours));
    ReadColon(v, begin, clock);
    u := v.(cs := Minutes(begin), seconds := v.seconds + (v.integer * 3600) as real);
    ReadsBoth(s, hours, v, [58], u, hours + [58], clock);
  }

  lemma ReadHoursMinutes(s: Scanner, hours: seq<int>, minutes: seq<int>, clock: real) returns (u: Scanner)
    requires AtTime(s.cs) && !s.rejected && ProperNumber(hours) && Sixty(minutes)
    ensures Reads(s, hours + [58] + minutes, u, clock) && SameOutcome(s, u)
    ensures u.cs == AfterMinutes(AtBegin(s.cs), minutes) && u.integer == Accumulate(0, minutes)
    ensures u.seconds == s.seconds + (3600 * Accumulate(0, hours)) as real
  {
    var begin := AtBegin(s.cs);
    var v := ReadHours(s, hours, clock);
    ReadMinutes(v, begin, minutes, clock);
    u := v.(cs := AfterMinutes(begin, minutes), integer := Accumulate(0, minutes));
    ReadsBoth(s, hours + [58], v, minutes, u, hours + [58] + minutes, clock);
  }

  lemma ReadBothColons(s: Scanner, hours: seq<int>, minutes: seq<int>, clock: real) returns (u: Scanner)
    requires AtTime(s.cs) && !s.rejected && ProperNumber(hours) && Sixty(minutes)
    ensures Reads(s, hours + [58] + minutes + [58], u, clock) && SameOutcome(s, u) && u.cs == Seconds(AtBegin(s.cs))
    ensures u.seconds == s.seconds + (3600 * Accumulate(0, hours) + 60 * Accumulate(0, minutes)) as real
  {
    var begin := AtBegin(s.cs);
    var v := ReadHoursMinutes(s, hours, minutes, clock);
    ReadColon(v, begin, clock);
    u := v.(cs := Seconds(begin), seconds := v.seconds + (v.integer * 60) as real);
    ReadsBoth(s, hours + [58] + minutes, v, [58], u, hours + [58] + minutes + [58], clock);
  }

  lemma ReadToPoint(s: Scanner, t: Time, clock: real) returns (u: Scanner)
    requires AtTime(s.cs) && !s.rejected && Proper(t)
    ensures Reads(s, WholeText(t) + [46], u, clock) && SameOutcome(s, u) && u.cs == Dot(AtBegin(s.cs))
    ensures u.seconds == s.seconds + WholeValue(t) as real
  {
    var begin := AtBegin(s.cs);
    var v := ReadWholeTime(s, t, clock);
    ReadPoint(v, begin, 46, clock);
    u := v.(cs := Dot(begin), seconds := v.seconds + v.integer as real);
    ReadsBoth(s, WholeText(t), v, [46], u, WholeText(t) + [46], clock);
  }

  lemma ReadToFraction(s: Scanner, t: Time, clock: real) returns (u: Scanner)
    requires AtTime(s.cs) && !s.rejected && Proper(t) && t.fraction != []
    ensures Reads(s, Text(t, 46), u, clock) && SameOutcome(s, u) && u.cs == Fraction(AtBegin(s.cs))
    ensures u.seconds == s.seconds + WholeValue(t) as real
  {
    var begin := AtBegin(s.cs);
    var v := ReadToPoint(s, t, clock);
    ReadDecimals(v, begin, t.fraction, clock);
    u := v.(cs := Fraction(begin), num := Accumulate(0, t.fraction), den := Pow10(|t.fraction|));
    Regroup(WholeText(t), [46], t.fraction);
    ReadsBoth(s, WholeText(t) + [46], v, t.fraction, u, Text(t, 46), clock);
  }

  lemma ReadToLast(s: Scanner, hours: seq<int>, minutes: seq<int>, secs: seq<int>, clock: real) returns (u: Scanner)
    requires AtTime(s.cs) && !s.rejected && ProperNumber(hours) && Sixty(minutes) && Sixty(secs)
    ensures Reads(s, hours + [58] + minutes + [58] + secs, u, clock) && SameOutcome(s, u)
    ensures u.cs == AfterSeconds(AtBegin(s.cs), secs)
    ensures u.seconds == s.seconds + (3600 * Accumulate(0, hours) + 60 * Accumulate(0, minutes)) as real
  {
    var begin := AtBegin(s.cs);
    var v := ReadBothColons(s, hours, minutes, clock);
    ReadSeconds(v, begin, secs, clock);
    u := v.(cs := AfterSeconds(begin, secs), integer := Accumulate(0, secs));
    ReadsBoth(s, hours + [58] + minutes + [58], v, secs, u, hours + [58] + minutes + [58] + secs, clock);
  }

  lemma OnNow()
    ensures Leads(65, 110, To(66, [])) && Leads(9, 110, To(33, []))
    ensures Leads(66, 111, To(34, [])) && Leads(33, 111, To(34, []))
    ensures Leads(34, 119, To(35, []))
  {
  }

  /** "now" as a begin, up to its last letter. */
  lemma ReadNow(s: Scanner, clock: real)
    requires AtBegin(s.cs) && !s.rejected
    ensures Reads(s, NOW, s.(cs := 35), clock)
  {
    OnNow();
    var first := if s.cs == 65 then 66 else 33;
    var s1, s2, s3 := s.(cs := first), s.(cs := 34), s.(cs := 35);
    ReadsOne(s, 110, To(first, []), s1, clock);
    ReadsOne(s1, 111, To(34, []), s2, clock);
    ReadsOne(s2, 119, To(35, []), s3, clock);
    ReadsBoth(s, [110], s1, [111], s2, [110, 111], clock);
    ReadsBoth(s, [110, 111], s2, [119], s3, NOW, clock);
  }

  /** What a begin or an end that stops short has added to the sum when it stops. */
  lemma ReadPartial(s: Scanner, g: Partial, clock: real) returns (u: Scanner)
    requires AtTime(s.cs) && !s.rejected && ProperPartial(g) && (AtBegin(s.cs) || EndPartial(g))
    ensures Reads(s, PartialText(g), u, clock) && SameOutcome(s, u) && Drops(u.cs)
    ensures u.seconds == s.seconds + LeftBy(g) as real
  {
    match g
    case InSeconds(sec) =>
      ReadNumber(s, sec, clock);
      u := s.(cs := Whole(AtBegin(s.cs)), integer := Accumulate(0, sec));
    case AtPoint(t) => u := ReadToPoint(s, t, clock);
    case InFraction(t) => u := ReadToFraction(s, t, clock);
    case AtHours(hours) => u := ReadHours(s, hours, clock);
    case InMinutes(hours, minutes) => u := ReadHoursMinutes(s, hours, minutes, clock);
    case AtMinutes(hours, minutes) => u := ReadBothColons(s, hours, minutes, clock);
    case InLast(hours, minutes, secs) => u := ReadToLast(s, hours, minutes, secs, clock);
    case AtNow =>
      ReadNow(s, clock);
      u := s.(cs := 35);
  }

  lemma ReadGivenUp(s: Scanner, g: Partial, mark: int, clock: real) returns (u: Scanner)
    requires AtTime(s.cs) && !s.rejected && ProperPartial(g) && (AtBegin(s.cs) || EndPartial(g)) && Mark(mark)
    ensures Reads(s, PartialText(g) + [mark], u, clock) && SameOutcome(s, u) && u.cs == After(mark)
    ensures u.seconds == s.seconds + LeftBy(g) as real
  {
    var v := ReadPartial(s, g, clock);
    ReadDropped(v, mark, clock);
    u := v.(cs := After(mark));
    ReadsBoth(s, PartialText(g), v, [mark], u, PartialText(g) + [mark], clock);
  }

  // ---------------------------------------------------------------- ends that are taken

  lemma OnFractionMark(mark: int)
    requires Mark(mark)
    ensures Leads(Fraction(false), mark, To(After(mark), [7, 10, 11]))
  {
  }

  lemma OnWholeMark(mark: int)
    requires Mark(mark)
    ensures Leads(Whole(false), mark, To(After(mark), [4, 10, 11]))
  {
  }

  lemma OnSeconds1Mark(mark: int)
    requires Mark(mark)
    ensures Leads(Seconds1(false), mark, To(After(mark), [4, 10, 11]))
  {
  }

  lemma OnSeconds2Mark(mark: int)
    requires Mark(mark)
    ensures Leads(Seconds2(false), mark, To(After(mark), [4, 10, 11]))
  {
  }

  lemma OnOpenMark(mark: int)
    requires Mark(mark)
    ensures Leads(26, mark, To(After(mark), [11]))
  {
  }

  /** A mark behind the end of a range takes it. */
  lemma ReadEndTaken(s: Scanner, mark: int, clock: real) returns (u: Scanner)
    requires Waiting(s, false) && Mark(mark)
    ensures Reads(s, [mark], u, clock) && u.cs == After(mark)
    ensures Means(u, Meaning(0.0, s.range.(end := Pending(s, false)), true))
  {
    var first := if s.cs == Fraction(false) then 7 else 4;
    OnFractionMark(mark);
    OnWholeMark(mark);
    OnSeconds1Mark(mark);
    OnSeconds2Mark(mark);
    EndActs(s.(cs := After(mark)), false, first, mark, clock);
    assert [first] + [10, 11] == [first, 10, 11];
    u := Acts(s.(cs := After(mark)), [first, 10, 11], mark, clock);
    ReadsOne(s, mark, To(After(mark), [first, 10, 11]), u, clock);
  }

  lemma ReadEndMissing(s: Scanner, mark: int, clock: real) returns (u: Scanner)
    requires (s.cs == 26 || s.cs == 10) && !s.rejected && Mark(mark)
    ensures Reads(s, [mark], u, clock) && u == s.(cs := After(mark), supported := s.supported || s.cs == 26)
  {
    if s.cs == 26 {
      OnOpenMark(mark);
      u := s.(cs := After(mark), supported := true);
      assert u == Acts(s.(cs := After(mark)), [11], mark, clock);
      ReadsOne(s, mark, To(After(mark), [11]), u, clock);
    } else {
      ReadDropped(s, mark, clock);
      u := s.(cs := After(mark));
    }
  }

  /** What follows the dash, up to the mark. */
  lemma ReadEndHalf(s: Scanner, m: Meaning, end: Half, mark: int, clock: real) returns (u: Scanner)
    requires (s.cs == 26 || s.cs == 10) && Means(s, m) && ProperPiece(Piece(Missing, end)) && !end.Now? && Mark(mark)
    ensures Reads(s, HalfText(end) + [mark], u, clock) && u.cs == After(mark)
    ensures Means(u, EndMeaning(m, s.cs == 26, end))
  {
    match end
    case Missing =>
      assert [] + [mark] == [mark];
      u := ReadEndMissing(s, mark, clock);
    case Written(t) =>
      var v := ReadTime(s, t, 46, clock);
      u := ReadEndTaken(v, mark, clock);
      ReadsBoth(s, Text(t, 46), v, [mark], u, Text(t, 46) + [mark], clock);
    case GivenUp(g) => u := ReadGivenUp(s, g, mark, clock);
  }

  lemma OnBeginDash(cs: nat)
    requires AtBegin(cs)
    ensures Leads(cs, 45, To(10, []))
  {
  }

  /** What is known behind the dash. */
  function BeginMeaning(m: Meaning, begin: Half): Meaning {
    if begin.Written? then Meaning(0.0, m.range.(begin := m.sum + Value(begin.t)), m.named) else m
  }

  /** The begin of a range up to the dash. */
  lemma ReadBeginHalf(s: Scanner, m: Meaning, begin: Half, clock: real) returns (u: Scanner)
    requires AtBegin(s.cs) && Means(s, m) && (begin.Missing? || begin.Written?) && ProperHalf(begin)
    ensures Reads(s, HalfText(begin) + [45], u, clock) && u.cs == (if begin.Missing? then 10 else 26)
    ensures Means(u, BeginMeaning(m, begin))
  {
    if begin.Missing? {
      assert [] + [45] == [45];
      OnBeginDash(s.cs);
      u := s.(cs := 10);
      ReadsOne(s, 45, To(10, []), u, clock);
    } else {
      var t := begin.t;
      var v := ReadTime(s, t, 46, clock);
      ReadEnd(v, true, clock);
      u := v.(cs := 26, seconds := 0.0, range := v.range.(begin := Pending(v, true)));
      ReadsBoth(s, Text(t, 46), v, [45], u, Text(t, 46) + [45], clock);
    }
  }

  // ---------------------------------------------------------------- now

  lemma ReadsStopped(s: Scanner, text: seq<int>, clock: real)
    requires Stopped(s)
    ensures Reads(s, text, s, clock)
  {
    forall rest: seq<int> ensures Scan(s, text + rest, clock) == Scan(s, rest, clock) {
    }
  }

  lemma OnNowDash()
    ensures Leads(35, 45, To(26, [8, 9]))
  {
  }

  lemma OnEndNow()
    ensures Leads(26, 110, To(20, [11])) && Leads(10, 110, To(20, []))
    ensures Leads(20, 111, To(21, [])) && Leads(21, 119, To(22, []))
  {
  }

  lemma OnEndNowMark(mark: int)
    requires Mark(mark)
    ensures Leads(22, mark, To(After(mark), [8, 10, 11]))
  {
  }

  /** "now-" as a begin refuses the header. */
  lemma ReadNowDash(s: Scanner, clock: real) returns (u: Scanner)
    requires AtBegin(s.cs) && !s.rejected
    ensures Reads(s, NOW + [45], u, clock) && u.rejected && u.range == s.range
  {
    ReadNow(s, clock);
    OnNowDash();
    var v := s.(cs := 35);
    u := s.(cs := 26, rejected := true);
    assert u == Acts(v.(cs := 26), [8, 9], 45, clock);
    ReadsOne(v, 45, To(26, [8, 9]), u, clock);
    ReadsBoth(s, NOW, v, [45], u, NOW + [45], clock);
  }

  /** So does "now" as an end that a mark finishes. */
  lemma ReadEndNow(s: Scanner, mark: int, clock: real) returns (u: Scanner)
    requires (s.cs == 26 || s.cs == 10) && !s.rejected && Mark(mark)
    ensures Reads(s, NOW + [mark], u, clock) && u.rejected && u.range == s.range
  {
    OnEndNow();
    OnEndNowMark(mark);
    var s1 := s.(cs := 20, supported := s.supported || s.cs == 26);
    var s2, s3 := s1.(cs := 21), s1.(cs := 22);
    var acts := if s.cs == 26 then [11] else [];
    assert s1 == Acts(s.(cs := 20), acts, 110, clock);
    ReadsOne(s, 110, To(20, acts), s1, clock);
    ReadsOne(s1, 111, To(21, []), s2, clock);
    ReadsOne(s2, 119, To(22, []), s3, clock);
    u := s3.(cs := After(mark), rejected := true);
    assert u == Acts(s3.(cs := After(mark)), [8, 10, 11], mark, clock);
    ReadsOne(s3, mark, To(After(mark), [8, 10, 11]), u, clock);
    ReadsBoth(s, [110], s1, [111], s2, [110, 111], clock);
    ReadsBoth(s, [110, 111], s2, [119], s3, NOW, clock);
    ReadsBoth(s, NOW, s3, [mark], u, NOW + [mark], clock);
  }

  // ---------------------------------------------------------------- whole parts

  lemma OnNextPrefix()
    ensures Leads(5, 110, To(6, [])) && Leads(6, 112, To(7, []))
    ensures Leads(7, 116, To(8, [])) && Leads(8, 61, To(9, []))
  {
  }

  lemma ReadNextPrefix(s: Scanner, clock: real)
    requires s.cs == 5 && !s.rejected
    ensures Reads(s, NPT, s.(cs := 9), clock)
  {
    OnNextPrefix();
    var s2, s3, s4, s5 := s.(cs := 6), s.(cs := 7), s.(cs := 8), s.(cs := 9);
    ReadsOne(s, 110, To(6, []), s2, clock);
    ReadsOne(s2, 112, To(7, []), s3, clock);
    ReadsOne(s3, 116, To(8, []), s4, clock);
    ReadsOne(s4, 61, To(9, []), s5, clock);
    ReadsBoth(s, [110], s2, [112], s3, [110, 112], clock);
    ReadsBoth(s, [110, 112], s3, [116], s4, [110, 112, 116], clock);
    ReadsBoth(s, [110, 112, 116], s4, [61], s5, NPT, clock);
  }

  /** "npt=" at the beginning of a header or behind a semicolon. */
  lemma ReadNpt(s: Scanner, clock: real) returns (u: Scanner)
    requires (s.cs == 1 || s.cs == 5) && !s.rejected
    ensures Reads(s, NPT, u, clock) && AtBegin(u.cs) && u == s.(cs := u.cs)
  {
    if s.cs == 1 {
      ReadPrefix(s, clock);
      u := s.(cs := 65);
    } else {
      ReadNextPrefix(s, clock);
      u := s.(cs := 9);
    }
  }

  lemma Regroup(a: seq<int>, b: seq<int>, c: seq<int>)
    ensures a + b + c == a + (b + c)
  {
  }

  /** A part that says no "now" comes to what it means. */
  lemma ReadPiece(s: Scanner, m: Meaning, piece: Piece, mark: int, clock: real) returns (u: Scanner)
    requires (s.cs == 1 || s.cs == 5) && Means(s, m) && ProperPiece(piece) && !SaysNow(piece) && Mark(mark)
    ensures Reads(s, PieceText(piece, mark), u, clock) && u.cs == After(mark) && Means(u, PieceMeaning(m, piece))
  {
    var v := ReadNpt(s, clock);
    var rest := if piece.begin.GivenUp? then [mark] else [45] + (HalfText(piece.end) + [mark]);
    if piece.begin.GivenUp? {
      u := ReadGivenUp(v, piece.begin.part, mark, clock);
    } else {
      var w := ReadBeginHalf(v, m, piece.begin, clock);
      u := ReadEndHalf(w, BeginMeaning(m, piece.begin), piece.end, mark, clock);
      Regroup(HalfText(piece.begin), [45], HalfText(piece.end) + [mark]);
      ReadsBoth(v, HalfText(piece.begin) + [45], w, HalfText(piece.end) + [mark], u, HalfText(piece.begin) + rest, clock);
    }
    ReadsBoth(s, NPT, v, HalfText(piece.begin) + rest, u, PieceText(piece, mark), clock);
  }

  /** One that says "now" refuses the header. */
  lemma ReadNowPiece(s: Scanner, m: Meaning, piece: Piece, mark: int, clock: real) returns (u: Scanner)
    requires (s.cs == 1 || s.cs == 5) && Means(s, m) && ProperPiece(piece) && SaysNow(piece) && Mark(mark)
    ensures Reads(s, PieceText(piece, mark), u, clock) && u.rejected
  {
    var v := ReadNpt(s, clock);
    var end := HalfText(piece.end) + [mark];
    var w;
    if piece.begin.Now? {
      w := ReadNowDash(v, clock);
      ReadsStopped(w, end, clock);
      u := w;
    } else {
      w := ReadBeginHalf(v, m, piece.begin, clock);
      u := ReadEndNow(w, mark, clock);
    }
    Regroup(HalfText(piece.begin), [45], end);
    ReadsBoth(v, HalfText(piece.begin) + [45], w, end, u, HalfText(piece.begin) + ([45] + end), clock);
    ReadsBoth(s, NPT, v, HalfText(piece.begin) + ([45] + end), u, PieceText(piece, mark), clock);
  }

  predicate AnyNow(pieces: seq<Piece>) {
    exists i :: 0 <= i < |pieces| && SaysNow(pieces[i])
  }

  lemma AnyNowLast(pieces: seq<Piece>)
    requires pieces != []
    ensures AnyNow(pieces) <==> AnyNow(pieces[..|pieces| - 1]) || SaysNow(pieces[|pieces| - 1])
  {
    var front := pieces[..|pieces| - 1];
    if AnyNow(front) {
      var i :| 0 <= i < |front| && SaysNow(front[i]);
      assert SaysNow(pieces[i]);
    }
    if AnyNow(pieces) {
      var i :| 0 <= i < |pieces| && SaysNow(pieces[i]);
      assert i < |front| ==> SaysNow(front[i]);
    }
  }

  lemma {:induction false} ReadPieces(range: Range, pieces: seq<Piece>, clock: real) returns (u: Scanner)
    requires forall i :: 0 <= i < |pieces| ==> ProperPiece(pieces[i])
    ensures Reads(Fresh(range), PiecesText(pieces), u, clock)
    ensures AnyNow(pieces) ==> u.rejected
    ensures !AnyNow(pieces) ==> Means(u, PiecesMeaning(range, pieces)) && u.cs == if pieces == [] then 1 else 5
    decreases |pieces|
  {
    if pieces == [] {
      u := Fresh(range);
      ReadsNothing(u, PiecesText(pieces), u, clock);
    } else {
      var k := |pieces| - 1;
      AnyNowLast(pieces);
      var v := ReadPieces(range, pieces[..k], clock);
      u := ReadMore(v, PiecesMeaning(range, pieces[..k]), AnyNow(pieces[..k]), pieces[k], 59, clock);
      ReadsBoth(Fresh(range), PiecesText(pieces[..k]), v, PieceText(pieces[k], 59), u, PiecesText(pieces), clock);
    }
  }

  lemma ReadMore(v: Scanner, m: Meaning, now: bool, piece: Piece, mark: int, clock: real) returns (u: Scanner)
    requires ProperPiece(piece) && Mark(mark)
    requires if now then v.rejected else Means(v, m) && (v.cs == 1 || v.cs == 5)
    ensures Reads(v, PieceText(piece, mark), u, clock)
    ensures now || SaysNow(piece) ==> u.rejected
    ensures !now && !SaysNow(piece) ==> Means(u, PieceMeaning(m, piece)) && u.cs == After(mark)
  {
    if now {
      ReadsStopped(v, PieceText(piece, mark), clock);
      u := v;
    } else if SaysNow(piece) {
      u := ReadNowPiece(v, m, piece, mark, clock);
    } else {
      u := ReadPiece(v, m, piece, mark, clock);
    }
  }

  // ---------------------------------------------------------------- whole headers

  /** Parts behind semicolons, without one behind the last. */
  function HeaderText(pieces: seq<Piece>): seq<int>
    requires pieces != []
  {
    var k := |pieces| - 1;
    var last := PieceText(pieces[k], 0);
    PiecesText(pieces[..k]) + last[..|last| - 1]
  }

  lemma LastMark(piece: Piece)
    ensures var t := PieceText(piece, 0); t != [] && t[..|t| - 1] + [0] == t
  {
  }

  /** A part that names a range: a begin is written and an end is written too or not there, or only an
      end is written. */
  predicate Names(piece: Piece) {
    || (piece.begin.Written? && (piece.end.Missing? || piece.end.Written?))
    || (piece.begin.Missing? && piece.end.Written?)
  }

  predicate AnyNames(pieces: seq<Piece>) {
    exists i :: 0 <= i < |pieces| && Names(pieces[i])
  }

  lemma AnyNamesLast(pieces: seq<Piece>)
    requires pieces != []
    ensures AnyNames(pieces) <==> AnyNames(pieces[..|pieces| - 1]) || Names(pieces[|pieces| - 1])
  {
    var front := pieces[..|pieces| - 1];
    if AnyNames(front) {
      var i :| 0 <= i < |front| && Names(front[i]);
      assert Names(pieces[i]);
    }
    if AnyNames(pieces) {
      var i :| 0 <= i < |pieces| && Names(pieces[i]);
      assert i < |front| ==> Names(front[i]);
    }
  }

  lemma {:induction false} NamedIff(range: Range, pieces: seq<Piece>)
    requires !AnyNow(pieces)
    ensures PiecesMeaning(range, pieces).named <==> AnyNames(pieces)
    decreases |pieces|
  {
    if pieces != [] {
      AnyNowLast(pieces);
      AnyNamesLast(pieces);
      NamedIff(range, pieces[..|pieces| - 1]);
    }
  }

  /** A header of any parts is accepted if and only if none of them says "now" and one of them names a
      range; it is then read as its parts mean. */
  lemma {:induction false} AcceptedIff(range: Range, pieces: seq<Piece>, clock: real)
    requires pieces != [] && forall i :: 0 <= i < |pieces| ==> ProperPiece(pieces[i])
    ensures var parsed := Parse(HeaderText(pieces), range, clock);
            && (parsed.ok <==> !AnyNow(pieces) && AnyNames(pieces))
            && (!AnyNow(pieces) ==> parsed.range == PiecesMeaning(range, pieces).range)
  {
    var k := |pieces| - 1;
    AnyNowLast(pieces);
    var v := ReadPieces(range, pieces[..k], clock);
    var u := ReadMore(v, PiecesMeaning(range, pieces[..k]), AnyNow(pieces[..k]), pieces[k], 0, clock);
    var last := PieceText(pieces[k], 0);
    LastMark(pieces[k]);
    Regroup(PiecesText(pieces[..k]), last[..|last| - 1], [0]);
    ParseReads(HeaderText(pieces), range, PiecesText(pieces[..k]), v, last, u, clock);
    if !AnyNow(pieces) {
      NamedIff(range, pieces);
    }
  }

  /** "npt=now-" is refused whatever follows, and leaves the range alone. */
  lemma NowRefused(range: Range, rest: seq<int>, clock: real)
    ensures Parse(NPT + (NOW + [45]) + rest, range, clock) == Parsed(false, range)
  {
    var v := ReadNpt(Fresh(range), clock);
    var u := ReadNowDash(v, clock);
    ReadsBoth(Fresh(range), NPT, v, NOW + [45], u, NPT + (NOW + [45]), clock);
    ReadsStopped(u, rest + [0], clock);
    Regroup(NPT + (NOW + [45]), rest, [0]);
    ParseReads(NPT + (NOW + [45]) + rest, range, NPT + (NOW + [45]), u, rest + [0], u, clock);
  }

  // ---------------------------------------------------------------- the last time written

  /** A time is written out in this part, so that the sum starts anew behind it. */
  predicate Takes(piece: Piece) {
    piece.begin.Written? || (piece.begin.Missing? && piece.end.Written?)
  }

  /** The value of what is given up in this part is zero. */
  predicate LeavesNothing(piece: Piece) {
    && (piece.begin.GivenUp? ==> LeftBy(piece.begin.part) == 0)
    && (piece.end.GivenUp? ==> LeftBy(piece.end.part) == 0)
  }

  /** Every time given up since the last one taken has the value zero. */
  predicate NothingLeft(pieces: seq<Piece>) {
    pieces == [] ||
    (var k := |pieces| - 1; LeavesNothing(pieces[k]) && (Takes(pieces[k]) || NothingLeft(pieces[..k])))
  }

  lemma LeftNotNegative(g: Partial)
    requires ProperPartial(g)
    ensures LeftBy(g) >= 0
  {
    match g
    case InSeconds(sec) =>
    case AtPoint(t) => WholeNotNegative(t);
    case InFraction(t) => WholeNotNegative(t);
    case AtHours(hours) => AccumulateNotNegative(0, hours);
    case InMinutes(hours, minutes) => AccumulateNotNegative(0, hours);
    case AtMinutes(hours, minutes) =>
      AccumulateNotNegative(0, hours);
      AccumulateNotNegative(0, minutes);
    case InLast(hours, minutes, secs) =>
      AccumulateNotNegative(0, hours);
      AccumulateNotNegative(0, minutes);
    case AtNow =>
  }

  lemma WholeNotNegative(t: Time)
    requires Proper(t)
    ensures WholeValue(t) >= 0
  {
    match t
    case Sec(sec, _) => AccumulateNotNegative(0, sec);
    case Hms(hours, minutes, secs, _) =>
      AccumulateNotNegative(0, hours);
      AccumulateNotNegative(0, minutes);
      AccumulateNotNegative(0, secs);
  }

  lemma {:induction false} SumIsZeroIff(range: Range, pieces: seq<Piece>)
    requires (forall i :: 0 <= i < |pieces| ==> ProperPiece(pieces[i])) && !AnyNow(pieces)
    ensures var sum := PiecesMeaning(range, pieces).sum;
            sum >= 0.0 && (sum == 0.0 <==> NothingLeft(pieces))
    decreases |pieces|
  {
    if pieces != [] {
      var k := |pieces| - 1;
      AnyNowLast(pieces);
      SumIsZeroIff(range, pieces[..k]);
      if pieces[k].begin.GivenUp? {
        LeftNotNegative(pieces[k].begin.part);
      } else if pieces[k].end.GivenUp? {
        LeftNotNegative(pieces[k].end.part);
      }
    }
  }

  /** A header of any parts without "now" that ends with "npt=t-" is accepted.  The begin that is taken
      is the last time written, t, if and only if every time given up since the last one taken has
      the value zero; otherwise these are added to it. */
  lemma {:induction false} LastTimeIff(range: Range, front: seq<Piece>, t: Time, clock: real)
    requires (forall i :: 0 <= i < |front| ==> ProperPiece(front[i])) && !AnyNow(front) && Proper(t)
    ensures var parsed := Parse(PiecesText(front) + (NPT + (Text(t, 46) + [45])), range, clock);
            && parsed.ok && parsed.range.begin == PiecesMeaning(range, front).sum + Value(t)
            && (parsed.range.begin == Value(t) <==> NothingLeft(front))
  {
    var last := Piece(Written(t), Missing);
    var pieces := front + [last];
    assert pieces[..|front|] == front && Names(pieces[|front|]);
    AnyNowLast(pieces);
    AcceptedIff(range, pieces, clock);
    LastText(front, t);
    SumIsZeroIff(range, front);
  }

  lemma LastText(front: seq<Piece>, t: Time)
    ensures HeaderText(front + [Piece(Written(t), Missing)]) == PiecesText(front) + (NPT + (Text(t, 46) + [45]))
  {
    var last := PieceText(Piece(Written(t), Missing), 0);
    assert (front + [Piece(Written(t), Missing)])[..|front|] == front;
    assert last == NPT + (Text(t, 46) + [45]) + [0];
    assert last[..|last| - 1] == NPT + (Text(t, 46) + [45]);
  }

  /** "npt=5.;npt=3-" is accepted with the begin 8. */
  lemma AbortedTimeLeaks(range: Range, clock: real)
    ensures PiecesText([Piece(GivenUp(AtPoint(Sec([53], []))), Missing)]) == NPT + [53, 46, 59]
    ensures Parse(NPT + [53, 46, 59] + (NPT + [51, 45]), range, clock).range.begin == 8.0
  {
    var piece := Piece(GivenUp(AtPoint(Sec([53], []))), Missing);
    var three := Sec([51], []);
    assert [53][1..] == [] && [51][1..] == [];
    assert Accumulate(0, [53]) == 5 && Accumulate(0, [51]) == 3 && Pow10(0) == 1;
    assert Value(three) == 3.0 && LeftBy(piece.begin.part) == 5;
    assert [piece][..0] == [] && PiecesMeaning(range, [piece]).sum == 5.0;
    assert PiecesText([piece]) == [] + PieceText(piece, 59);
    LastTimeIff(range, [piece], three, clock);
    assert Text(three, 46) + [45] == [51, 45];
  }
}
