/**
  The "time=" stamp behind a range (section 12.29 of RFC 2326, ragel_range.c): a date and a time of
  day without separators.
  */
module RangeStamps {
  import opened Common
  import opened RangeTable
  import opened RangeParser
  import opened RangePieces

  predicate Two(ds: seq<int>) {
    |ds| == 2 && Digit(ds[0]) && Digit(ds[1])
  }

  /** Year, month and day, hour, minute and second, as digits in the ranges that the automaton allows;
      it does not allow the month 10. */
  datatype Stamp = Stamp(year: seq<int>, month: seq<int>, day: seq<int>, hour: seq<int>, minute: seq<int>, second: seq<int>)

  predicate ProperStamp(t: Stamp) {
    && |t.year| == 4 && Digits(t.year)
    && Two(t.month) && (t.month[0] == 48 || (t.month[0] == 49 && 49 <= t.month[1] <= 50))
    && Two(t.day) && (t.day[0] <= 50 || (t.day[0] == 51 && t.day[1] <= 49))
    && Two(t.hour) && (t.hour[0] <= 49 || (t.hour[0] == 50 && t.hour[1] <= 51))
    && Two(t.minute) && t.minute[0] <= 53
    && Two(t.second) && t.second[0] <= 53
  }

  /** "time=" */
  const TIME: seq<int> := [116, 105, 109, 101, 61]

  function StampText(t: Stamp): seq<int> {
    TIME + (t.year + (t.month + (t.day + ([84] + (t.hour + (t.minute + (t.second + [90])))))))
  }

  /** These actions work on the fields of the stamp only, which are not kept. */
  predicate FieldsOnly(actions: seq<nat>) {
    actions == [] || (|actions| == 1 && 12 <= actions[0] <= 18)
  }

  lemma ReadsField(s: Scanner, c: int, target: nat, actions: seq<nat>, clock: real)
    requires !Stopped(s) && FieldsOnly(actions) && Leads(s.cs, c, To(target, actions))
    ensures Reads(s, [c], s.(cs := target), clock)
  {
    assert Acts(s.(cs := target), actions, c, clock) == s.(cs := target);
    ReadsOne(s, c, To(target, actions), s.(cs := target), clock);
  }

  lemma OnTime()
    ensures Leads(5, 116, To(36, [])) && Leads(36, 105, To(37, []))
  {
  }

  lemma OnTimeEnd()
    ensures Leads(37, 109, To(38, [])) && Leads(38, 101, To(39, [])) && Leads(39, 61, To(40, []))
  {
  }

  lemma OnYear(c: int)
    requires Digit(c)
    ensures Leads(40, c, To(41, [12])) && Leads(41, c, To(42, []))
  {
  }

  lemma OnYearEnd(c: int)
    requires Digit(c)
    ensures Leads(42, c, To(43, [])) && Leads(43, c, To(44, [13]))
  {
  }

  lemma OnMonth(c: int)
    requires c == 48 || c == 49
    ensures Leads(44, c, To(if c == 48 then 45 else 61, []))
  {
  }

  lemma OnMonthEnd(c: int)
    requires Digit(c)
    ensures Leads(45, c, To(46, [14])) && (49 <= c <= 50 ==> Leads(61, c, To(46, [14])))
  {
  }

  lemma OnDay(c: int)
    requires 48 <= c <= 51
    ensures Leads(46, c, To(if c <= 50 then 47 else 60, []))
  {
  }

  lemma OnDayEnd(c: int)
    requires Digit(c)
    ensures Leads(47, c, To(48, [15])) && (c <= 49 ==> Leads(60, c, To(48, [15])))
  {
  }

  lemma OnHour(c: int)
    requires 48 <= c <= 50
    ensures Leads(49, c, To(if c <= 49 then 50 else 59, []))
  {
  }

  lemma OnHourEnd(c: int)
    requires Digit(c)
    ensures Leads(50, c, To(51, [16])) && (c <= 51 ==> Leads(59, c, To(51, [16])))
  {
  }

  lemma OnMinute(c: int)
    requires Digit(c)
    ensures (c <= 53 ==> Leads(51, c, To(52, []))) && Leads(52, c, To(53, [17]))
  {
  }

  lemma OnSecond(c: int)
    requires Digit(c)
    ensures (c <= 53 ==> Leads(53, c, To(54, []))) && Leads(54, c, To(55, [18]))
  {
  }

  lemma OnLetters()
    ensures Leads(48, 84, To(49, [])) && Leads(55, 90, To(58, []))
    ensures Leads(58, 0, To(67, [19]))
  {
  }

  lemma OnStampSemicolon()
    ensures Leads(58, 59, To(5, []))
  {
  }

  lemma ReadTwo(s: Scanner, ds: seq<int>, middle: nat, target: nat, a: seq<nat>, b: seq<nat>, clock: real)
    requires |ds| == 2 && !Stopped(s) && middle != 0 && FieldsOnly(a) && FieldsOnly(b)
    requires Leads(s.cs, ds[0], To(middle, a)) && Leads(middle, ds[1], To(target, b))
    ensures Reads(s, ds, s.(cs := target), clock)
  {
    ReadsField(s, ds[0], middle, a, clock);
    ReadsField(s.(cs := middle), ds[1], target, b, clock);
    ReadsBoth(s, [ds[0]], s.(cs := middle), [ds[1]], s.(cs := target), ds, clock);
  }

  lemma ReadTimeEquals(s: Scanner, clock: real)
    requires s.cs == 5 && !s.rejected
    ensures Reads(s, TIME, s.(cs := 40), clock)
  {
    OnTime();
    OnTimeEnd();
    ReadTwo(s, [116, 105], 36, 37, [], [], clock);
    ReadTwo(s.(cs := 37), [109, 101], 38, 39, [], [], clock);
    ReadsField(s.(cs := 39), 61, 40, [], clock);
    ReadsBoth(s, [116, 105], s.(cs := 37), [109, 101], s.(cs := 39), [116, 105, 109, 101], clock);
    ReadsBoth(s, [116, 105, 109, 101], s.(cs := 39), [61], s.(cs := 40), TIME, clock);
  }

  lemma ReadYear(s: Scanner, year: seq<int>, clock: real)
    requires s.cs == 40 && !s.rejected && |year| == 4 && Digits(year)
    ensures Reads(s, year, s.(cs := 44), clock)
  {
    OnYear(year[0]);
    OnYear(year[1]);
    OnYearEnd(year[2]);
    OnYearEnd(year[3]);
    ReadTwo(s, year[..2], 41, 42, [12], [], clock);
    ReadTwo(s.(cs := 42), year[2..], 43, 44, [], [13], clock);
    ReadsBoth(s, year[..2], s.(cs := 42), year[2..], s.(cs := 44), year, clock);
  }

  lemma ReadDate(s: Scanner, t: Stamp, clock: real)
    requires s.cs == 44 && !s.rejected && ProperStamp(t)
    ensures Reads(s, t.month, s.(cs := 46), clock)
    ensures Reads(s.(cs := 46), t.day, s.(cs := 48), clock)
  {
    OnMonth(t.month[0]);
    OnMonthEnd(t.month[1]);
    OnDay(t.day[0]);
    OnDayEnd(t.day[1]);
    ReadTwo(s, t.month, if t.month[0] == 48 then 45 else 61, 46, [], [14], clock);
    ReadTwo(s.(cs := 46), t.day, if t.day[0] <= 50 then 47 else 60, 48, [], [15], clock);
  }

  lemma ReadOfDay(s: Scanner, t: Stamp, clock: real)
    requires s.cs == 49 && !s.rejected && ProperStamp(t)
    ensures Reads(s, t.hour, s.(cs := 51), clock)
    ensures Reads(s.(cs := 51), t.minute, s.(cs := 53), clock)
    ensures Reads(s.(cs := 53), t.second, s.(cs := 55), clock)
  {
    OnHour(t.hour[0]);
    OnHourEnd(t.hour[1]);
    OnMinute(t.minute[0]);
    OnMinute(t.minute[1]);
    OnSecond(t.second[0]);
    OnSecond(t.second[1]);
    ReadTwo(s, t.hour, if t.hour[0] <= 49 then 50 else 59, 51, [], [16], clock);
    ReadTwo(s.(cs := 51), t.minute, 52, 53, [], [17], clock);
    ReadTwo(s.(cs := 53), t.second, 54, 55, [], [18], clock);
  }

  /** A stamp behind a semicolon leaves everything as it was until it ends. */
  lemma ReadStamp(s: Scanner, t: Stamp, clock: real)
    requires s.cs == 5 && !s.rejected && ProperStamp(t)
    ensures Reads(s, StampText(t), s.(cs := 58), clock)
  {
    OnLetters();
    var z6 := t.second + [90];
    var z5 := t.minute + z6;
    var z4 := t.hour + z5;
    var z3 := [84] + z4;
    var z2 := t.day + z3;
    var z1 := t.month + z2;
    ReadTimeEquals(s, clock);
    ReadYear(s.(cs := 40), t.year, clock);
    ReadDate(s.(cs := 44), t, clock);
    ReadsField(s.(cs := 48), 84, 49, [], clock);
    ReadOfDay(s.(cs := 49), t, clock);
    ReadsField(s.(cs := 55), 90, 58, [], clock);
    ReadsBoth(s.(cs := 53), t.second, s.(cs := 55), [90], s.(cs := 58), z6, clock);
    ReadsBoth(s.(cs := 51), t.minute, s.(cs := 53), z6, s.(cs := 58), z5, clock);
    ReadsBoth(s.(cs := 49), t.hour, s.(cs := 51), z5, s.(cs := 58), z4, clock);
    ReadsBoth(s.(cs := 48), [84], s.(cs := 49), z4, s.(cs := 58), z3, clock);
    ReadsBoth(s.(cs := 46), t.day, s.(cs := 48), z3, s.(cs := 58), z2, clock);
    ReadsBoth(s.(cs := 44), t.month, s.(cs := 46), z2, s.(cs := 58), z1, clock);
    ReadsBoth(s.(cs := 40), t.year, s.(cs := 44), z1, s.(cs := 58), t.year + z1, clock);
    ReadsBoth(s, TIME, s.(cs := 40), t.year + z1, s.(cs := 58), StampText(t), clock);
  }

  /** Parts of a header and a stamp at its end: the parts are read as without it, and playing is to
      start at the time of the stamp. */
  lemma {:induction false} StampTaken(range: Range, pieces: seq<Piece>, t: Stamp, clock: real)
    requires pieces != [] && (forall i :: 0 <= i < |pieces| ==> ProperPiece(pieces[i])) && !AnyNow(pieces) && ProperStamp(t)
    ensures var parsed := Parse(PiecesText(pieces) + StampText(t), range, clock);
            && (parsed.ok <==> AnyNames(pieces))
            && parsed.range == PiecesMeaning(range, pieces).range.(playback := clock)
  {
    var v := ReadPieces(range, pieces, clock);
    ReadStamp(v, t, clock);
    OnLetters();
    var w := v.(cs := 58);
    var u := v.(cs := 67, range := v.range.(playback := clock));
    assert u == Acts(w.(cs := 67), [19], 0, clock);
    ReadsOne(w, 0, To(67, [19]), u, clock);
    ReadsBoth(v, StampText(t), w, [0], u, StampText(t) + [0], clock);
    Regroup(PiecesText(pieces), StampText(t), [0]);
    ParseReads(PiecesText(pieces) + StampText(t), range, PiecesText(pieces), v, StampText(t) + [0], u, clock);
    NamedIff(range, pieces);
  }

  /** A stamp in front of other parts is not taken. */
  lemma {:induction false} StampDropped(s: Scanner, t: Stamp, clock: real)
    requires s.cs == 5 && !s.rejected && ProperStamp(t)
    ensures Reads(s, StampText(t) + [59], s, clock)
  {
    ReadStamp(s, t, clock);
    OnStampSemicolon();
    ReadsField(s.(cs := 58), 59, 5, [], clock);
    ReadsBoth(s, StampText(t), s.(cs := 58), [59], s, StampText(t) + [59], clock);
  }

  // ---------------------------------------------------------------- the month 10

  /** Printable, and neither a semicolon nor an "n". */
  predicate Plain(text: seq<int>) {
    forall i :: 0 <= i < |text| ==> 32 <= text[i] <= 126 && text[i] != 59 && text[i] != 110
  }

  lemma OnSkip(c: int)
    requires 32 <= c <= 126 && c != 59 && c != 110
    ensures Leads(4, c, To(4, []))
  {
  }

  lemma OnOctober()
    ensures Leads(61, 48, To(4, [])) && Leads(4, 0, To(67, []))
  {
  }

  lemma {:induction false} ReadSkipped(s: Scanner, text: seq<int>, clock: real)
    requires s.cs == 4 && !s.rejected && Plain(text)
    ensures Reads(s, text, s, clock)
    decreases |text|
  {
    if text == [] {
      ReadsNothing(s, text, s, clock);
    } else {
      OnSkip(text[0]);
      ReadsField(s, text[0], 4, [], clock);
      ReadSkipped(s, text[1..], clock);
      ReadsBoth(s, [text[0]], s, text[1..], s, text, clock);
    }
  }

  /** A stamp in October is not taken, whatever its day and time. */
  lemma {:induction false} OctoberIgnored(range: Range, pieces: seq<Piece>, year: seq<int>, rest: seq<int>, clock: real)
    requires pieces != [] && (forall i :: 0 <= i < |pieces| ==> ProperPiece(pieces[i])) && !AnyNow(pieces)
    requires |year| == 4 && Digits(year) && Plain(rest)
    ensures Parse(PiecesText(pieces) + (TIME + (year + ([49, 48] + rest))), range, clock) ==
            Parsed(AnyNames(pieces), PiecesMeaning(range, pieces).range)
  {
    var v := ReadPieces(range, pieces, clock);
    var z2 := [49, 48] + (rest + [0]);
    ReadTimeEquals(v, clock);
    ReadYear(v.(cs := 40), year, clock);
    OnMonth(49);
    OnOctober();
    ReadTwo(v.(cs := 44), [49, 48], 61, 4, [], [], clock);
    ReadSkipped(v.(cs := 4), rest, clock);
    ReadsField(v.(cs := 4), 0, 67, [], clock);
    ReadsBoth(v.(cs := 4), rest, v.(cs := 4), [0], v.(cs := 67), rest + [0], clock);
    ReadsBoth(v.(cs := 44), [49, 48], v.(cs := 4), rest + [0], v.(cs := 67), z2, clock);
    ReadsBoth(v.(cs := 40), year, v.(cs := 44), z2, v.(cs := 67), year + z2, clock);
    ReadsBoth(v, TIME, v.(cs := 40), year + z2, v.(cs := 67), TIME + (year + z2), clock);
    OctoberText(PiecesText(pieces), year, rest);
    ParseReads(PiecesText(pieces) + (TIME + (year + ([49, 48] + rest))), range,
               PiecesText(pieces), v, TIME + (year + z2), v.(cs := 67), clock);
    NamedIff(range, pieces);
  }

  lemma OctoberText(a: seq<int>, year: seq<int>, rest: seq<int>)
    ensures a + (TIME + (year + ([49, 48] + rest))) + [0] == a + (TIME + (year + ([49, 48] + (rest + [0]))))
  {
    Regroup([49, 48], rest, [0]);
    Regroup(year, [49, 48] + rest, [0]);
    Regroup(TIME, year + ([49, 48] + rest), [0]);
    Regroup(a, TIME + (year + ([49, 48] + rest)), [0]);
  }
}
