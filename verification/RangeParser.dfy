/**
  The Range header of a PLAY request: the generated automaton that reads it (ragel_range.c) and
  the reply that prints it (rtsp_method_play.c).  Times are reals; header characters are the
  values of a signed char.
  */
module RangeParser {
  import opened Common
  import opened RangeTable

  // ---------------------------------------------------------------- selecting a transition

  function Lo(ranges: seq<int>, i: nat): int
    requires 2 * i + 1 < |ranges|
  {
    ranges[2 * i]
  }

  function Hi(ranges: seq<int>, i: nat): int
    requires 2 * i + 1 < |ranges|
  {
    ranges[2 * i + 1]
  }

  /** The i-th pair of bounds contains c. */
  predicate Within(ranges: seq<int>, i: nat, c: int)
    requires 2 * i + 1 < |ranges|
  {
    Lo(ranges, i) <= c <= Hi(ranges, i)
  }

  /** The first range that contains c, or the number of ranges. */
  function FirstRange(ranges: seq<int>, c: int, i: nat): (k: nat)
    requires |ranges| % 2 == 0 && 2 * i <= |ranges|
    ensures i <= k <= |ranges| / 2
    ensures forall j :: i <= j < k ==> !Within(ranges, j, c)
    ensures k < |ranges| / 2 ==> Within(ranges, k, c)
    decreases |ranges| / 2 - i
  {
    if 2 * i == |ranges| || Within(ranges, i, c) then i else FirstRange(ranges, c, i + 1)
  }

  /** The first place where c occurs, or the length. */
  function FirstKey(keys: seq<int>, c: int, i: nat): (k: nat)
    requires i <= |keys|
    ensures i <= k <= |keys|
    ensures forall j :: i <= j < k ==> keys[j] != c
    ensures k < |keys| ==> keys[k] == c
    decreases |keys| - i
  {
    if i == |keys| || keys[i] == c then i else FirstKey(keys, c, i + 1)
  }

  /** The number of the transition that a linear scan selects: a single key first, then a range,
      then the default. */
  function Select(row: Row, c: int): nat
    requires |row.ranges| % 2 == 0
  {
    var k := FirstKey(row.singles, c, 0);
    if k < |row.singles| then k else k + FirstRange(row.ranges, c, 0)
  }

  predicate AscendingKeys(keys: seq<int>) {
    forall i, j :: 0 <= i < j < |keys| ==> keys[i] < keys[j]
  }

  /** Disjoint ranges in ascending order, as a flat sequence of bounds. */
  predicate AscendingRanges(ranges: seq<int>) {
    && |ranges| % 2 == 0
    && (forall i :: 0 <= i < |ranges| / 2 ==> Lo(ranges, i) <= Hi(ranges, i))
    && (forall i, j :: 0 <= i < j < |ranges| / 2 ==> Hi(ranges, i) < Lo(ranges, j))
  }

  /** The first search of the driver: a binary search for a single key. */
  method SearchKeys(keys: seq<int>, c: int) returns (k: nat)
    requires AscendingKeys(keys)
    ensures k == FirstKey(keys, c, 0)
  {
    var lower, upper := 0, |keys| - 1;
    while lower <= upper
      invariant 0 <= lower && upper < |keys| && lower <= upper + 1
      invariant forall i :: 0 <= i < lower ==> keys[i] < c
      invariant forall i :: upper < i < |keys| ==> c < keys[i]
    {
      var mid := lower + (upper - lower) / 2;
      if c < keys[mid] {
        upper := mid - 1;
      } else if c > keys[mid] {
        lower := mid + 1;
      } else {
        return mid;
      }
    }
    return |keys|;
  }

  lemma OnlyRange(ranges: seq<int>, c: int, m: nat)
    requires AscendingRanges(ranges) && m < |ranges| / 2 && Within(ranges, m, c)
    ensures FirstRange(ranges, c, 0) == m
  {
    forall i | 0 <= i < |ranges| / 2 && i != m ensures !Within(ranges, i, c) {
      assert Lo(ranges, i) <= Hi(ranges, i);
    }
  }

  /** The midpoint that the code computes, as a pair number. */
  lemma EvenMidpoint(lo: int, up: int)
    requires 0 <= lo <= up
    ensures var half := (2 * up - 2 * lo) / 2;
            exists m :: lo <= m <= up && 2 * lo + (half - half % 2) == 2 * m
  {
    var half := (2 * up - 2 * lo) / 2;
    assert 2 * lo + (half - half % 2) == 2 * (lo + half / 2);
  }

  /** The second search: over pairs of bounds, with the midpoint cleared to an even offset. */
  method SearchRanges(ranges: seq<int>, c: int) returns (k: nat)
    requires AscendingRanges(ranges)
    ensures k == FirstRange(ranges, c, 0)
  {
    var lower, upper := 0, |ranges| - 2;
    ghost var lo, up := 0, |ranges| / 2 - 1;
    while lower <= upper
      invariant lower == 2 * lo && upper == 2 * up && 0 <= lo <= up + 1 <= |ranges| / 2
      invariant forall i :: 0 <= i < lo ==> Hi(ranges, i) < c
      invariant forall i :: up < i < |ranges| / 2 ==> c < Lo(ranges, i)
      decreases up - lo
    {
      EvenMidpoint(lo, up);
      var half := (upper - lower) / 2;
      var mid := lower + (half - half % 2);
      ghost var m :| lo <= m <= up && mid == 2 * m;
      assert Lo(ranges, m) == ranges[mid] && Hi(ranges, m) == ranges[mid + 1];
      if c < ranges[mid] {
        upper, up := mid - 2, m - 1;
      } else if c > ranges[mid + 1] {
        lower, lo := mid + 2, m + 1;
      } else {
        OnlyRange(ranges, c, m);
        return mid / 2;
      }
    }
    return |ranges| / 2;
  }

  /** The generated two-stage binary search selects what a linear scan selects. */
  method FindTransition(row: Row, c: int) returns (k: nat)
    requires AscendingKeys(row.singles) && AscendingRanges(row.ranges)
    ensures k == Select(row, c)
  {
    k := SearchKeys(row.singles, c);
    if k == |row.singles| {
      var r := SearchRanges(row.ranges, c);
      k := k + r;
    }
  }

  // ---------------------------------------------------------------- the table is well formed

  lemma {:induction false} KeysAscend(keys: seq<int>, i: nat, j: nat, k: nat)
    requires KeysInOrder(keys, i) && i <= j < k < |keys|
    ensures keys[j] < keys[k]
    decreases k - i
  {
    if i < j {
      KeysAscend(keys, i + 1, j, k);
    } else if i + 1 < k {
      KeysAscend(keys, i + 1, i + 1, k);
    }
  }

  lemma {:induction false} BoundsAscend(bounds: seq<int>, i: nat, j: nat, k: nat)
    requires BoundsInOrder(bounds, i) && i <= j < k < |bounds|
    ensures bounds[j] <= bounds[k] && (j % 2 == 1 ==> bounds[j] < bounds[k])
    decreases k - i
  {
    if i < j {
      BoundsAscend(bounds, i + 1, j, k);
    } else if i + 1 < k {
      BoundsAscend(bounds, i + 1, i + 1, k);
    }
  }

  lemma InOrderAscends(row: Row)
    requires InOrder(row)
    ensures AscendingKeys(row.singles) && AscendingRanges(row.ranges)
  {
    forall i, j | 0 <= i < j < |row.singles| ensures row.singles[i] < row.singles[j] {
      KeysAscend(row.singles, 0, i, j);
    }
    forall i | 0 <= i < |row.ranges| / 2 ensures Lo(row.ranges, i) <= Hi(row.ranges, i) {
      BoundsAscend(row.ranges, 0, 2 * i, 2 * i + 1);
    }
    forall i, j | 0 <= i < j < |row.ranges| / 2 ensures Hi(row.ranges, i) < Lo(row.ranges, j) {
      BoundsAscend(row.ranges, 0, 2 * i + 1, 2 * j);
    }
  }

  // ---------------------------------------------------------------- running the automaton

  /** RTSP_Range */
  datatype Range = Range(begin: real, end: real, playback: real)

  /** The local variables of ragel_parse_range_header; `rejected` is its early return. */
  datatype Scanner = Scanner(
    cs: nat, integer: int, seconds: real, num: int, den: int,
    range: Range, supported: bool, rejected: bool)

  /** One action.  The fields of a `time=` stamp (actions 12 to 18) are not kept; `clock` is the
      time that mktime makes of them. */
  function Act(s: Scanner, action: nat, c: int, clock: real): Scanner {
    match action
    case 0 => s.(integer := 0)
    case 1 => s.(integer := s.integer * 10 + (c - 48))
    case 2 => s.(seconds := s.seconds + (s.integer * 3600) as real)
    case 3 => s.(seconds := s.seconds + (s.integer * 60) as real)
    case 4 => s.(seconds := s.seconds + s.integer as real)
    case 5 => s.(num := 0, den := 1)
    case 6 => s.(num := s.num * 10 + (c - 48), den := s.den * 10)
    case 7 => s.(seconds := s.seconds + Quotient(s.num, s.den))
    case 8 => s.(rejected := true)
    case 9 => s.(range := s.range.(begin := s.seconds), seconds := 0.0)
    case 10 => s.(range := s.range.(end := s.seconds), seconds := 0.0)
    case 11 => s.(supported := true)
    case 19 => s.(range := s.range.(playback := clock))
    case _ => s
  }

  /** The fraction read so far; nothing has been read while the denominator is zero. */
  function Quotient(num: int, den: int): real {
    if den == 0 then 0.0 else num as real / den as real
  }

  function Acts(s: Scanner, actions: seq<nat>, c: int, clock: real): Scanner
    decreases |actions|
  {
    if actions == [] || s.rejected then s
    else Acts(Act(s, actions[0], c, clock), actions[1..], c, clock)
  }

  function TransitionOn(cs: nat, c: int): Transition {
    var row := RowOf(cs);
    row.transitions[Select(row, c)]
  }

  function Step(s: Scanner, c: int, clock: real): Scanner {
    var t := TransitionOn(s.cs, c);
    Acts(s.(cs := t.target), t.actions, c, clock)
  }

  predicate Stopped(s: Scanner) {
    s.cs == 0 || s.rejected
  }

  function Scan(s: Scanner, input: seq<int>, clock: real): Scanner
    decreases |input|
  {
    if input == [] || Stopped(s) then s else Scan(Step(s, input[0], clock), input[1..], clock)
  }

  /** The state of a fresh call for a range that the caller has initialised. */
  function Fresh(range: Range): Scanner {
    Scanner(1, 0, 0.0, 0, 0, range, false, false)
  }

  datatype Parsed = Parsed(ok: bool, range: Range)

  /** ragel_parse_range_header: the terminating zero is read too. */
  function Parse(header: seq<int>, range: Range, clock: real): Parsed {
    var s := Scan(Fresh(range), header + [0], clock);
    Parsed(s.supported && !s.rejected, s.range)
  }

  /** The action loop of one transition. */
  method RunActions(s: Scanner, actions: seq<nat>, c: int, clock: real) returns (r: Scanner)
    ensures r == Acts(s, actions, c, clock)
  {
    r := s;
    var i := 0;
    while i < |actions| && !r.rejected
      invariant 0 <= i <= |actions|
      invariant Acts(r, actions[i..], c, clock) == Acts(s, actions, c, clock)
    {
      r := Act(r, actions[i], c, clock);
      i := i + 1;
    }
  }

  /** The character loop. */
  method ParseHeader(header: seq<int>, range: Range, clock: real) returns (r: Parsed)
    ensures r == Parse(header, range, clock)
  {
    var input := header + [0];
    var s := Fresh(range);
    var p := 0;
    while p < |input| && !Stopped(s)
      invariant 0 <= p <= |input|
      invariant Scan(s, input[p..], clock) == Scan(Fresh(range), input, clock)
    {
      var row := RowOf(s.cs);
      InOrderAscends(row);
      var k := FindTransition(row, input[p]);
      var t := row.transitions[k];
      s := RunActions(s.(cs := t.target), t.actions, input[p], clock);
      p := p + 1;
    }
    r := Parsed(s.supported && !s.rejected, s.range);
  }

  // ---------------------------------------------------------------- npt times

  predicate Digit(c: int) {
    48 <= c <= 57
  }

  predicate Digits(ds: seq<int>) {
    forall i :: 0 <= i < |ds| ==> Digit(ds[i])
  }

  /** A decimal point may also be written as a comma. */
  predicate Point(c: int) {
    c == 46 || c == 44
  }

  /** The states that read the begin of a range, and those that read its end. */
  function Whole(begin: bool): nat { if begin then 23 else 11 }
  function Dot(begin: bool): nat { if begin then 24 else 12 }
  function Fraction(begin: bool): nat { if begin then 25 else 13 }
  function Minutes(begin: bool): nat { if begin then 27 else 14 }
  function Minutes1(begin: bool): nat { if begin then 28 else 15 }
  function Minutes2(begin: bool): nat { if begin then 29 else 16 }
  function Seconds(begin: bool): nat { if begin then 30 else 17 }
  function Seconds1(begin: bool): nat { if begin then 31 else 18 }
  function Seconds2(begin: bool): nat { if begin then 32 else 19 }

  /** In state cs the character c takes the transition tr. */
  ghost predicate Leads(cs: nat, c: int, tr: Transition) {
    forall lock: int {:trigger Unlock(lock)} :: Unlock(lock) ==> TransitionOn(cs, c) == tr
  }

  /** The state after minutes (or seconds) have been read. */
  function AfterMinutes(begin: bool, ds: seq<int>): nat
    requires ds != []
  {
    if |ds| == 2 || ds[0] > 53 then Minutes2(begin) else Minutes1(begin)
  }

  function AfterSeconds(begin: bool, ds: seq<int>): nat
    requires ds != []
  {
    if |ds| == 2 || ds[0] > 53 then Seconds2(begin) else Seconds1(begin)
  }

  lemma OnPrefix()
    ensures Leads(1, 110, To(62, [])) && Leads(62, 112, To(63, []))
    ensures Leads(63, 116, To(64, [])) && Leads(64, 61, To(65, []))
  {
  }

  /** The states in which the begin of a range may start, at first and after a semicolon. */
  predicate AtBegin(cs: nat) {
    cs == 65 || cs == 9
  }

  /** The states in which a time may start. */
  predicate AtTime(cs: nat) {
    AtBegin(cs) || cs == 26 || cs == 10
  }

  lemma OnFirstDigit(cs: nat, c: int)
    requires AtTime(cs) && Digit(c)
    ensures Leads(cs, c, To(Whole(AtBegin(cs)), [0, 1]))
  {
  }

  lemma OnDash()
    ensures Leads(65, 45, To(10, []))
    ensures Leads(26, 0, To(67, [11])) && Leads(10, 0, To(67, []))
  {
  }

  lemma OnWholeDigit(begin: bool, c: int)
    requires Digit(c)
    ensures Leads(Whole(begin), c, To(Whole(begin), [1]))
  {
  }

  lemma OnWholePoint(begin: bool, c: int)
    requires Point(c)
    ensures Leads(Whole(begin), c, To(Dot(begin), [4]))
  {
  }

  lemma OnWholeColon(begin: bool)
    ensures Leads(Whole(begin), 58, To(Minutes(begin), [2]))
  {
  }

  lemma OnDot(begin: bool, c: int)
    requires Digit(c)
    ensures Leads(Dot(begin), c, To(Fraction(begin), [5, 6]))
  {
  }

  lemma OnFraction(begin: bool, c: int)
    requires Digit(c)
    ensures Leads(Fraction(begin), c, To(Fraction(begin), [6]))
  {
  }

  lemma OnMinutes(begin: bool, c: int)
    requires Digit(c)
    ensures Leads(Minutes(begin), c, To(AfterMinutes(begin, [c]), [0, 1]))
  {
  }

  lemma OnMinutes1(begin: bool, c: int)
    requires Digit(c)
    ensures Leads(Minutes1(begin), c, To(Minutes2(begin), [1]))
  {
  }

  lemma OnMinutesColon(begin: bool)
    ensures Leads(Minutes1(begin), 58, To(Seconds(begin), [3]))
    ensures Leads(Minutes2(begin), 58, To(Seconds(begin), [3]))
  {
  }

  lemma OnSeconds(begin: bool, c: int)
    requires Digit(c)
    ensures Leads(Seconds(begin), c, To(AfterSeconds(begin, [c]), [0, 1]))
  {
  }

  lemma OnSeconds1(begin: bool, c: int)
    requires Digit(c)
    ensures Leads(Seconds1(begin), c, To(Seconds2(begin), [1]))
  {
  }

  lemma OnSecondsPoint(begin: bool, c: int)
    requires Point(c)
    ensures Leads(Seconds1(begin), c, To(Dot(begin), [4]))
  {
  }

  lemma OnSeconds2Point(begin: bool, c: int)
    requires Point(c)
    ensures Leads(Seconds2(begin), c, To(Dot(begin), [4]))
  {
  }

  /** The character that ends the begin of a range is a dash, the one that ends its end is the
      end of the header. */
  function EndMark(begin: bool): int { if begin then 45 else 0 }

  function EndTransition(begin: bool, fraction: bool): Transition {
    To(if begin then 26 else 67, [if fraction then 7 else 4] + if begin then [9] else [10, 11])
  }

  lemma OnEndWhole(begin: bool)
    ensures Leads(Whole(begin), EndMark(begin), EndTransition(begin, false))
  {
  }

  lemma OnEndFraction(begin: bool)
    ensures Leads(Fraction(begin), EndMark(begin), EndTransition(begin, true))
  {
  }

  lemma OnEndSeconds1(begin: bool)
    ensures Leads(Seconds1(begin), EndMark(begin), EndTransition(begin, false))
  {
  }

  lemma OnEndSeconds2(begin: bool)
    ensures Leads(Seconds2(begin), EndMark(begin), EndTransition(begin, false))
  {
  }

  /** Reading `text` takes the scanner from s to t, whatever follows. */
  ghost predicate Reads(s: Scanner, text: seq<int>, t: Scanner, clock: real) {
    forall lock: int {:trigger Unlock(lock)} :: Unlock(lock) ==> ReadsAny(s, text, t, clock)
  }

  ghost predicate ReadsAny(s: Scanner, text: seq<int>, t: Scanner, clock: real) {
    forall rest: seq<int> :: Scan(s, text + rest, clock) == Scan(t, rest, clock)
  }

  lemma ReadsNothing(s: Scanner, text: seq<int>, t: Scanner, clock: real)
    requires text == [] && t == s
    ensures Reads(s, text, t, clock)
  {
    forall rest: seq<int> ensures Scan(s, text + rest, clock) == Scan(t, rest, clock) {
      assert text + rest == rest;
    }
  }

  lemma ReadsConcat(s: Scanner, a: seq<int>, t: Scanner, b: seq<int>, u: Scanner, clock: real)
    requires Reads(s, a, t, clock) && Reads(t, b, u, clock)
    ensures Reads(s, a + b, u, clock)
  {
    assert Unlock(0);
    forall rest: seq<int> ensures Scan(s, a + b + rest, clock) == Scan(u, rest, clock) {
      assert a + b + rest == a + (b + rest);
    }
  }

  lemma ReadsBoth(s: Scanner, a: seq<int>, t: Scanner, b: seq<int>, u: Scanner, ab: seq<int>, clock: real)
    requires Reads(s, a, t, clock) && Reads(t, b, u, clock) && ab == a + b
    ensures Reads(s, ab, u, clock)
  {
    ReadsConcat(s, a, t, b, u, clock);
  }

  /** A single character and its transition. */
  lemma ReadsOne(s: Scanner, c: int, tr: Transition, t: Scanner, clock: real)
    requires !Stopped(s) && Leads(s.cs, c, tr) && t == Acts(s.(cs := tr.target), tr.actions, c, clock)
    ensures Reads(s, [c], t, clock)
  {
    assert Unlock(0);
    forall rest: seq<int> ensures Scan(s, [c] + rest, clock) == Scan(t, rest, clock) {
      assert ([c] + rest)[1..] == rest;
    }
  }

  /** What has been read decides the state that the whole header ends in. */
  lemma ReadsAll(s: Scanner, text: seq<int>, t: Scanner, clock: real)
    requires Reads(s, text, t, clock)
    ensures Scan(s, text, clock) == t
  {
    assert Unlock(0);
    assert text + [] == text;
  }

  // ---------------------------------------------------------------- digits

  /** What a run of digits makes of an accumulator. */
  function Accumulate(n: int, ds: seq<int>): int
    decreases |ds|
  {
    if ds == [] then n else Accumulate(n * 10 + (ds[0] - 48), ds[1..])
  }

  function Pow10(n: nat): (p: nat)
    ensures p > 0
  {
    if n == 0 then 1 else 10 * Pow10(n - 1)
  }

  lemma WholeDigit(s: Scanner, begin: bool, c: int, clock: real)
    requires s.cs == Whole(begin) && !s.rejected && Digit(c)
    ensures Reads(s, [c], s.(integer := s.integer * 10 + (c - 48)), clock)
  {
    OnWholeDigit(begin, c);
    var u := s.(integer := s.integer * 10 + (c - 48));
    assert u == Acts(s, [1], c, clock);
    ReadsOne(s, c, To(Whole(begin), [1]), u, clock);
  }

  lemma FractionDigit(s: Scanner, begin: bool, c: int, clock: real)
    requires s.cs == Fraction(begin) && !s.rejected && Digit(c)
    ensures Reads(s, [c], s.(num := s.num * 10 + (c - 48), den := s.den * 10), clock)
  {
    OnFraction(begin, c);
    var u := s.(num := s.num * 10 + (c - 48), den := s.den * 10);
    assert u == Acts(s, [6], c, clock);
    ReadsOne(s, c, To(Fraction(begin), [6]), u, clock);
  }

  lemma {:induction false} ReadWhole(s: Scanner, begin: bool, ds: seq<int>, u: Scanner, clock: real)
    requires s.cs == Whole(begin) && !s.rejected && Digits(ds) && u == s.(integer := Accumulate(s.integer, ds))
    ensures Reads(s, ds, u, clock)
    decreases |ds|
  {
    if ds == [] {
      ReadsNothing(s, ds, u, clock);
    } else {
      WholeDigit(s, begin, ds[0], clock);
      var t := s.(integer := s.integer * 10 + (ds[0] - 48));
      ReadWhole(t, begin, ds[1..], u, clock);
      ReadsBoth(s, [ds[0]], t, ds[1..], u, ds, clock);
    }
  }

  /** What a run of n digits makes of a denominator. */
  function Scale(den: int, n: nat): int
    decreases n
  {
    if n == 0 then den else Scale(den * 10, n - 1)
  }

  lemma {:induction false} ScaleValue(den: int, n: nat)
    ensures Scale(den, n) == den * Pow10(n)
    decreases n
  {
    if n > 0 {
      ScaleValue(den * 10, n - 1);
      assert den * 10 * Pow10(n - 1) == den * (10 * Pow10(n - 1));
    }
  }

  lemma {:induction false} ReadFraction(s: Scanner, begin: bool, ds: seq<int>, u: Scanner, clock: real)
    requires s.cs == Fraction(begin) && !s.rejected && Digits(ds)
    requires u == s.(num := Accumulate(s.num, ds), den := Scale(s.den, |ds|))
    ensures Reads(s, ds, u, clock)
    decreases |ds|
  {
    if ds == [] {
      ReadsNothing(s, ds, u, clock);
    } else {
      FractionDigit(s, begin, ds[0], clock);
      var t := s.(num := s.num * 10 + (ds[0] - 48), den := s.den * 10);
      ReadFraction(t, begin, ds[1..], u, clock);
      ReadsBoth(s, [ds[0]], t, ds[1..], u, ds, clock);
    }
  }

  // ---------------------------------------------------------------- times

  /** npt-sec, or npt-hhmmss; the fraction is optional. */
  datatype Time =
    | Sec(sec: seq<int>, fraction: seq<int>)
    | Hms(hours: seq<int>, minutes: seq<int>, secs: seq<int>, fraction: seq<int>)

  /** Minutes and seconds have one digit, or two if the first is at most five. */
  predicate Sixty(ds: seq<int>) {
    Digits(ds) && (|ds| == 1 || (|ds| == 2 && ds[0] <= 53))
  }

  predicate Proper(t: Time) {
    && Digits(t.fraction)
    && match t
       case Sec(sec, _) => Digits(sec) && sec != []
       case Hms(hours, minutes, secs, _) => Digits(hours) && hours != [] && Sixty(minutes) && Sixty(secs)
  }

  function WholeText(t: Time): seq<int> {
    match t
    case Sec(sec, _) => sec
    case Hms(hours, minutes, secs, _) => hours + ([58] + (minutes + ([58] + secs)))
  }

  /** The text of a time, with a dot or a comma before the fraction. */
  function Text(t: Time, point: int): seq<int> {
    if t.fraction == [] then WholeText(t) else WholeText(t) + ([point] + t.fraction)
  }

  /** Hours, minutes and seconds as seconds. */
  function WholeValue(t: Time): int {
    match t
    case Sec(sec, _) => Accumulate(0, sec)
    case Hms(hours, minutes, secs, _) =>
      3600 * Accumulate(0, hours) + 60 * Accumulate(0, minutes) + Accumulate(0, secs)
  }

  function Value(t: Time): real {
    WholeValue(t) as real + Quotient(Accumulate(0, t.fraction), Pow10(|t.fraction|))
  }

  lemma {:induction false} AccumulateNotNegative(n: nat, ds: seq<int>)
    requires Digits(ds)
    ensures Accumulate(n, ds) >= 0
    decreases |ds|
  {
    if ds != [] {
      AccumulateNotNegative(n * 10 + (ds[0] - 48), ds[1..]);
    }
  }

  lemma ValueNotNegative(t: Time)
    requires Proper(t)
    ensures Value(t) >= 0.0
  {
    AccumulateNotNegative(0, t.fraction);
    match t
    case Sec(sec, _) => AccumulateNotNegative(0, sec);
    case Hms(hours, minutes, secs, _) =>
      AccumulateNotNegative(0, hours);
      AccumulateNotNegative(0, minutes);
      AccumulateNotNegative(0, secs);
  }

  /** A scanner that has read a time and waits for the character that ends it. */
  predicate Waiting(s: Scanner, begin: bool) {
    && !s.rejected
    && (s.cs == Whole(begin) || s.cs == Seconds1(begin) || s.cs == Seconds2(begin) || s.cs == Fraction(begin))
  }

  /** The time it will have read when that character comes. */
  function Pending(s: Scanner, begin: bool): real {
    s.seconds + if s.cs == Fraction(begin) then Quotient(s.num, s.den) else s.integer as real
  }

  /** The first digit of a number clears the accumulator. */
  lemma FirstDigit(s: Scanner, c: int, clock: real)
    requires AtTime(s.cs) && !s.rejected && Digit(c)
    ensures Reads(s, [c], s.(cs := Whole(AtBegin(s.cs)), integer := c - 48), clock)
  {
    OnFirstDigit(s.cs, c);
    var u := s.(cs := Whole(AtBegin(s.cs)), integer := c - 48);
    assert u == Acts(s.(cs := Whole(AtBegin(s.cs))), [0, 1], c, clock);
    ReadsOne(s, c, To(Whole(AtBegin(s.cs)), [0, 1]), u, clock);
  }

  lemma ReadNumber(s: Scanner, ds: seq<int>, clock: real)
    requires AtTime(s.cs) && !s.rejected && Digits(ds) && ds != []
    ensures Reads(s, ds, s.(cs := Whole(AtBegin(s.cs)), integer := Accumulate(0, ds)), clock)
  {
    FirstDigit(s, ds[0], clock);
    var t := s.(cs := Whole(AtBegin(s.cs)), integer := ds[0] - 48);
    var u := s.(cs := Whole(AtBegin(s.cs)), integer := Accumulate(0, ds));
    ReadWhole(t, AtBegin(s.cs), ds[1..], u, clock);
    ReadsBoth(s, [ds[0]], t, ds[1..], u, ds, clock);
  }

  lemma MinutesDigit(s: Scanner, begin: bool, c: int, clock: real)
    requires s.cs == Minutes(begin) && !s.rejected && Digit(c)
    ensures Reads(s, [c], s.(cs := AfterMinutes(begin, [c]), integer := c - 48), clock)
  {
    OnMinutes(begin, c);
    var u := s.(cs := AfterMinutes(begin, [c]), integer := c - 48);
    assert u == Acts(s.(cs := AfterMinutes(begin, [c])), [0, 1], c, clock);
    ReadsOne(s, c, To(AfterMinutes(begin, [c]), [0, 1]), u, clock);
  }

  lemma SecondMinutesDigit(s: Scanner, begin: bool, c: int, clock: real)
    requires s.cs == Minutes1(begin) && !s.rejected && Digit(c)
    ensures Reads(s, [c], s.(cs := Minutes2(begin), integer := s.integer * 10 + (c - 48)), clock)
  {
    OnMinutes1(begin, c);
    var u := s.(cs := Minutes2(begin), integer := s.integer * 10 + (c - 48));
    assert u == Acts(s.(cs := Minutes2(begin)), [1], c, clock);
    ReadsOne(s, c, To(Minutes2(begin), [1]), u, clock);
  }

  lemma SecondsDigit(s: Scanner, begin: bool, c: int, clock: real)
    requires s.cs == Seconds(begin) && !s.rejected && Digit(c)
    ensures Reads(s, [c], s.(cs := AfterSeconds(begin, [c]), integer := c - 48), clock)
  {
    OnSeconds(begin, c);
    var u := s.(cs := AfterSeconds(begin, [c]), integer := c - 48);
    assert u == Acts(s.(cs := AfterSeconds(begin, [c])), [0, 1], c, clock);
    ReadsOne(s, c, To(AfterSeconds(begin, [c]), [0, 1]), u, clock);
  }

  lemma SecondSecondsDigit(s: Scanner, begin: bool, c: int, clock: real)
    requires s.cs == Seconds1(begin) && !s.rejected && Digit(c)
    ensures Reads(s, [c], s.(cs := Seconds2(begin), integer := s.integer * 10 + (c - 48)), clock)
  {
    OnSeconds1(begin, c);
    var u := s.(cs := Seconds2(begin), integer := s.integer * 10 + (c - 48));
    assert u == Acts(s.(cs := Seconds2(begin)), [1], c, clock);
    ReadsOne(s, c, To(Seconds2(begin), [1]), u, clock);
  }

  lemma OneDigit(ds: seq<int>)
    requires |ds| == 1
    ensures ds == [ds[0]] && Accumulate(0, ds) == ds[0] - 48
  {
    assert ds[1..] == [] && Accumulate(ds[0] - 48, []) == ds[0] - 48;
  }

  lemma TwoDigits(ds: seq<int>)
    requires |ds| == 2
    ensures ds == [ds[0], ds[1]] && Accumulate(0, ds) == (ds[0] - 48) * 10 + (ds[1] - 48)
  {
    assert ds[1..] == [ds[1]] && [ds[1]][1..] == [];
    assert Accumulate(ds[0] - 48, [ds[1]]) == Accumulate((ds[0] - 48) * 10 + (ds[1] - 48), []);
  }

  lemma ReadMinutes1(s: Scanner, begin: bool, ds: seq<int>, clock: real)
    requires s.cs == Minutes(begin) && !s.rejected && |ds| == 1 && Digit(ds[0])
    ensures Reads(s, ds, s.(cs := AfterMinutes(begin, ds), integer := Accumulate(0, ds)), clock)
  {
    OneDigit(ds);
    MinutesDigit(s, begin, ds[0], clock);
  }

  lemma ReadMinutes2(s: Scanner, begin: bool, ds: seq<int>, clock: real)
    requires s.cs == Minutes(begin) && !s.rejected && |ds| == 2 && Digit(ds[0]) && Digit(ds[1]) && ds[0] <= 53
    ensures Reads(s, ds, s.(cs := AfterMinutes(begin, ds), integer := Accumulate(0, ds)), clock)
  {
    var c, d := ds[0], ds[1];
    TwoDigits(ds);
    MinutesDigit(s, begin, c, clock);
    var t := s.(cs := Minutes1(begin), integer := c - 48);
    SecondMinutesDigit(t, begin, d, clock);
    var u := s.(cs := AfterMinutes(begin, ds), integer := Accumulate(0, ds));
    assert u == t.(cs := Minutes2(begin), integer := t.integer * 10 + (d - 48));
    ReadsBoth(s, [c], t, [d], u, ds, clock);
  }

  lemma ReadMinutes(s: Scanner, begin: bool, ds: seq<int>, clock: real)
    requires s.cs == Minutes(begin) && !s.rejected && Sixty(ds)
    ensures Reads(s, ds, s.(cs := AfterMinutes(begin, ds), integer := Accumulate(0, ds)), clock)
  {
    if |ds| == 1 {
      ReadMinutes1(s, begin, ds, clock);
    } else {
      ReadMinutes2(s, begin, ds, clock);
    }
  }

  lemma ReadSeconds1(s: Scanner, begin: bool, ds: seq<int>, clock: real)
    requires s.cs == Seconds(begin) && !s.rejected && |ds| == 1 && Digit(ds[0])
    ensures Reads(s, ds, s.(cs := AfterSeconds(begin, ds), integer := Accumulate(0, ds)), clock)
  {
    OneDigit(ds);
    SecondsDigit(s, begin, ds[0], clock);
  }

  lemma ReadSeconds2(s: Scanner, begin: bool, ds: seq<int>, clock: real)
    requires s.cs == Seconds(begin) && !s.rejected && |ds| == 2 && Digit(ds[0]) && Digit(ds[1]) && ds[0] <= 53
    ensures Reads(s, ds, s.(cs := AfterSeconds(begin, ds), integer := Accumulate(0, ds)), clock)
  {
    var c, d := ds[0], ds[1];
    TwoDigits(ds);
    SecondsDigit(s, begin, c, clock);
    var t := s.(cs := Seconds1(begin), integer := c - 48);
    SecondSecondsDigit(t, begin, d, clock);
    var u := s.(cs := AfterSeconds(begin, ds), integer := Accumulate(0, ds));
    assert u == t.(cs := Seconds2(begin), integer := t.integer * 10 + (d - 48));
    ReadsBoth(s, [c], t, [d], u, ds, clock);
  }

  lemma ReadSeconds(s: Scanner, begin: bool, ds: seq<int>, clock: real)
    requires s.cs == Seconds(begin) && !s.rejected && Sixty(ds)
    ensures Reads(s, ds, s.(cs := AfterSeconds(begin, ds), integer := Accumulate(0, ds)), clock)
  {
    if |ds| == 1 {
      ReadSeconds1(s, begin, ds, clock);
    } else {
      ReadSeconds2(s, begin, ds, clock);
    }
  }

  /** A colon turns what has been read into hours, then into minutes. */
  lemma ReadColon(s: Scanner, begin: bool, clock: real)
    requires !s.rejected
    ensures s.cs == Whole(begin) ==>
              Reads(s, [58], s.(cs := Minutes(begin), seconds := s.seconds + (s.integer * 3600) as real), clock)
    ensures s.cs == Minutes1(begin) || s.cs == Minutes2(begin) ==>
              Reads(s, [58], s.(cs := Seconds(begin), seconds := s.seconds + (s.integer * 60) as real), clock)
  {
    if s.cs == Whole(begin) {
      OnWholeColon(begin);
      var u := s.(cs := Minutes(begin), seconds := s.seconds + (s.integer * 3600) as real);
      assert u == Acts(s.(cs := Minutes(begin)), [2], 58, clock);
      ReadsOne(s, 58, To(Minutes(begin), [2]), u, clock);
    } else if s.cs == Minutes1(begin) || s.cs == Minutes2(begin) {
      OnMinutesColon(begin);
      var u := s.(cs := Seconds(begin), seconds := s.seconds + (s.integer * 60) as real);
      assert u == Acts(s.(cs := Seconds(begin)), [3], 58, clock);
      ReadsOne(s, 58, To(Seconds(begin), [3]), u, clock);
    }
  }

  lemma ReadPoint(s: Scanner, begin: bool, c: int, clock: real)
    requires Waiting(s, begin) && s.cs != Fraction(begin) && Point(c)
    ensures Reads(s, [c], s.(cs := Dot(begin), seconds := s.seconds + s.integer as real), clock)
  {
    if s.cs == Whole(begin) {
      OnWholePoint(begin, c);
    } else {
      OnSecondsPoint(begin, c);
      OnSeconds2Point(begin, c);
    }
    var u := s.(cs := Dot(begin), seconds := s.seconds + s.integer as real);
    assert u == Acts(s.(cs := Dot(begin)), [4], c, clock);
    ReadsOne(s, c, To(Dot(begin), [4]), u, clock);
  }

  lemma FirstFractionDigit(s: Scanner, begin: bool, c: int, clock: real)
    requires s.cs == Dot(begin) && !s.rejected && Digit(c)
    ensures Reads(s, [c], s.(cs := Fraction(begin), num := c - 48, den := 10), clock)
  {
    OnDot(begin, c);
    var u := s.(cs := Fraction(begin), num := c - 48, den := 10);
    assert u == Acts(s.(cs := Fraction(begin)), [5, 6], c, clock);
    ReadsOne(s, c, To(Fraction(begin), [5, 6]), u, clock);
  }

  lemma ReadDecimals(s: Scanner, begin: bool, ds: seq<int>, clock: real)
    requires s.cs == Dot(begin) && !s.rejected && Digits(ds) && ds != []
    ensures Reads(s, ds, s.(cs := Fraction(begin), num := Accumulate(0, ds), den := Pow10(|ds|)), clock)
  {
    FirstFractionDigit(s, begin, ds[0], clock);
    var t := s.(cs := Fraction(begin), num := ds[0] - 48, den := 10);
    var u := s.(cs := Fraction(begin), num := Accumulate(0, ds), den := Pow10(|ds|));
    ScaleValue(10, |ds[1..]|);
    ReadFraction(t, begin, ds[1..], u, clock);
    ReadsBoth(s, [ds[0]], t, ds[1..], u, ds, clock);
  }

  /** The character after a time takes it over into the range and clears the sum, so nothing of
      the begin is left when the end is read. */
  lemma ReadEnd(s: Scanner, begin: bool, clock: real)
    requires Waiting(s, begin)
    ensures begin ==>
              Reads(s, [45], s.(cs := 26, seconds := 0.0, range := s.range.(begin := Pending(s, begin))), clock)
    ensures !begin ==>
              Reads(s, [0], s.(cs := 67, seconds := 0.0, range := s.range.(end := Pending(s, begin)), supported := true), clock)
  {
    var fraction := s.cs == Fraction(begin);
    if s.cs == Whole(begin) {
      OnEndWhole(begin);
    } else if fraction {
      OnEndFraction(begin);
    } else {
      OnEndSeconds1(begin);
      OnEndSeconds2(begin);
    }
    var tr := EndTransition(begin, fraction);
    var range := if begin then s.range.(begin := Pending(s, begin)) else s.range.(end := Pending(s, begin));
    var u := s.(cs := tr.target, seconds := 0.0, range := range, supported := s.supported || !begin);
    EndActs(s.(cs := tr.target), begin, if fraction then 7 else 4, EndMark(begin), clock);
    ReadsOne(s, EndMark(begin), tr, u, clock);
  }

  lemma EndActs(s: Scanner, begin: bool, first: nat, c: int, clock: real)
    requires !s.rejected && (first == 4 || first == 7)
    ensures var total := s.seconds + if first == 7 then Quotient(s.num, s.den) else s.integer as real;
            Acts(s, [first] + (if begin then [9] else [10, 11]), c, clock) ==
            if begin then s.(seconds := 0.0, range := s.range.(begin := total))
            else s.(seconds := 0.0, range := s.range.(end := total), supported := true)
  {
    var total := s.seconds + if first == 7 then Quotient(s.num, s.den) else s.integer as real;
    var t := s.(seconds := total);
    assert Act(s, first, c, clock) == t;
    if begin {
      assert ([first] + [9])[1..] == [9];
      assert Acts(t, [9], c, clock) == t.(seconds := 0.0, range := t.range.(begin := total));
    } else {
      assert ([first] + [10, 11])[1..] == [10, 11];
      var u := t.(seconds := 0.0, range := t.range.(end := total));
      assert [10, 11][1..] == [11];
      assert Acts(u, [11], c, clock) == u.(supported := true);
    }
  }

  // ---------------------------------------------------------------- whole headers

  /** What a scanner keeps while it reads a time. */
  predicate SameOutcome(s: Scanner, u: Scanner) {
    u.range == s.range && u.supported == s.supported && !u.rejected
  }

  /** Hours, minutes and seconds are added up as they are read. */
  lemma ReadHms(s: Scanner, t: Time, clock: real) returns (u: Scanner)
    requires AtTime(s.cs) && !s.rejected && t.Hms? && Proper(t)
    ensures Reads(s, WholeText(t), u, clock) && SameOutcome(s, u)
    ensures Waiting(u, AtBegin(s.cs)) && u.cs != Fraction(AtBegin(s.cs))
    ensures u.seconds + u.integer as real == s.seconds + WholeValue(t) as real
  {
    var begin := AtBegin(s.cs);
    ReadNumber(s, t.hours, clock);
    var v1 := s.(cs := Whole(begin), integer := Accumulate(0, t.hours));
    ReadColon(v1, begin, clock);
    var v2 := v1.(cs := Minutes(begin), seconds := v1.seconds + (v1.integer * 3600) as real);
    ReadMinutes(v2, begin, t.minutes, clock);
    var v3 := v2.(cs := AfterMinutes(begin, t.minutes), integer := Accumulate(0, t.minutes));
    ReadColon(v3, begin, clock);
    var v4 := v3.(cs := Seconds(begin), seconds := v3.seconds + (v3.integer * 60) as real);
    ReadSeconds(v4, begin, t.secs, clock);
    u := v4.(cs := AfterSeconds(begin, t.secs), integer := Accumulate(0, t.secs));
    ReadsBoth(v3, [58], v4, t.secs, u, [58] + t.secs, clock);
    ReadsBoth(v2, t.minutes, v3, [58] + t.secs, u, t.minutes + ([58] + t.secs), clock);
    ReadsBoth(v1, [58], v2, t.minutes + ([58] + t.secs), u, [58] + (t.minutes + ([58] + t.secs)), clock);
    ReadsBoth(s, t.hours, v1, [58] + (t.minutes + ([58] + t.secs)), u, WholeText(t), clock);
  }

  lemma ReadWholeTime(s: Scanner, t: Time, clock: real) returns (u: Scanner)
    requires AtTime(s.cs) && !s.rejected && Proper(t)
    ensures Reads(s, WholeText(t), u, clock) && SameOutcome(s, u)
    ensures Waiting(u, AtBegin(s.cs)) && u.cs != Fraction(AtBegin(s.cs))
    ensures u.seconds + u.integer as real == s.seconds + WholeValue(t) as real
  {
    if t.Sec? {
      ReadNumber(s, t.sec, clock);
      u := s.(cs := Whole(AtBegin(s.cs)), integer := Accumulate(0, t.sec));
    } else {
      u := ReadHms(s, t, clock);
    }
  }

  /** A time of any length is read exactly, on top of what the sum held before. */
  lemma ReadTime(s: Scanner, t: Time, point: int, clock: real) returns (u: Scanner)
    requires AtTime(s.cs) && !s.rejected && Proper(t) && Point(point)
    ensures Reads(s, Text(t, point), u, clock) && SameOutcome(s, u)
    ensures Waiting(u, AtBegin(s.cs)) && Pending(u, AtBegin(s.cs)) == s.seconds + Value(t)
  {
    var begin := AtBegin(s.cs);
    u := ReadWholeTime(s, t, clock);
    if t.fraction == [] {
      assert Quotient(Accumulate(0, []), Pow10(0)) == 0.0;
    } else {
      var v := u;
      ReadPoint(v, begin, point, clock);
      var w := v.(cs := Dot(begin), seconds := v.seconds + v.integer as real);
      ReadDecimals(w, begin, t.fraction, clock);
      u := w.(cs := Fraction(begin), num := Accumulate(0, t.fraction), den := Pow10(|t.fraction|));
      ReadsBoth(v, [point], w, t.fraction, u, [point] + t.fraction, clock);
      ReadsBoth(s, WholeText(t), v, [point] + t.fraction, u, Text(t, point), clock);
    }
  }

  const NPT: seq<int> := [110, 112, 116, 61]

  lemma ReadPrefix(s: Scanner, clock: real)
    requires s.cs == 1 && !s.rejected
    ensures Reads(s, NPT, s.(cs := 65), clock)
  {
    OnPrefix();
    var s2, s3, s4, s5 := s.(cs := 62), s.(cs := 63), s.(cs := 64), s.(cs := 65);
    ReadsOne(s, 110, To(62, []), s2, clock);
    ReadsOne(s2, 112, To(63, []), s3, clock);
    ReadsOne(s3, 116, To(64, []), s4, clock);
    ReadsOne(s4, 61, To(65, []), s5, clock);
    ReadsBoth(s, [110], s2, [112], s3, [110, 112], clock);
    ReadsBoth(s, [110, 112], s3, [116], s4, [110, 112, 116], clock);
    ReadsBoth(s, [110, 112, 116], s4, [61], s5, NPT, clock);
  }

  /** The begin of a range, up to and including the dash. */
  lemma ReadBegin(range: Range, t: Time, point: int, clock: real) returns (u: Scanner)
    requires Proper(t) && Point(point)
    ensures Reads(Fresh(range), NPT + (Text(t, point) + [45]), u, clock)
    ensures u.cs == 26 && u.seconds == 0.0 && u.range == range.(begin := Value(t)) && !u.supported && !u.rejected
  {
    var s := Fresh(range).(cs := 65);
    ReadPrefix(Fresh(range), clock);
    var w := ReadTime(s, t, point, clock);
    ReadEnd(w, true, clock);
    u := w.(cs := 26, seconds := 0.0, range := w.range.(begin := Pending(w, true)));
    ReadsBoth(s, Text(t, point), w, [45], u, Text(t, point) + [45], clock);
    ReadsBoth(Fresh(range), NPT, s, Text(t, point) + [45], u, NPT + (Text(t, point) + [45]), clock);
  }

  /** The end of a range, up to the end of the header. */
  lemma ReadEndTime(s: Scanner, t: Time, point: int, clock: real) returns (u: Scanner)
    requires (s.cs == 26 || s.cs == 10) && s.seconds == 0.0 && !s.rejected && Proper(t) && Point(point)
    ensures Reads(s, Text(t, point) + [0], u, clock)
    ensures u.range == s.range.(end := Value(t)) && u.supported && !u.rejected
  {
    var w := ReadTime(s, t, point, clock);
    ReadEnd(w, false, clock);
    u := w.(cs := 67, seconds := 0.0, range := w.range.(end := Pending(w, false)), supported := true);
    ReadsBoth(s, Text(t, point), w, [0], u, Text(t, point) + [0], clock);
  }

  lemma ParseReads(header: seq<int>, range: Range, a: seq<int>, u: Scanner, b: seq<int>, v: Scanner, clock: real)
    requires Reads(Fresh(range), a, u, clock) && Reads(u, b, v, clock) && header + [0] == a + b
    ensures Parse(header, range, clock) == Parsed(v.supported && !v.rejected, v.range)
  {
    ReadsBoth(Fresh(range), a, u, b, v, header + [0], clock);
    ReadsAll(Fresh(range), header + [0], v, clock);
  }

  /** npt=begin- */
  lemma ParseOpen(range: Range, t: Time, point: int, clock: real)
    requires Proper(t) && Point(point)
    ensures Parse(NPT + (Text(t, point) + [45]), range, clock) == Parsed(true, range.(begin := Value(t)))
  {
    var header := NPT + (Text(t, point) + [45]);
    var u := ReadBegin(range, t, point, clock);
    OnDash();
    ReadsOne(u, 0, To(67, [11]), u.(cs := 67, supported := true), clock);
    ParseReads(header, range, header, u, [0], u.(cs := 67, supported := true), clock);
  }

  /** npt=begin-end: both times are read exactly and nothing leaks from one into the other. */
  lemma ParseClosed(range: Range, t1: Time, point1: int, t2: Time, point2: int, clock: real)
    requires Proper(t1) && Point(point1) && Proper(t2) && Point(point2)
    ensures Parse(NPT + (Text(t1, point1) + [45]) + Text(t2, point2), range, clock)
         == Parsed(true, range.(begin := Value(t1), end := Value(t2)))
  {
    var first := NPT + (Text(t1, point1) + [45]);
    var u := ReadBegin(range, t1, point1, clock);
    var v := ReadEndTime(u, t2, point2, clock);
    assert first + Text(t2, point2) + [0] == first + (Text(t2, point2) + [0]);
    ParseReads(first + Text(t2, point2), range, first, u, Text(t2, point2) + [0], v, clock);
  }

  lemma ReadOpenBegin(range: Range, clock: real)
    ensures Reads(Fresh(range), NPT + [45], Fresh(range).(cs := 10), clock)
  {
    var s := Fresh(range).(cs := 65);
    ReadPrefix(Fresh(range), clock);
    OnDash();
    ReadsOne(s, 45, To(10, []), s.(cs := 10), clock);
    ReadsBoth(Fresh(range), NPT, s, [45], s.(cs := 10), NPT + [45], clock);
  }

  /** npt=-end */
  lemma ParseEndOnly(range: Range, t: Time, point: int, clock: real)
    requires Proper(t) && Point(point)
    ensures Parse(NPT + [45] + Text(t, point), range, clock) == Parsed(true, range.(end := Value(t)))
  {
    var u := Fresh(range).(cs := 10);
    ReadOpenBegin(range, clock);
    var v := ReadEndTime(u, t, point, clock);
    assert NPT + [45] + Text(t, point) + [0] == NPT + [45] + (Text(t, point) + [0]);
    ParseReads(NPT + [45] + Text(t, point), range, NPT + [45], u, Text(t, point) + [0], v, clock);
  }

  /** npt=- is refused. */
  lemma ParseNeither(range: Range, clock: real)
    ensures Parse(NPT + [45], range, clock) == Parsed(false, range)
  {
    var u := Fresh(range).(cs := 10);
    ReadOpenBegin(range, clock);
    OnDash();
    ReadsOne(u, 0, To(67, []), u.(cs := 67), clock);
    ParseReads(NPT + [45], range, NPT + [45], u, [0], u.(cs := 67), clock);
  }

  // ---------------------------------------------------------------- what PLAY prints

  /** The decimal digits of a number. */
  function Decimal(n: nat): (ds: seq<int>)
    ensures ds != [] && Digits(ds)
  {
    if n < 10 then [n + 48] else Decimal(n / 10) + [n % 10 + 48]
  }

  /** Exactly k digits, with leading zeros. */
  function Padded(n: nat, k: nat): (ds: seq<int>)
    ensures |ds| == k && Digits(ds)
  {
    if k == 0 then [] else Padded(n / 10, k - 1) + [n % 10 + 48]
  }

  /** printf of a non-negative number of microseconds as seconds with "%f". */
  function Printed(us: nat): seq<int> {
    Decimal(us / 1000000) + ([46] + Padded(us % 1000000, 6))
  }

  function InSeconds(us: int): real {
    us as real / 1000000.0
  }

  /** The Range header of send_play_reply. */
  function RangeHeader(begin: int, end: int): seq<int> {
    NPT + (if begin >= 0 then Printed(begin) else []) + [45] + (if end > 0 then Printed(end) else [])
  }

  lemma {:induction false} AccumulateLast(n: int, ds: seq<int>, c: int)
    ensures Accumulate(n, ds + [c]) == Accumulate(n, ds) * 10 + (c - 48)
    decreases |ds|
  {
    if ds == [] {
      assert [c][1..] == [];
    } else {
      assert (ds + [c])[1..] == ds[1..] + [c];
      AccumulateLast(n * 10 + (ds[0] - 48), ds[1..], c);
    }
  }

  lemma {:induction false} DecimalValue(n: nat)
    ensures Accumulate(0, Decimal(n)) == n
  {
    if n < 10 {
      assert [n + 48][1..] == [];
    } else {
      DecimalValue(n / 10);
      AccumulateLast(0, Decimal(n / 10), n % 10 + 48);
    }
  }

  lemma {:induction false} PaddedValue(n: nat, k: nat)
    requires n < Pow10(k)
    ensures Accumulate(0, Padded(n, k)) == n
  {
    if k > 0 {
      PaddedValue(n / 10, k - 1);
      AccumulateLast(0, Padded(n / 10, k - 1), n % 10 + 48);
    }
  }

  /** A printed number of microseconds is a proper time of the same value. */
  lemma PrintedIsTime(us: nat)
    ensures var t := PrintedTime(us);
            Proper(t) && Text(t, 46) == Printed(us) && Value(t) == InSeconds(us)
  {
    var q, r := us / 1000000, us % 1000000;
    assert Pow10(6) == 1000000;
    DecimalValue(q);
    PaddedValue(r, 6);
    assert us == q * 1000000 + r;
  }

  function PrintedTime(us: nat): Time {
    Sec(Decimal(us / 1000000), Padded(us % 1000000, 6))
  }

  /** An hour, a minute and a second written with colons, and millionths behind a point, are read as
      3600 times the hour plus 60 times the minute plus the second plus the millionths. */
  lemma ClockTimeRead(h: nat, m: nat, s: nat, us: nat, range: Range, clock: real)
    requires m < 60 && s < 60 && us < 1000000
    ensures var text := Decimal(h) + ([58] + (Padded(m, 2) + ([58] + Padded(s, 2)))) + ([46] + Padded(us, 6));
            Parse(NPT + (text + [45]), range, clock) ==
            Parsed(true, range.(begin := 3600.0 * h as real + 60.0 * m as real + s as real + us as real / 1000000.0))
  {
    var t := Hms(Decimal(h), Padded(m, 2), Padded(s, 2), Padded(us, 6));
    assert Pow10(2) == 100 && Pow10(6) == 1000000;
    DecimalValue(h);
    PaddedValue(m, 2);
    PaddedValue(s, 2);
    PaddedValue(us, 6);
    SixtyPadded(m);
    SixtyPadded(s);
    assert Value(t) == (3600 * h + 60 * m + s) as real + us as real / 1000000.0;
    ParseOpen(range, t, 46, clock);
  }

  lemma SixtyPadded(n: nat)
    requires n < 60
    ensures Sixty(Padded(n, 2))
  {
    assert Padded(n / 10, 1) == Padded(n / 10 / 10, 0) + [(n / 10) % 10 + 48];
    assert Padded(n, 2)[0] == (n / 10) % 10 + 48;
  }

  lemma PrintThenParseOpen(begin: nat, end: int, range: Range, clock: real)
    requires end <= 0
    ensures Parse(RangeHeader(begin, end), range, clock) == Parsed(true, range.(begin := InSeconds(begin)))
  {
    PrintedIsTime(begin);
    assert RangeHeader(begin, end) == NPT + (Printed(begin) + [45]);
    ParseOpen(range, PrintedTime(begin), 46, clock);
  }

  lemma PrintThenParseClosed(begin: nat, end: nat, range: Range, clock: real)
    requires end > 0
    ensures Parse(RangeHeader(begin, end), range, clock)
         == Parsed(true, range.(begin := InSeconds(begin), end := InSeconds(end)))
  {
    PrintedIsTime(begin);
    PrintedIsTime(end);
    assert RangeHeader(begin, end) == NPT + (Printed(begin) + [45]) + Printed(end);
    ParseClosed(range, PrintedTime(begin), 46, PrintedTime(end), 46, clock);
  }

  lemma PrintThenParseEnd(begin: int, end: nat, range: Range, clock: real)
    requires begin < 0 && end > 0
    ensures Parse(RangeHeader(begin, end), range, clock) == Parsed(true, range.(end := InSeconds(end)))
  {
    PrintedIsTime(end);
    assert RangeHeader(begin, end) == NPT + [45] + Printed(end);
    ParseEndOnly(range, PrintedTime(end), 46, clock);
  }

  lemma PrintThenParseNeither(begin: int, end: int, range: Range, clock: real)
    requires begin < 0 && end <= 0
    ensures Parse(RangeHeader(begin, end), range, clock) == Parsed(false, range)
  {
    assert RangeHeader(begin, end) == NPT + [45];
    ParseNeither(range, clock);
  }

  /** Reading the Range header of a PLAY reply gives back the begin and the end that were
      printed; what was not printed keeps its value; a header without any time is refused. */
  lemma PrintThenParse(begin: int, end: int, range: Range, clock: real)
    ensures Parse(RangeHeader(begin, end), range, clock) ==
            Parsed(begin >= 0 || end > 0,
                   range.(begin := if begin >= 0 then InSeconds(begin) else range.begin,
                          end := if end > 0 then InSeconds(end) else range.end))
  {
    if begin >= 0 && end > 0 {
      PrintThenParseClosed(begin, end, range, clock);
    } else if begin >= 0 {
      PrintThenParseOpen(begin, end, range, clock);
    } else if end > 0 {
      PrintThenParseEnd(begin, end, range, clock);
    } else {
      PrintThenParseNeither(begin, end, range, clock);
    }
  }
}
