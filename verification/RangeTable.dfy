/**
  The transition table of the generated Range header automaton (ragel_range.c:36-262), one row
  per state: the single keys, the key ranges as flat pairs of bounds, and the transitions for
  the single keys, the ranges and everything else, in that order.
  */
module RangeTable {

  /** Where a transition leads and which actions it runs. */
  datatype Transition = To(target: nat, actions: seq<nat>)

  datatype Row = Row(singles: seq<int>, ranges: seq<int>, transitions: seq<Transition>)

  predicate KeysInOrder(keys: seq<int>, i: nat)
    decreases |keys| - i
  {
    i + 1 >= |keys| || (keys[i] < keys[i + 1] && KeysInOrder(keys, i + 1))
  }

  /** Neighbouring bounds: not descending inside a pair, ascending between pairs. */
  predicate BoundsInOrder(bounds: seq<int>, i: nat)
    decreases |bounds| - i
  {
    i + 1 >= |bounds| ||
    ((if i % 2 == 0 then bounds[i] <= bounds[i + 1] else bounds[i] < bounds[i + 1]) && BoundsInOrder(bounds, i + 1))
  }

  predicate InOrder(row: Row) {
    && KeysInOrder(row.singles, 0) && BoundsInOrder(row.ranges, 0) && |row.ranges| % 2 == 0
    && |row.transitions| == |row.singles| + |row.ranges| / 2 + 1
  }

  function Rows0(cs: nat): (row: Row)
    ensures InOrder(row)
  {
    match cs
    case 0 =>
      Row([], [],
        [To(62, [])])
    case 1 =>
      Row([110], [65, 90, 97, 122],
        [To(62, []), To(2, []), To(2, []), To(0, [])])
    case _ => Row([], [], [To(0, [])])
  }

  function Rows2(cs: nat): (row: Row)
    ensures InOrder(row)
  {
    match cs
    case 2 =>
      Row([61], [65, 90, 97, 122],
        [To(3, []), To(2, []), To(2, []), To(0, [])])
    case 3 =>
      Row([], [32, 126],
        [To(4, []), To(0, [])])
    case _ => Row([], [], [To(0, [])])
  }

  function Rows4(cs: nat): (row: Row)
    ensures InOrder(row)
  {
    match cs
    case 4 =>
      Row([0, 59, 110], [32, 126],
        [To(67, []), To(5, []), To(6, []), To(4, []), To(0, [])])
    case 5 =>
      Row([0, 59, 110, 116], [32, 126],
        [To(67, []), To(5, []), To(6, []), To(36, []), To(4, []), To(0, [])])
    case _ => Row([], [], [To(0, [])])
  }

  function Rows6(cs: nat): (row: Row)
    ensures InOrder(row)
  {
    match cs
    case 6 =>
      Row([0, 59, 110, 112], [32, 126],
        [To(67, []), To(5, []), To(6, []), To(7, []), To(4, []), To(0, [])])
    case 7 =>
      Row([0, 59, 110, 116], [32, 126],
        [To(67, []), To(5, []), To(6, []), To(8, []), To(4, []), To(0, [])])
    case _ => Row([], [], [To(0, [])])
  }

  function Rows8(cs: nat): (row: Row)
    ensures InOrder(row)
  {
    match cs
    case 8 =>
      Row([0, 59, 61, 110], [32, 126],
        [To(67, []), To(5, []), To(9, []), To(6, []), To(4, []), To(0, [])])
    case 9 =>
      Row([0, 45, 59, 110], [32, 47, 48, 57, 58, 126],
        [To(67, []), To(10, []), To(5, []), To(33, []), To(4, []), To(23, [0, 1]), To(4, []), To(0, [])])
    case _ => Row([], [], [To(0, [])])
  }

  function Rows10(cs: nat): (row: Row)
    ensures InOrder(row)
  {
    match cs
    case 10 =>
      Row([0, 59, 110], [32, 47, 48, 57, 58, 126],
        [To(67, []), To(5, []), To(20, []), To(4, []), To(11, [0, 1]), To(4, []), To(0, [])])
    case 11 =>
      Row([0, 44, 46, 58, 59, 110], [32, 47, 48, 57, 60, 64, 65, 90, 91, 96, 97, 122, 123, 126],
        [To(67, [4, 10, 11]), To(12, [4]), To(12, [4]), To(14, [2]), To(5, [4, 10, 11]), To(6, [4, 10, 11]), To(4, []), To(11, [1]), To(4, []), To(4, [4, 10, 11]), To(4, []), To(4, [4, 10, 11]), To(4, []), To(0, [])])
    case _ => Row([], [], [To(0, [])])
  }

  function Rows12(cs: nat): (row: Row)
    ensures InOrder(row)
  {
    match cs
    case 12 =>
      Row([0, 59, 110], [32, 47, 48, 57, 58, 126],
        [To(67, []), To(5, []), To(6, []), To(4, []), To(13, [5, 6]), To(4, []), To(0, [])])
    case 13 =>
      Row([0, 59, 110], [32, 47, 48, 57, 58, 64, 65, 90, 91, 96, 97, 122, 123, 126],
        [To(67, [7, 10, 11]), To(5, [7, 10, 11]), To(6, [7, 10, 11]), To(4, []), To(13, [6]), To(4, []), To(4, [7, 10, 11]), To(4, []), To(4, [7, 10, 11]), To(4, []), To(0, [])])
    case _ => Row([], [], [To(0, [])])
  }

  function Rows14(cs: nat): (row: Row)
    ensures InOrder(row)
  {
    match cs
    case 14 =>
      Row([0, 59, 110], [32, 47, 48, 53, 54, 57, 58, 126],
        [To(67, []), To(5, []), To(6, []), To(4, []), To(15, [0, 1]), To(16, [0, 1]), To(4, []), To(0, [])])
    case 15 =>
      Row([0, 58, 59, 110], [32, 47, 48, 57, 60, 126],
        [To(67, []), To(17, [3]), To(5, []), To(6, []), To(4, []), To(16, [1]), To(4, []), To(0, [])])
    case _ => Row([], [], [To(0, [])])
  }

  function Rows16(cs: nat): (row: Row)
    ensures InOrder(row)
  {
    match cs
    case 16 =>
      Row([0, 58, 59, 110], [32, 126],
        [To(67, []), To(17, [3]), To(5, []), To(6, []), To(4, []), To(0, [])])
    case 17 =>
      Row([0, 59, 110], [32, 47, 48, 53, 54, 57, 58, 126],
        [To(67, []), To(5, []), To(6, []), To(4, []), To(18, [0, 1]), To(19, [0, 1]), To(4, []), To(0, [])])
    case _ => Row([], [], [To(0, [])])
  }

  function Rows18(cs: nat): (row: Row)
    ensures InOrder(row)
  {
    match cs
    case 18 =>
      Row([0, 44, 46, 59, 110], [32, 47, 48, 57, 58, 64, 65, 90, 91, 96, 97, 122, 123, 126],
        [To(67, [4, 10, 11]), To(12, [4]), To(12, [4]), To(5, [4, 10, 11]), To(6, [4, 10, 11]), To(4, []), To(19, [1]), To(4, []), To(4, [4, 10, 11]), To(4, []), To(4, [4, 10, 11]), To(4, []), To(0, [])])
    case 19 =>
      Row([0, 44, 46, 59, 110], [32, 64, 65, 90, 91, 96, 97, 122, 123, 126],
        [To(67, [4, 10, 11]), To(12, [4]), To(12, [4]), To(5, [4, 10, 11]), To(6, [4, 10, 11]), To(4, []), To(4, [4, 10, 11]), To(4, []), To(4, [4, 10, 11]), To(4, []), To(0, [])])
    case _ => Row([], [], [To(0, [])])
  }

  function Rows20(cs: nat): (row: Row)
    ensures InOrder(row)
  {
    match cs
    case 20 =>
      Row([0, 59, 110, 111, 112], [32, 126],
        [To(67, []), To(5, []), To(6, []), To(21, []), To(7, []), To(4, []), To(0, [])])
    case 21 =>
      Row([0, 59, 110, 119], [32, 126],
        [To(67, []), To(5, []), To(6, []), To(22, []), To(4, []), To(0, [])])
    case _ => Row([], [], [To(0, [])])
  }

  function Rows22(cs: nat): (row: Row)
    ensures InOrder(row)
  {
    match cs
    case 22 =>
      Row([0, 59, 110], [32, 64, 65, 90, 91, 96, 97, 122, 123, 126],
        [To(67, [8, 10, 11]), To(5, [8, 10, 11]), To(6, [8, 10, 11]), To(4, []), To(4, [8, 10, 11]), To(4, []), To(4, [8, 10, 11]), To(4, []), To(0, [])])
    case 23 =>
      Row([0, 44, 45, 46, 58, 59, 110], [32, 47, 48, 57, 60, 126],
        [To(67, []), To(24, [4]), To(26, [4, 9]), To(24, [4]), To(27, [2]), To(5, []), To(6, []), To(4, []), To(23, [1]), To(4, []), To(0, [])])
    case _ => Row([], [], [To(0, [])])
  }

  function Rows24(cs: nat): (row: Row)
    ensures InOrder(row)
  {
    match cs
    case 24 =>
      Row([0, 59, 110], [32, 47, 48, 57, 58, 126],
        [To(67, []), To(5, []), To(6, []), To(4, []), To(25, [5, 6]), To(4, []), To(0, [])])
    case 25 =>
      Row([0, 45, 59, 110], [32, 47, 48, 57, 58, 126],
        [To(67, []), To(26, [7, 9]), To(5, []), To(6, []), To(4, []), To(25, [6]), To(4, []), To(0, [])])
    case _ => Row([], [], [To(0, [])])
  }

  function Rows26(cs: nat): (row: Row)
    ensures InOrder(row)
  {
    match cs
    case 26 =>
      Row([0, 59, 110], [32, 47, 48, 57, 58, 64, 65, 90, 91, 96, 97, 122, 123, 126],
        [To(67, [11]), To(5, [11]), To(20, [11]), To(4, []), To(11, [0, 1]), To(4, []), To(4, [11]), To(4, []), To(4, [11]), To(4, []), To(0, [])])
    case 27 =>
      Row([0, 59, 110], [32, 47, 48, 53, 54, 57, 58, 126],
        [To(67, []), To(5, []), To(6, []), To(4, []), To(28, [0, 1]), To(29, [0, 1]), To(4, []), To(0, [])])
    case _ => Row([], [], [To(0, [])])
  }

  function Rows28(cs: nat): (row: Row)
    ensures InOrder(row)
  {
    match cs
    case 28 =>
      Row([0, 58, 59, 110], [32, 47, 48, 57, 60, 126],
        [To(67, []), To(30, [3]), To(5, []), To(6, []), To(4, []), To(29, [1]), To(4, []), To(0, [])])
    case 29 =>
      Row([0, 58, 59, 110], [32, 126],
        [To(67, []), To(30, [3]), To(5, []), To(6, []), To(4, []), To(0, [])])
    case _ => Row([], [], [To(0, [])])
  }

  function Rows30(cs: nat): (row: Row)
    ensures InOrder(row)
  {
    match cs
    case 30 =>
      Row([0, 59, 110], [32, 47, 48, 53, 54, 57, 58, 126],
        [To(67, []), To(5, []), To(6, []), To(4, []), To(31, [0, 1]), To(32, [0, 1]), To(4, []), To(0, [])])
    case 31 =>
      Row([0, 44, 45, 46, 59, 110], [32, 47, 48, 57, 58, 126],
        [To(67, []), To(24, [4]), To(26, [4, 9]), To(24, [4]), To(5, []), To(6, []), To(4, []), To(32, [1]), To(4, []), To(0, [])])
    case _ => Row([], [], [To(0, [])])
  }

  function Rows32(cs: nat): (row: Row)
    ensures InOrder(row)
  {
    match cs
    case 32 =>
      Row([0, 44, 45, 46, 59, 110], [32, 126],
        [To(67, []), To(24, [4]), To(26, [4, 9]), To(24, [4]), To(5, []), To(6, []), To(4, []), To(0, [])])
    case 33 =>
      Row([0, 59, 110, 111, 112], [32, 126],
        [To(67, []), To(5, []), To(6, []), To(34, []), To(7, []), To(4, []), To(0, [])])
    case _ => Row([], [], [To(0, [])])
  }

  function Rows34(cs: nat): (row: Row)
    ensures InOrder(row)
  {
    match cs
    case 34 =>
      Row([0, 59, 110, 119], [32, 126],
        [To(67, []), To(5, []), To(6, []), To(35, []), To(4, []), To(0, [])])
    case 35 =>
      Row([0, 45, 59, 110], [32, 126],
        [To(67, []), To(26, [8, 9]), To(5, []), To(6, []), To(4, []), To(0, [])])
    case _ => Row([], [], [To(0, [])])
  }

  function Rows36(cs: nat): (row: Row)
    ensures InOrder(row)
  {
    match cs
    case 36 =>
      Row([0, 59, 105, 110], [32, 126],
        [To(67, []), To(5, []), To(37, []), To(6, []), To(4, []), To(0, [])])
    case 37 =>
      Row([0, 59, 109, 110], [32, 126],
        [To(67, []), To(5, []), To(38, []), To(6, []), To(4, []), To(0, [])])
    case _ => Row([], [], [To(0, [])])
  }

  function Rows38(cs: nat): (row: Row)
    ensures InOrder(row)
  {
    match cs
    case 38 =>
      Row([0, 59, 101, 110], [32, 126],
        [To(67, []), To(5, []), To(39, []), To(6, []), To(4, []), To(0, [])])
    case 39 =>
      Row([0, 59, 61, 110], [32, 126],
        [To(67, []), To(5, []), To(40, []), To(6, []), To(4, []), To(0, [])])
    case _ => Row([], [], [To(0, [])])
  }

  function Rows40(cs: nat): (row: Row)
    ensures InOrder(row)
  {
    match cs
    case 40 =>
      Row([0, 59, 110], [32, 47, 48, 57, 58, 126],
        [To(67, []), To(5, []), To(6, []), To(4, []), To(41, [12]), To(4, []), To(0, [])])
    case 41 =>
      Row([0, 59, 110], [32, 47, 48, 57, 58, 126],
        [To(67, []), To(5, []), To(6, []), To(4, []), To(42, []), To(4, []), To(0, [])])
    case _ => Row([], [], [To(0, [])])
  }

  function Rows42(cs: nat): (row: Row)
    ensures InOrder(row)
  {
    match cs
    case 42 =>
      Row([0, 59, 110], [32, 47, 48, 57, 58, 126],
        [To(67, []), To(5, []), To(6, []), To(4, []), To(43, []), To(4, []), To(0, [])])
    case 43 =>
      Row([0, 59, 110], [32, 47, 48, 57, 58, 126],
        [To(67, []), To(5, []), To(6, []), To(4, []), To(44, [13]), To(4, []), To(0, [])])
    case _ => Row([], [], [To(0, [])])
  }

  function Rows44(cs: nat): (row: Row)
    ensures InOrder(row)
  {
    match cs
    case 44 =>
      Row([0, 48, 49, 59, 110], [32, 126],
        [To(67, []), To(45, []), To(61, []), To(5, []), To(6, []), To(4, []), To(0, [])])
    case 45 =>
      Row([0, 59, 110], [32, 47, 48, 57, 58, 126],
        [To(67, []), To(5, []), To(6, []), To(4, []), To(46, [14]), To(4, []), To(0, [])])
    case _ => Row([], [], [To(0, [])])
  }

  function Rows46(cs: nat): (row: Row)
    ensures InOrder(row)
  {
    match cs
    case 46 =>
      Row([0, 51, 59, 110], [32, 47, 48, 50, 52, 126],
        [To(67, []), To(60, []), To(5, []), To(6, []), To(4, []), To(47, []), To(4, []), To(0, [])])
    case 47 =>
      Row([0, 59, 110], [32, 47, 48, 57, 58, 126],
        [To(67, []), To(5, []), To(6, []), To(4, []), To(48, [15]), To(4, []), To(0, [])])
    case _ => Row([], [], [To(0, [])])
  }

  function Rows48(cs: nat): (row: Row)
    ensures InOrder(row)
  {
    match cs
    case 48 =>
      Row([0, 59, 84, 110], [32, 126],
        [To(67, []), To(5, []), To(49, []), To(6, []), To(4, []), To(0, [])])
    case 49 =>
      Row([0, 50, 59, 110], [32, 47, 48, 49, 51, 126],
        [To(67, []), To(59, []), To(5, []), To(6, []), To(4, []), To(50, []), To(4, []), To(0, [])])
    case _ => Row([], [], [To(0, [])])
  }

  function Rows50(cs: nat): (row: Row)
    ensures InOrder(row)
  {
    match cs
    case 50 =>
      Row([0, 59, 110], [32, 47, 48, 57, 58, 126],
        [To(67, []), To(5, []), To(6, []), To(4, []), To(51, [16]), To(4, []), To(0, [])])
    case 51 =>
      Row([0, 59, 110], [32, 47, 48, 53, 54, 126],
        [To(67, []), To(5, []), To(6, []), To(4, []), To(52, []), To(4, []), To(0, [])])
    case _ => Row([], [], [To(0, [])])
  }

  function Rows52(cs: nat): (row: Row)
    ensures InOrder(row)
  {
    match cs
    case 52 =>
      Row([0, 59, 110], [32, 47, 48, 57, 58, 126],
        [To(67, []), To(5, []), To(6, []), To(4, []), To(53, [17]), To(4, []), To(0, [])])
    case 53 =>
      Row([0, 59, 110], [32, 47, 48, 53, 54, 126],
        [To(67, []), To(5, []), To(6, []), To(4, []), To(54, []), To(4, []), To(0, [])])
    case _ => Row([], [], [To(0, [])])
  }

  function Rows54(cs: nat): (row: Row)
    ensures InOrder(row)
  {
    match cs
    case 54 =>
      Row([0, 59, 110], [32, 47, 48, 57, 58, 126],
        [To(67, []), To(5, []), To(6, []), To(4, []), To(55, [18]), To(4, []), To(0, [])])
    case 55 =>
      Row([0, 46, 59, 90, 110], [32, 126],
        [To(67, []), To(56, []), To(5, []), To(58, []), To(6, []), To(4, []), To(0, [])])
    case _ => Row([], [], [To(0, [])])
  }

  function Rows56(cs: nat): (row: Row)
    ensures InOrder(row)
  {
    match cs
    case 56 =>
      Row([0, 59, 110], [32, 47, 48, 57, 58, 126],
        [To(67, []), To(5, []), To(6, []), To(4, []), To(57, []), To(4, []), To(0, [])])
    case 57 =>
      Row([0, 59, 90, 110], [32, 47, 48, 57, 58, 126],
        [To(67, []), To(5, []), To(58, []), To(6, []), To(4, []), To(57, []), To(4, []), To(0, [])])
    case _ => Row([], [], [To(0, [])])
  }

  function Rows58(cs: nat): (row: Row)
    ensures InOrder(row)
  {
    match cs
    case 58 =>
      Row([0, 59, 110], [32, 64, 65, 90, 91, 96, 97, 122, 123, 126],
        [To(67, [19]), To(5, []), To(6, [19]), To(4, []), To(4, [19]), To(4, []), To(4, [19]), To(4, []), To(0, [])])
    case 59 =>
      Row([0, 59, 110], [32, 47, 48, 51, 52, 126],
        [To(67, []), To(5, []), To(6, []), To(4, []), To(51, [16]), To(4, []), To(0, [])])
    case _ => Row([], [], [To(0, [])])
  }

  function Rows60(cs: nat): (row: Row)
    ensures InOrder(row)
  {
    match cs
    case 60 =>
      Row([0, 59, 110], [32, 47, 48, 49, 50, 126],
        [To(67, []), To(5, []), To(6, []), To(4, []), To(48, [15]), To(4, []), To(0, [])])
    case 61 =>
      Row([0, 59, 110], [32, 48, 49, 50, 51, 126],
        [To(67, []), To(5, []), To(6, []), To(4, []), To(46, [14]), To(4, []), To(0, [])])
    case _ => Row([], [], [To(0, [])])
  }

  function Rows62(cs: nat): (row: Row)
    ensures InOrder(row)
  {
    match cs
    case 62 =>
      Row([61, 112], [65, 90, 97, 122],
        [To(3, []), To(63, []), To(2, []), To(2, []), To(0, [])])
    case 63 =>
      Row([61, 116], [65, 90, 97, 122],
        [To(3, []), To(64, []), To(2, []), To(2, []), To(0, [])])
    case _ => Row([], [], [To(0, [])])
  }

  function Rows64(cs: nat): (row: Row)
    ensures InOrder(row)
  {
    match cs
    case 64 =>
      Row([61], [65, 90, 97, 122],
        [To(65, []), To(2, []), To(2, []), To(0, [])])
    case 65 =>
      Row([45, 110], [32, 47, 48, 57, 58, 126],
        [To(10, []), To(66, []), To(4, []), To(23, [0, 1]), To(4, []), To(0, [])])
    case _ => Row([], [], [To(0, [])])
  }

  function Rows66(cs: nat): (row: Row)
    ensures InOrder(row)
  {
    match cs
    case 66 =>
      Row([0, 59, 110, 111], [32, 126],
        [To(67, []), To(5, []), To(6, []), To(34, []), To(4, []), To(0, [])])
    case 67 =>
      Row([], [],
        [To(0, [])])
    case _ => Row([], [], [To(0, [])])
  }

  function RowOf(cs: nat): (row: Row)
    ensures InOrder(row)
  {
    if cs < 2 then Rows0(cs)
    else if cs < 4 then Rows2(cs)
    else if cs < 6 then Rows4(cs)
    else if cs < 8 then Rows6(cs)
    else if cs < 10 then Rows8(cs)
    else if cs < 12 then Rows10(cs)
    else if cs < 14 then Rows12(cs)
    else if cs < 16 then Rows14(cs)
    else if cs < 18 then Rows16(cs)
    else if cs < 20 then Rows18(cs)
    else if cs < 22 then Rows20(cs)
    else if cs < 24 then Rows22(cs)
    else if cs < 26 then Rows24(cs)
    else if cs < 28 then Rows26(cs)
    else if cs < 30 then Rows28(cs)
    else if cs < 32 then Rows30(cs)
    else if cs < 34 then Rows32(cs)
    else if cs < 36 then Rows34(cs)
    else if cs < 38 then Rows36(cs)
    else if cs < 40 then Rows38(cs)
    else if cs < 42 then Rows40(cs)
    else if cs < 44 then Rows42(cs)
    else if cs < 46 then Rows44(cs)
    else if cs < 48 then Rows46(cs)
    else if cs < 50 then Rows48(cs)
    else if cs < 52 then Rows50(cs)
    else if cs < 54 then Rows52(cs)
    else if cs < 56 then Rows54(cs)
    else if cs < 58 then Rows56(cs)
    else if cs < 60 then Rows58(cs)
    else if cs < 62 then Rows60(cs)
    else if cs < 64 then Rows62(cs)
    else if cs < 66 then Rows64(cs)
    else Rows66(cs)
  }
}
