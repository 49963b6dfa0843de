/**
  The sorted-index array of the configuration code (conf.rem/array.c): entries in insertion
  order, a permutation of their indices that lists them by key, and a search that starts in the
  middle of the next power of two and halves its step.
  */
module SortedArray {
  import opened Common

  const INT_MAX: nat := 0x7FFF_FFFF

  /** The C type in which the search computes. */
  type Int = x: int | -0x8000_0000 <= x <= 0x7FFF_FFFF

  /** The largest power of two that an int can hold. */
  const HALF: nat := 0x4000_0000

  /** struct data_unset: a key, a type tag and the value that its callbacks work on. */
  datatype Entry<K, V> = Entry(key: K, kind: nat, value: V)

  /** The comparison of keys is a total order (buffer_caseless_compare on folded keys). */
  ghost predicate TotalOrder<K(!new)>(cmp: (K, K) -> int) {
    && (forall a, b :: cmp(a, b) == 0 <==> a == b)
    && (forall a, b :: cmp(a, b) < 0 <==> cmp(b, a) > 0)
    && (forall a, b, c :: cmp(a, b) < 0 && cmp(b, c) < 0 ==> cmp(a, c) < 0)
  }

  predicate PowerOfTwo(n: nat) {
    n == 1 || (n > 1 && n % 2 == 0 && PowerOfTwo(n / 2))
  }

  /** `sorted` lists every index of `keys` once, in strictly increasing order of the keys. */
  ghost predicate Sorts<K(!new)>(cmp: (K, K) -> int, keys: seq<K>, sorted: seq<nat>) {
    && |sorted| == |keys|
    && (forall i :: 0 <= i < |sorted| ==> sorted[i] < |keys|)
    && (forall d :: 0 <= d < |keys| ==> d in sorted)
    && (forall i, j :: 0 <= i < j < |sorted| ==> cmp(keys[sorted[i]], keys[sorted[j]]) < 0)
  }

  /** The index over the keys is in order, and the search starts from a power of two that is not
      below their number. */
  ghost predicate Indexed<K(!new)>(cmp: (K, K) -> int, keys: seq<K>, sorted: seq<nat>, n: nat) {
    forall lock: int {:trigger Unlock(lock)} :: Unlock(lock) ==>
      TotalOrder(cmp) && Sorts(cmp, keys, sorted) && PowerOfTwo(n) && |keys| <= n
  }

  /** All keys before position p are smaller than `key`, none from p on is. */
  ghost predicate Splits<K>(cmp: (K, K) -> int, keys: seq<K>, sorted: seq<nat>, key: K, p: int) {
    && 0 <= p <= |sorted|
    && (forall i :: 0 <= i < p ==> sorted[i] < |keys| && cmp(key, keys[sorted[i]]) > 0)
    && (forall i :: p <= i < |sorted| ==> sorted[i] < |keys| && cmp(key, keys[sorted[i]]) <= 0)
  }

  lemma FirstNotSmaller<K(!new)>(cmp: (K, K) -> int, keys: seq<K>, sorted: seq<nat>, key: K) returns (p: nat)
    requires forall i :: 0 <= i < |sorted| ==> sorted[i] < |keys|
    ensures p <= |sorted|
    ensures forall i :: 0 <= i < p ==> cmp(key, keys[sorted[i]]) > 0
    ensures p < |sorted| ==> cmp(key, keys[sorted[p]]) <= 0
  {
    p := 0;
    while p < |sorted| && cmp(key, keys[sorted[p]]) > 0
      invariant p <= |sorted|
      invariant forall i :: 0 <= i < p ==> cmp(key, keys[sorted[i]]) > 0
    {
      p := p + 1;
    }
  }

  lemma NoneSmallerBehind<K(!new)>(cmp: (K, K) -> int, keys: seq<K>, sorted: seq<nat>, key: K, p: nat, i: nat)
    requires TotalOrder(cmp) && Sorts(cmp, keys, sorted) && p < i < |sorted| && cmp(key, keys[sorted[p]]) <= 0
    ensures cmp(key, keys[sorted[i]]) < 0
  {
    assert cmp(keys[sorted[p]], keys[sorted[i]]) < 0;
  }

  lemma KeyAtSplit<K(!new)>(cmp: (K, K) -> int, keys: seq<K>, sorted: seq<nat>, key: K, p: nat)
    requires TotalOrder(cmp) && Sorts(cmp, keys, sorted) && Splits(cmp, keys, sorted, key, p) && key in keys
    ensures p < |sorted| && keys[sorted[p]] == key
  {
    var d :| 0 <= d < |keys| && keys[d] == key;
    assert d in sorted;
    var i :| 0 <= i < |sorted| && sorted[i] == d;
    assert cmp(key, keys[sorted[i]]) == 0;
  }

  lemma SplitExists<K(!new)>(cmp: (K, K) -> int, keys: seq<K>, sorted: seq<nat>, n: nat, key: K) returns (p: nat)
    requires Indexed(cmp, keys, sorted, n)
    ensures Splits(cmp, keys, sorted, key, p)
    ensures p <= |sorted| == |keys| <= n
    ensures key in keys <==> p < |sorted| && keys[sorted[p]] == key
  {
    assert Unlock(0);
    p := FirstNotSmaller(cmp, keys, sorted, key);
    forall i | p < i < |sorted| ensures cmp(key, keys[sorted[i]]) < 0 {
      NoneSmallerBehind(cmp, keys, sorted, key, p, i);
    }
    if key in keys {
      KeyAtSplit(cmp, keys, sorted, key, p);
    }
  }

  /** The comparison with the key at a position tells on which side of it the split is. */
  lemma ComparisonTells<K(!new)>(cmp: (K, K) -> int, keys: seq<K>, sorted: seq<nat>, n: nat, key: K, p: nat, pos: nat)
    requires Indexed(cmp, keys, sorted, n) && Splits(cmp, keys, sorted, key, p) && pos < |sorted|
    ensures sorted[pos] < |keys|
    ensures var c := cmp(key, keys[sorted[pos]]);
            && (c > 0 <==> pos < p)
            && (c == 0 <==> keys[sorted[pos]] == key)
            && (c == 0 ==> pos == p)
  {
    assert Unlock(0);
    assert p < pos ==> cmp(keys[sorted[p]], keys[sorted[pos]]) < 0;
  }

  // ---------------------------------------------------------------- the stepping search

  /** How far the split point p can be from the position probed with step i: strictly within
      2 * i of a key that is there, and of the gap before p when it is missing. */
  predicate Near(found: bool, p: int, pos: int, i: nat) {
    if found then
      if i == 0 then pos == p else pos - 2 * i < p < pos + 2 * i
    else
      if i == 0 then pos == p - 1 || pos == p else -4 * i < 2 * p - 1 - 2 * pos < 4 * i
  }

  /** Probing positions never leave [-n, n]. */
  predicate InRange(n: nat, pos: int, i: nat) {
    && (if i == 0 then -1 <= pos else -2 * i <= pos)
    && pos <= n && 2 * i <= n
    && (if 2 * i < n then pos == n || pos <= n - 2 * i else pos == i)
  }

  /** The loop invariant of the search. */
  ghost predicate Closing(n: nat, found: bool, p: nat, pos: int, i: nat) {
    InRange(n, pos, i) && Near(found, p, pos, i) && (i == 0 || PowerOfTwo(i))
  }

  lemma Start<K(!new)>(cmp: (K, K) -> int, keys: seq<K>, sorted: seq<nat>, n: nat, found: bool, p: nat)
    requires Indexed(cmp, keys, sorted, n) && p <= |keys| && (found ==> p < |keys|)
    ensures Closing(n, found, p, n / 2, n / 2)
  {
    assert Unlock(0);
  }

  /** Stepping towards the split point and halving the step keeps it near. */
  lemma Step(n: nat, found: bool, p: nat, pos: int, i: nat)
    requires Closing(n, found, p, pos, i) && (found ==> pos != p)
    requires p <= n && 0 < i
    ensures Closing(n, found, p, if pos < p then pos + i else pos - i, i / 2)
  {
  }

  lemma Finish(n: nat, found: bool, p: nat, pos: int)
    requires Closing(n, found, p, pos, 0)
    ensures if found then pos == p else pos == p - 1 || pos == p
  {
  }

  lemma Bounds(n: nat, found: bool, p: nat, pos: int, i: nat)
    requires Closing(n, found, p, pos, i) && 0 < n
    ensures 0 - n as int <= pos <= n
  {
  }

  // ---------------------------------------------------------------- the search in ints

  /** The search for a key computes in ints exactly if at most 2^30 keys are smaller. */
  ghost predicate Searchable<K(!new)>(cmp: (K, K) -> int, keys: seq<K>, sorted: seq<nat>, key: K) {
    |keys| <= HALF ||
    (HALF < |sorted| && sorted[HALF] < |keys| && cmp(key, keys[sorted[HALF]]) <= 0)
  }

  lemma SearchableIff<K(!new)>(cmp: (K, K) -> int, keys: seq<K>, sorted: seq<nat>, n: nat, key: K, p: nat)
    requires Indexed(cmp, keys, sorted, n) && Splits(cmp, keys, sorted, key, p) && |sorted| == |keys|
    ensures Searchable(cmp, keys, sorted, key) <==> p <= HALF
  {
    if HALF < |keys| {
      ComparisonTells(cmp, keys, sorted, n, key, p, HALF);
    }
  }

  lemma {:induction false} PowersApart(m: nat, n: nat)
    requires PowerOfTwo(m) && PowerOfTwo(n) && m < n
    ensures 2 * m <= n
  {
    if m > 1 {
      PowersApart(m / 2, n / 2);
    }
  }

  lemma HalfIsPower()
    ensures PowerOfTwo(HALF) && PowerOfTwo(2 * HALF)
  {
    assert PowerOfTwo(0x8000);
    assert PowerOfTwo(0x4000_0000);
  }

  /** With as many entries as an int can count, the next power of two is at most 2^31. */
  lemma DoublingFits(n: nat)
    requires PowerOfTwo(n) && n < INT_MAX
    ensures 2 * n <= 2 * HALF
  {
    HalfIsPower();
    PowersApart(n, 2 * HALF);
  }

  /** Where the search goes from a position that is not the key. */
  function Beyond(p: nat, pos: int, i: nat): int {
    if pos < p then pos + i else pos - i
  }

  /** From the second probe on the search stays below 2^30. */
  predicate Low(n: nat, pos: int, i: nat) {
    n <= HALF || pos + 2 * i <= HALF || (n == 2 * HALF && pos == i == HALF)
  }

  lemma StepFits(n: nat, found: bool, p: nat, pos: int, i: nat)
    requires Closing(n, found, p, pos, i) && (found ==> pos != p) && p <= n && 0 < i && 0 < n
    requires Low(n, pos, i) && p <= HALF && n <= 2 * HALF
    ensures -0x8000_0000 <= Beyond(p, pos, i) <= 0x7FFF_FFFF && Low(n, Beyond(p, pos, i), i / 2)
    ensures Closing(n, found, p, Beyond(p, pos, i), i / 2)
  {
    Step(n, found, p, pos, i);
    Bounds(n, found, p, Beyond(p, pos, i), i / 2);
  }

  /** The first probe is low, and at 2^30 exactly if there are more than 2^30 entries to count. */
  lemma StartLow<K(!new)>(cmp: (K, K) -> int, keys: seq<K>, sorted: seq<nat>, n: nat)
    requires Indexed(cmp, keys, sorted, n) && 0 < n <= 2 * HALF
    ensures Low(n, n / 2, n / 2) && (HALF < |keys| ==> n == 2 * HALF)
  {
    assert Unlock(0);
    HalfIsPower();
    if HALF < n {
      PowersApart(HALF, n);
    }
  }

  /** The invariant of the search in ints. */
  ghost predicate Course(n: nat, found: bool, p: nat, pos: int, i: nat) {
    forall lock: int {:trigger Unlock(lock)} :: Unlock(lock) ==>
      && Closing(n, found, p, pos, i) && Low(n, pos, i)
      && p <= HALF && p <= n && 0 < n <= 2 * HALF
  }

  lemma StartCourse<K(!new)>(cmp: (K, K) -> int, keys: seq<K>, sorted: seq<nat>, n: nat, found: bool, p: nat)
    requires Indexed(cmp, keys, sorted, n) && p <= |keys| <= n && (found ==> p < |keys|)
    requires p <= HALF && 0 < n <= 2 * HALF
    ensures Course(n, found, p, n / 2, n / 2)
  {
    Start(cmp, keys, sorted, n, found, p);
    StartLow(cmp, keys, sorted, n);
  }

  lemma StepCourse(n: nat, found: bool, p: nat, pos: int, i: nat)
    requires Course(n, found, p, pos, i) && (found ==> pos != p) && 0 < i
    ensures -0x8000_0000 <= Beyond(p, pos, i) <= 0x7FFF_FFFF && Course(n, found, p, Beyond(p, pos, i), i / 2)
  {
    assert Unlock(0);
    StepFits(n, found, p, pos, i);
  }

  lemma CourseBounds(n: nat, found: bool, p: nat, pos: int, i: nat)
    requires Course(n, found, p, pos, i)
    ensures 0 - n as int <= pos <= n
    ensures i == 0 ==> if found then pos == p else pos == p - 1 || pos == p
  {
    assert Unlock(0);
    Bounds(n, found, p, pos, i);
    if i == 0 {
      Finish(n, found, p, pos);
    }
  }

  ghost predicate Hits<K(!new)>(cmp: (K, K) -> int, keys: seq<K>, sorted: seq<nat>, key: K, pos: int) {
    0 <= pos < |sorted| && sorted[pos] < |keys| && cmp(key, keys[sorted[pos]]) == 0
  }

  /** Every position that the loop computes from `pos` with step `i` on fits an int. */
  ghost predicate SearchFits<K(!new)>(cmp: (K, K) -> int, keys: seq<K>, sorted: seq<nat>, key: K, pos: int, i: nat)
    decreases i
  {
    && -0x8000_0000 <= pos <= 0x7FFF_FFFF
    && (|| Hits(cmp, keys, sorted, key, pos) || i == 0
        || SearchFits(cmp, keys, sorted, key,
                      if pos < 0 then pos + i
                      else if pos >= |sorted| then pos - i
                      else if sorted[pos] < |keys| && cmp(key, keys[sorted[pos]]) < 0 then pos - i
                      else pos + i,
                      i / 2))
  }

  lemma {:induction false} SearchFitsFrom<K(!new)>(
    cmp: (K, K) -> int, keys: seq<K>, sorted: seq<nat>, n: nat, key: K, p: nat, pos: int, i: nat)
    requires Indexed(cmp, keys, sorted, n) && Splits(cmp, keys, sorted, key, p) && |sorted| == |keys| && 0 < n <= 2 * HALF
    requires Closing(n, key in keys, p, pos, i) && (key in keys <==> p < |sorted| && keys[sorted[p]] == key)
    requires Low(n, pos, i) && p <= HALF && p <= n && -0x8000_0000 <= pos <= 0x7FFF_FFFF
    ensures SearchFits(cmp, keys, sorted, key, pos, i)
    decreases i
  {
    if 0 <= pos < |sorted| {
      ComparisonTells(cmp, keys, sorted, n, key, p, pos);
    }
    if i != 0 && !Hits(cmp, keys, sorted, key, pos) {
      StepFits(n, key in keys, p, pos, i);
      SearchFitsFrom(cmp, keys, sorted, n, key, p, Beyond(p, pos, i), i / 2);
    }
  }

  /** The search of the code stays within the range of an int if and only if at most 2^30 keys are
      smaller than the one that is looked for. */
  lemma SearchFitsIff<K(!new)>(cmp: (K, K) -> int, keys: seq<K>, sorted: seq<nat>, n: nat, key: K)
    requires Indexed(cmp, keys, sorted, n) && 0 < n <= 2 * HALF
    ensures SearchFits(cmp, keys, sorted, key, n / 2, n / 2) <==> Searchable(cmp, keys, sorted, key)
  {
    var p := SplitExists(cmp, keys, sorted, n, key);
    SearchableIff(cmp, keys, sorted, n, key, p);
    StartLow(cmp, keys, sorted, n);
    if p <= HALF {
      Start(cmp, keys, sorted, n, key in keys, p);
      SearchFitsFrom(cmp, keys, sorted, n, key, p, n / 2, n / 2);
    } else {
      ComparisonTells(cmp, keys, sorted, n, key, p, HALF);
      assert !SearchFits(cmp, keys, sorted, key, 2 * HALF, HALF / 2);
    }
  }

  function Difference(a: nat, b: nat): int {
    a - b
  }

  function Upto(n: nat): (s: seq<nat>)
    ensures |s| == n && forall i :: 0 <= i < n ==> s[i] == i
  {
    seq(n, i => i)
  }

  lemma DifferenceOrders()
    ensures TotalOrder<nat>(Difference)
  {
    forall a: nat, b: nat ensures Difference(a, b) == 0 <==> a == b {
    }
  }

  lemma UptoSorts(n: nat)
    ensures Sorts<nat>(Difference, Upto(n), Upto(n))
  {
    var s: seq<nat> := Upto(n);
    forall d | 0 <= d < n ensures d in s {
      assert s[d] == d;
    }
    forall i, j | 0 <= i < j < |s| ensures Difference(s[s[i]], s[s[j]]) < 0 {
    }
  }

  /** The guard against more than INT_MAX entries comes too late: arrays of more than 2^30 entries
      are valid, and the search for a key above all of them overflows. */
  lemma LargeArrayOverflows(n: nat)
    requires HALF < n <= INT_MAX
    ensures Indexed<nat>(Difference, Upto(n), Upto(n), 2 * HALF) && !SearchFits<nat>(Difference, Upto(n), Upto(n), n, HALF, HALF)
  {
    var s := Upto(n);
    DifferenceOrders();
    UptoSorts(n);
    HalfIsPower();
    var m := 2 * HALF;
    assert Indexed<nat>(Difference, s, s, m);
    SearchFitsIff<nat>(Difference, s, s, m, n);
    assert Difference(n, s[s[HALF]]) > 0;
  }

  // ---------------------------------------------------------------- inserting

  function Inserted(sorted: seq<nat>, p: nat, d: nat): seq<nat>
    requires p <= |sorted|
  {
    sorted[..p] + [d] + sorted[p..]
  }

  /** Two neighbours in the extended index are in order. */
  lemma InsertOrdered<K(!new)>(cmp: (K, K) -> int, keys: seq<K>, sorted: seq<nat>, key: K, p: nat, i: nat, j: nat)
    requires TotalOrder(cmp) && Sorts(cmp, keys, sorted)
    requires key !in keys && Splits(cmp, keys, sorted, key, p) && i < j <= |sorted|
    ensures var ks, st := keys + [key], Inserted(sorted, p, |keys|);
            st[i] < |ks| && st[j] < |ks| && cmp(ks[st[i]], ks[st[j]]) < 0
  {
    var st := Inserted(sorted, p, |keys|);
    if i == p {
      assert st[j] == sorted[j - 1] && keys[sorted[j - 1]] in keys;
    } else if j == p {
      assert st[i] == sorted[i];
    } else {
      var i', j' := if i < p then i else i - 1, if j < p then j else j - 1;
      assert st[i] == sorted[i'] && st[j] == sorted[j'] && cmp(keys[sorted[i']], keys[sorted[j']]) < 0;
    }
  }

  lemma InsertComplete(sorted: seq<nat>, p: nat, n: nat)
    requires p <= |sorted| && forall d :: 0 <= d < n ==> d in sorted
    ensures forall d :: 0 <= d < n + 1 ==> d in Inserted(sorted, p, n)
  {
    var st := Inserted(sorted, p, n);
    forall d | 0 <= d < n + 1 ensures d in st {
      if d < n {
        assert d in sorted[..p] || d in sorted[p..] by {
          assert d in sorted;
          var i :| 0 <= i < |sorted| && sorted[i] == d;
          assert i < p ==> sorted[..p][i] == d;
          assert p <= i ==> sorted[p..][i - p] == d;
        }
      } else {
        assert st[p] == d;
      }
    }
  }

  /** Adding a missing key at its split point keeps the index sorted and complete. */
  lemma InsertSorts<K(!new)>(cmp: (K, K) -> int, keys: seq<K>, sorted: seq<nat>, key: K, p: nat)
    requires TotalOrder(cmp) && Sorts(cmp, keys, sorted)
    requires key !in keys && Splits(cmp, keys, sorted, key, p)
    ensures Sorts(cmp, keys + [key], Inserted(sorted, p, |keys|))
  {
    var ks, st := keys + [key], Inserted(sorted, p, |keys|);
    forall i, j | 0 <= i < j < |st| ensures cmp(ks[st[i]], ks[st[j]]) < 0 {
      InsertOrdered(cmp, keys, sorted, key, p, i, j);
    }
    InsertComplete(sorted, p, |keys|);
  }

  /** The position of a miss, corrected by one more comparison, is where the key belongs. */
  lemma CorrectedPlace<K(!new)>(cmp: (K, K) -> int, keys: seq<K>, sorted: seq<nat>, key: K, pos: int)
    requires Splits(cmp, keys, sorted, key, pos) || Splits(cmp, keys, sorted, key, pos + 1)
    ensures -1 <= pos <= |sorted| && (0 <= pos < |sorted| ==> sorted[pos] < |keys|)
    ensures Splits(cmp, keys, sorted, key,
                   if pos != |sorted| && (pos < 0 || cmp(key, keys[sorted[pos]]) > 0) then pos + 1 else pos)
  {
  }

  /** The next power of two is doubled exactly when it is used up. */
  lemma InsertIndexed<K(!new)>(cmp: (K, K) -> int, keys: seq<K>, sorted: seq<nat>, n: nat, key: K, p: nat)
    requires Indexed(cmp, keys, sorted, n) && 0 < n
    requires key !in keys && Splits(cmp, keys, sorted, key, p)
    ensures Indexed(cmp, keys + [key], Inserted(sorted, p, |keys|), if n == |keys| then 2 * n else n)
    ensures PowerOfTwo(n)
  {
    assert Unlock(0);
    InsertSorts(cmp, keys, sorted, key, p);
    assert (2 * n) / 2 == n && PowerOfTwo(2 * n);
  }

  lemma EmptyIndexed<K(!new)>(cmp: (K, K) -> int, keys: seq<K>, sorted: seq<nat>, n: nat)
    requires Indexed(cmp, keys, sorted, n)
    ensures Indexed<K>(cmp, [], [], n)
  {
    assert Unlock(0);
  }

  lemma DistinctKeys<K(!new)>(cmp: (K, K) -> int, keys: seq<K>, sorted: seq<nat>, n: nat)
    requires Indexed(cmp, keys, sorted, n)
    ensures forall d, e :: 0 <= d < e < |keys| ==> keys[d] != keys[e]
  {
    assert Unlock(0);
    forall d, e | 0 <= d < e < |keys| ensures keys[d] != keys[e] {
      assert d in sorted && e in sorted;
      var i :| 0 <= i < |sorted| && sorted[i] == d;
      var j :| 0 <= j < |sorted| && sorted[j] == e;
      assert cmp(keys[sorted[i]], keys[sorted[j]]) != 0;
    }
  }

  // ---------------------------------------------------------------- the array as a finite map

  ghost function KeysOf<K, V>(items: seq<Option<Entry<K, V>>>): (ks: seq<K>)
    requires forall i :: 0 <= i < |items| ==> items[i].Some?
    ensures |ks| == |items|
    ensures forall i :: 0 <= i < |items| ==> ks[i] == items[i].value.key
  {
    seq(|items|, i requires 0 <= i < |items| => items[i].value.key)
  }

  ghost predicate Models<K(!new), V>(items: seq<Option<Entry<K, V>>>, m: map<K, Entry<K, V>>) {
    forall lock: int {:trigger Unlock(lock)} :: Unlock(lock) ==>
      && (forall i :: 0 <= i < |items| ==>
            items[i].Some? && items[i].value.key in m && m[items[i].value.key] == items[i].value)
      && (forall k :: k in m ==> m[k].key == k && Some(m[k]) in items)
  }

  lemma ModelsLookup<K(!new), V>(items: seq<Option<Entry<K, V>>>, m: map<K, Entry<K, V>>, key: K)
    requires Models(items, m) && forall i :: 0 <= i < |items| ==> items[i].Some?
    ensures key in m <==> key in KeysOf(items)
    ensures forall i :: 0 <= i < |items| && KeysOf(items)[i] == key ==> items[i] == Some(m[key])
  {
    assert Unlock(0);
    if key in m {
      var i :| 0 <= i < |items| && items[i] == Some(m[key]);
      assert KeysOf(items)[i] == key;
    }
  }

  lemma ModelsAppend<K(!new), V>(items: seq<Option<Entry<K, V>>>, m: map<K, Entry<K, V>>, e: Entry<K, V>)
    requires Models(items, m) && e.key !in m
    ensures Models(items + [Some(e)], m[e.key := e])
    ensures |m[e.key := e]| == |m| + 1
  {
    assert Unlock(0);
    var m' := m[e.key := e];
    assert m'.Keys == m.Keys + {e.key};
    forall k | k in m' ensures Some(m'[k]) in items + [Some(e)] {
      if k == e.key {
        assert (items + [Some(e)])[|items|] == Some(e);
      }
    }
  }

  lemma ModelsReplace<K(!new), V>(items: seq<Option<Entry<K, V>>>, m: map<K, Entry<K, V>>, i: nat, e: Entry<K, V>)
    requires Models(items, m) && i < |items| && items[i].Some? && items[i].value.key == e.key
    requires forall c :: 0 <= c < |items| ==> items[c].Some?
    requires forall c, d :: 0 <= c < d < |items| ==> items[c].value.key != items[d].value.key
    ensures Models(items[i := Some(e)], m[e.key := e])
    ensures e.key in m && |m[e.key := e]| == |m|
    ensures KeysOf(items[i := Some(e)]) == KeysOf(items)
  {
    assert Unlock(0);
    var m' := m[e.key := e];
    var items' := items[i := Some(e)];
    assert m'.Keys == m.Keys;
    forall k | k in m' ensures Some(m'[k]) in items' {
      if k == e.key {
        assert items'[i] == Some(e);
      } else {
        var j :| 0 <= j < |items| && items[j] == Some(m[k]);
        assert items[j].value.key in m;
        assert items'[j] == Some(m'[k]);
      }
    }
  }

  /** array_insert_unique on the map: an entry whose key is taken is merged into the one that is
      there, if they are of the same type; a full array takes no new key. */
  function MapInsert<K(==), V>(m: map<K, Entry<K, V>>, dup: (V, V) -> V, e: Entry<K, V>): map<K, Entry<K, V>> {
    if e.key in m then
      if m[e.key].kind == e.kind then m[e.key := e.(value := dup(m[e.key].value, e.value))] else m
    else if |m| + 1 > INT_MAX then m
    else m[e.key := e]
  }

  function MapReplace<K(==), V>(m: map<K, Entry<K, V>>, dup: (V, V) -> V, e: Entry<K, V>): map<K, Entry<K, V>> {
    if e.key in m then m[e.key := e] else MapInsert(m, dup, e)
  }

  function MapLookup<K(==), V>(m: map<K, Entry<K, V>>, key: K): Option<Entry<K, V>> {
    if key in m then Some(m[key]) else None
  }

  // ---------------------------------------------------------------- the code

  class Index<K(!new, ==), V> {
    const cmp: (K, K) -> int
    const dup: (V, V) -> V
    var data: array<Option<Entry<K, V>>>
    var sorted: array<nat>
    var used: nat
    var nextPow2: nat
    /** The finite map that this array implements. */
    ghost var model: map<K, Entry<K, V>>

    ghost predicate Shape()
      reads this, data, sorted
    {
      && used <= data.Length == sorted.Length && used <= INT_MAX
      && (forall i :: 0 <= i < used ==> data[i].Some?)
    }

    ghost function Keys(): seq<K>
      requires Shape()
      reads this, data, sorted
    {
      KeysOf(data[..used])
    }

    ghost predicate Valid()
      reads this, data, sorted
    {
      && Shape() && 0 < nextPow2 <= 2 * HALF && |model| == used
      && Indexed(cmp, Keys(), sorted[..used], nextPow2)
      && Models(data[..used], model)
    }

    /** array_init */
    constructor (cmp: (K, K) -> int, dup: (V, V) -> V)
      requires TotalOrder(cmp)
      ensures Valid() && model == map[] && fresh(data) && fresh(sorted)
      ensures this.cmp == cmp && this.dup == dup
    {
      this.cmp, this.dup := cmp, dup;
      data := new Option<Entry<K, V>>[0];
      sorted := new nat[0];
      used, nextPow2 := 0, 1;
      model := map[];
      new;
      assert Keys() == [] && sorted[..used] == [];
    }

    /** The search for this key stays within the range of an int: at most 2^30 keys are smaller. */
    predicate Safe(key: K)
      reads this, data, sorted
    {
      used <= HALF ||
      (HALF < sorted.Length && sorted[HALF] < data.Length && data[sorted[HALF]].Some?
       && cmp(key, data[sorted[HALF]].value.key) <= 0)
    }

    /** array_get_index: the key is found exactly when it is there; when it is missing, the
        position is where it belongs or one before. */
    method GetIndex(key: K) returns (ndx: Int, pos: Int)
      requires Valid() && Safe(key)
      ensures ndx == -1 <==> key !in Keys()
      ensures ndx != -1 ==> 0 <= ndx < used && Keys()[ndx] == key
      ensures ndx == -1 ==>
                || Splits(cmp, Keys(), sorted[..used], key, pos)
                || Splits(cmp, Keys(), sorted[..used], key, pos + 1)
      ensures 0 - nextPow2 as int <= pos <= nextPow2
    {
      ghost var p := SplitExists(cmp, Keys(), sorted[..used], nextPow2, key);
      ghost var found := key in Keys();
      SafeSplit(key, p);
      StartCourse(cmp, Keys(), sorted[..used], nextPow2, found, p);
      assert p < used ==> sorted[..used][p] == sorted[p];
      ndx, pos := Search(key, p, found);
    }

    /** The loop of array_get_index, for a key that belongs at position p. */
    method Search(key: K, ghost p: nat, ghost found: bool) returns (ndx: Int, pos: Int)
      requires Valid() && Splits(cmp, Keys(), sorted[..used], key, p) && Course(nextPow2, found, p, nextPow2 / 2, nextPow2 / 2)
      requires found <==> p < used && sorted[p] < used && Keys()[sorted[p]] == key
      ensures ndx == -1 <==> !found
      ensures ndx != -1 ==> 0 <= ndx < used && Keys()[ndx] == key
      ensures ndx == -1 ==> pos == p || pos == p - 1
      ensures 0 - nextPow2 as int <= pos <= nextPow2
    {
      ndx := -1;
      var i: Int := nextPow2 / 2;
      pos := i;
      while true
        invariant 0 <= i && Course(nextPow2, found, p, pos, i) && ndx == -1
        decreases i
      {
        CourseBounds(nextPow2, found, p, pos, i);
        var c := 0;
        if 0 <= pos < used {
          c := Compare(key, pos, p, found);
          if c == 0 {
            ndx := sorted[pos];
            break;
          }
        }
        if i == 0 {
          break;
        }
        StepCourse(nextPow2, found, p, pos, i);
        ghost var next := Beyond(p, pos, i);
        if pos < 0 {
          pos := pos + i;
        } else if pos >= used {
          pos := pos - i;
        } else if c < 0 {
          pos := pos - i;
        } else {
          pos := pos + i;
        }
        assert pos == next;
        i := i / 2;
      }
    }

    method Compare(key: K, pos: nat, ghost p: nat, ghost found: bool) returns (c: int)
      requires Valid() && pos < used && Splits(cmp, Keys(), sorted[..used], key, p)
      requires found <==> p < used && sorted[p] < used && Keys()[sorted[p]] == key
      ensures (c > 0 <==> pos < p) && (c == 0 <==> found && pos == p)
    {
      ComparisonTells(cmp, Keys(), sorted[..used], nextPow2, key, p, pos);
      assert sorted[..used][pos] == sorted[pos];
      c := cmp(key, data[sorted[pos]].value.key);
    }

    /** Exactly then every position that the search computes fits an int. */
    lemma SafeIff(key: K)
      requires Valid()
      ensures Safe(key) <==> SearchFits(cmp, Keys(), sorted[..used], key, nextPow2 / 2, nextPow2 / 2)
    {
      SearchFitsIff(cmp, Keys(), sorted[..used], nextPow2, key);
      if HALF < used {
        ghost var p := SplitExists(cmp, Keys(), sorted[..used], nextPow2, key);
        ComparisonTells(cmp, Keys(), sorted[..used], nextPow2, key, p, HALF);
        assert sorted[..used][HALF] == sorted[HALF];
      }
    }

    lemma SafeSplit(key: K, p: nat)
      requires Valid() && Safe(key) && Splits(cmp, Keys(), sorted[..used], key, p) && p <= used
      ensures p <= HALF
    {
      if HALF < used {
        assert sorted[..used][HALF] == sorted[HALF];
        ComparisonTells(cmp, Keys(), sorted[..used], nextPow2, key, p, HALF);
      }
    }

    /** array_get_element */
    method GetElement(key: K) returns (r: Option<Entry<K, V>>)
      requires Valid() && Safe(key)
      ensures r == MapLookup(model, key) == if key in model then Some(model[key]) else None
    {
      ModelsLookup(data[..used], model, key);
      var ndx, _ := GetIndex(key);
      r := if ndx == -1 then None else data[ndx];
    }

    /** Overwrite an entry with one of the same key. */
    method SetEntry(ndx: nat, e: Entry<K, V>)
      requires Valid() && ndx < used && Keys()[ndx] == e.key
      modifies this, data
      ensures Valid() && e.key in old(model) && model == old(model)[e.key := e] && data == old(data) && sorted == old(sorted)
    {
      DistinctKeys(cmp, Keys(), sorted[..used], nextPow2);
      ModelsReplace(data[..used], model, ndx, e);
      ghost var items := data[..used];
      data[ndx] := Some(e);
      assert data[..used] == items[ndx := Some(e)];
      model := model[e.key := e];
    }

    /** Room for one more entry: 16 more slots when all are taken. */
    method Grow()
      requires Shape()
      modifies `data, `sorted
      ensures Shape() && used < data.Length
      ensures data[..used] == old(data[..used]) && sorted[..used] == old(sorted[..used])
      ensures (data == old(data) && sorted == old(sorted)) || (fresh(data) && fresh(sorted))
    {
      if data.Length == used {
        var d := new Option<Entry<K, V>>[used + 16];
        var s := new nat[used + 16];
        forall i | 0 <= i < used {
          d[i] := data[i];
        }
        forall i | 0 <= i < used {
          s[i] := sorted[i];
        }
        assert d[..used] == data[..used] && s[..used] == sorted[..used];
        data, sorted := d, s;
      }
    }

    /** memmove by one slot, then the new index into the gap. */
    method InsertAt(p: nat, d: nat)
      requires p <= d < sorted.Length
      modifies sorted
      ensures sorted[..d + 1] == Inserted(old(sorted[..d]), p, d)
    {
      var i := d;
      while i > p
        invariant p <= i <= d
        invariant forall j :: 0 <= j < i ==> sorted[j] == old(sorted[j])
        invariant forall j :: i < j <= d ==> sorted[j] == old(sorted[j - 1])
      {
        sorted[i] := sorted[i - 1];
        i := i - 1;
      }
      sorted[p] := d;
    }

    /** The new entry goes behind the others. */
    method Store(e: Entry<K, V>)
      requires Shape() && used + 1 <= INT_MAX
      modifies `data, `sorted, `used, data
      ensures Shape() && used == old(used) + 1
      ensures data[..used] == old(data[..used]) + [Some(e)] && sorted[..used - 1] == old(sorted[..used])
      ensures (data == old(data) && sorted == old(sorted)) || (fresh(data) && fresh(sorted))
    {
      ghost var items := data[..used];
      Grow();
      data[used] := Some(e);
      used := used + 1;
      assert data[..used] == items + [Some(e)];
    }

    /** One more comparison tells where exactly the new index goes. */
    method Place(key: K, at: int, ghost keys: seq<K>, ghost st: seq<nat>) returns (pos: nat)
      requires Shape() && used > 0 && sorted[..used - 1] == st && Keys() == keys + [key]
      requires Splits(cmp, keys, st, key, at) || Splits(cmp, keys, st, key, at + 1)
      ensures Splits(cmp, keys, st, key, pos)
    {
      CorrectedPlace(cmp, keys, st, key, at);
      var ndx := used - 1;
      assert at != ndx && at >= 0 ==> sorted[at] == st[at] && Keys()[st[at]] == keys[st[at]];
      if at != ndx && (at < 0 || cmp(key, data[sorted[at]].value.key) > 0) {
        pos := at + 1;
      } else {
        pos := at;
      }
    }

    /** The second half of array_insert_unique: a key that is missing is added. */
    method Append(e: Entry<K, V>, at: int)
      requires Valid() && used + 1 <= INT_MAX && e.key !in model && e.key !in Keys()
      requires Splits(cmp, Keys(), sorted[..used], e.key, at) || Splits(cmp, Keys(), sorted[..used], e.key, at + 1)
      modifies this, data, sorted
      ensures Valid() && model == old(model)[e.key := e]
      ensures (data == old(data) && sorted == old(sorted)) || (fresh(data) && fresh(sorted))
    {
      ghost var keys, st, items := Keys(), sorted[..used], data[..used];
      var ndx := used;
      Store(e);
      assert Keys() == keys + [e.key];
      var pos := Place(e.key, at, keys, st);
      InsertIndexed(cmp, keys, st, nextPow2, e.key, pos);
      ModelsAppend(items, model, e);
      InsertAt(pos, ndx);
      assert sorted[..used] == Inserted(st, pos, |keys|);
      if nextPow2 == ndx {
        DoublingFits(nextPow2);
        nextPow2 := 2 * nextPow2;
      }
      model := model[e.key := e];
      assert Keys() == keys + [e.key];
    }

    /** array_insert_unique */
    method InsertUnique(e: Entry<K, V>) returns (code: int)
      requires Valid() && Safe(e.key)
      modifies this, data, sorted
      ensures Valid() && model == MapInsert(old(model), dup, e)
      ensures var m := old(model);
              && (e.key in m && m[e.key].kind == e.kind ==>
                    e.key in model && model[e.key] == Entry(e.key, e.kind, dup(m[e.key].value, e.value)))
              && (e.key in m && m[e.key].kind != e.kind ==> e.key in model && model[e.key] == m[e.key])
              && (e.key !in m && |m| < INT_MAX ==> e.key in model && model[e.key] == e)
              && (e.key !in m && |m| >= INT_MAX ==> e.key !in model)
              && (forall k: K :: k != e.key ==> (k in model <==> k in m) && (k in m ==> model[k] == m[k]))
      ensures code == if e.key !in old(model) && |old(model)| + 1 > INT_MAX then -1 else 0
      ensures (data == old(data) && sorted == old(sorted)) || (fresh(data) && fresh(sorted))
    {
      ModelsLookup(data[..used], model, e.key);
      var ndx, pos := GetIndex(e.key);
      if ndx != -1 {
        if data[ndx].value.kind == e.kind {
          SetEntry(ndx, e.(value := dup(data[ndx].value.value, e.value)));
        }
        return 0;
      }
      if used + 1 > INT_MAX {
        return -1;
      }
      Append(e, pos);
      return 0;
    }

    /** array_replace */
    method Replace(e: Entry<K, V>) returns (previous: Option<Entry<K, V>>)
      requires Valid() && Safe(e.key)
      modifies this, data, sorted
      ensures Valid() && model == MapReplace(old(model), dup, e) && previous == MapLookup(old(model), e.key)
      ensures var m := old(model);
              && previous == (if e.key in m then Some(m[e.key]) else None)
              && (e.key in m || |m| < INT_MAX ==> e.key in model && model[e.key] == e)
              && (e.key !in m && |m| >= INT_MAX ==> e.key !in model)
              && (forall k: K :: k != e.key ==> (k in model <==> k in m) && (k in m ==> model[k] == m[k]))
      ensures (data == old(data) && sorted == old(sorted)) || (fresh(data) && fresh(sorted))
    {
      ModelsLookup(data[..used], model, e.key);
      var ndx, _ := GetIndex(e.key);
      if ndx == -1 {
        var _ := InsertUnique(e);
        previous := None;
      } else {
        previous := data[ndx];
        SetEntry(ndx, e);
      }
    }

    /** array_reset: the next power of two stays what it was. */
    method Reset()
      requires Valid()
      modifies this
      ensures Valid() && model == map[] && nextPow2 == old(nextPow2) && data == old(data) && sorted == old(sorted)
    {
      EmptyIndexed(cmp, Keys(), sorted[..used], nextPow2);
      used := 0;
      model := map[];
      assert Keys() == [] && sorted[..used] == [];
    }
  }

  // ---------------------------------------------------------------- runs

  datatype Op<K, V> = OInsert(e: Entry<K, V>) | OReplace(e: Entry<K, V>) | OLookup(key: K) | OReset

  datatype Answer<K, V> = Code(code: int) | Found(entry: Option<Entry<K, V>>) | Done

  function MapStep<K(==), V>(m: map<K, Entry<K, V>>, dup: (V, V) -> V, op: Op<K, V>): map<K, Entry<K, V>> {
    match op
    case OInsert(e) => MapInsert(m, dup, e)
    case OReplace(e) => MapReplace(m, dup, e)
    case OLookup(_) => m
    case OReset => map[]
  }

  function MapAnswer<K(==), V>(m: map<K, Entry<K, V>>, op: Op<K, V>): Answer<K, V> {
    match op
    case OInsert(e) => Code(if e.key !in m && |m| + 1 > INT_MAX then -1 else 0)
    case OReplace(e) => Found(MapLookup(m, e.key))
    case OLookup(key) => Found(MapLookup(m, key))
    case OReset => Done
  }

  function MapRun<K(==), V>(m: map<K, Entry<K, V>>, dup: (V, V) -> V, ops: seq<Op<K, V>>): map<K, Entry<K, V>> {
    if ops == [] then m else MapStep(MapRun(m, dup, ops[..|ops| - 1]), dup, ops[|ops| - 1])
  }

  function MapAnswers<K(==), V>(m: map<K, Entry<K, V>>, dup: (V, V) -> V, ops: seq<Op<K, V>>): seq<Answer<K, V>> {
    if ops == [] then []
    else
      var k := |ops| - 1;
      MapAnswers(m, dup, ops[..k]) + [MapAnswer(MapRun(m, dup, ops[..k]), ops[k])]
  }

  /** What a lookup of a key answers after any operations and one more. */
  function Seen<K(==), V>(dup: (V, V) -> V, ops: seq<Op<K, V>>, key: K): Option<Entry<K, V>> {
    match MapAnswer(MapRun(map[], dup, ops), OLookup(key))
    case Found(entry) => entry
    case _ => None
  }

  lemma OneMoreOp<K, V>(dup: (V, V) -> V, ops: seq<Op<K, V>>, op: Op<K, V>)
    ensures MapRun(map[], dup, ops + [op]) == MapStep(MapRun(map[], dup, ops), dup, op)
    ensures MapAnswers(map[], dup, ops + [op]) == MapAnswers(map[], dup, ops) + [MapAnswer(MapRun(map[], dup, ops), op)]
  {
    assert (ops + [op])[..|ops|] == ops;
  }

  /** After an insert, a new key is found with the new entry, a taken key of the same type with its
      value merged with the new one, in this order, and a taken key of another type as it was. */
  lemma InsertThenLookup<K(!new), V>(dup: (V, V) -> V, ops: seq<Op<K, V>>, e: Entry<K, V>, key: K)
    requires |MapRun(map[], dup, ops)| < INT_MAX
    ensures var before, after := Seen(dup, ops, key), Seen(dup, ops + [OInsert(e)], key);
            after == if key != e.key then before
                     else if before == None then Some(e)
                     else if before.value.kind == e.kind then Some(Entry(e.key, e.kind, dup(before.value.value, e.value)))
                     else before
  {
    OneMoreOp(dup, ops, OInsert(e));
  }

  /** After a replacement the key is found with the new entry, which answered with the old one. */
  lemma ReplaceThenLookup<K(!new), V>(dup: (V, V) -> V, ops: seq<Op<K, V>>, e: Entry<K, V>, key: K)
    requires |MapRun(map[], dup, ops)| < INT_MAX
    ensures Seen(dup, ops + [OReplace(e)], key) == if key == e.key then Some(e) else Seen(dup, ops, key)
    ensures var outs := MapAnswers(map[], dup, ops + [OReplace(e)]);
            |outs| > 0 && outs[|outs| - 1] == Found(Seen(dup, ops, e.key))
  {
    OneMoreOp(dup, ops, OReplace(e));
  }

  /** A lookup changes nothing and answers what is seen; after a reset, and at first, nothing is. */
  lemma LookupAndReset<K(!new), V>(dup: (V, V) -> V, ops: seq<Op<K, V>>, k: K, key: K)
    ensures Seen(dup, ops + [OLookup(k)], key) == Seen(dup, ops, key)
    ensures var outs := MapAnswers(map[], dup, ops + [OLookup(k)]);
            |outs| > 0 && outs[|outs| - 1] == Found(Seen(dup, ops, k))
    ensures Seen(dup, ops + [OReset], key) == None && Seen(dup, [], key) == None
  {
    OneMoreOp(dup, ops, OLookup(k));
    OneMoreOp(dup, ops, OReset);
  }

  /** The operations that the array can carry out: the search for the key must not overflow. */
  predicate Allowed<K(!new, ==), V>(a: Index<K, V>, op: Op<K, V>)
    reads a, a.data, a.sorted
  {
    match op
    case OInsert(e) => a.Safe(e.key)
    case OReplace(e) => a.Safe(e.key)
    case OLookup(key) => a.Safe(key)
    case OReset => true
  }

  method Perform<K(!new, ==), V>(a: Index<K, V>, op: Op<K, V>) returns (out: Answer<K, V>)
    requires a.Valid() && Allowed(a, op)
    modifies a, a.data, a.sorted
    ensures a.Valid() && a.model == MapStep(old(a.model), a.dup, op) && out == MapAnswer(old(a.model), op)
    ensures (a.data == old(a.data) && a.sorted == old(a.sorted)) || (fresh(a.data) && fresh(a.sorted))
  {
    match op {
      case OInsert(e) =>
        var code := a.InsertUnique(e);
        out := Code(code);
      case OReplace(e) =>
        var previous := a.Replace(e);
        out := Found(previous);
      case OLookup(key) =>
        var r := a.GetElement(key);
        out := Found(r);
      case OReset =>
        a.Reset();
        out := Done;
    }
  }

  /** Every run of inserts, replacements, lookups and resets on a new array gives the state and
      the answers of a finite map.  It stops only at a search that would overflow, which does not
      happen while there are at most 2^30 entries. */
  method Execute<K(!new, ==), V>(cmp: (K, K) -> int, dup: (V, V) -> V, ops: seq<Op<K, V>>)
    returns (a: Index<K, V>, done: nat, outs: seq<Answer<K, V>>)
    requires TotalOrder(cmp)
    ensures a.Valid() && done <= |ops|
    ensures a.model == MapRun(map[], dup, ops[..done]) && outs == MapAnswers(map[], dup, ops[..done])
    ensures done < |ops| ==> !Allowed(a, ops[done]) && |MapRun(map[], dup, ops[..done])| > HALF
  {
    a := new Index(cmp, dup);
    done, outs := 0, [];
    assert ops[..0] == [];
    while done < |ops| && Allowed(a, ops[done])
      invariant a.Valid() && fresh(a) && fresh(a.data) && fresh(a.sorted) && a.dup == dup && done <= |ops|
      invariant a.model == MapRun(map[], dup, ops[..done]) && outs == MapAnswers(map[], dup, ops[..done])
    {
      assert ops[..done + 1][..done] == ops[..done];
      var out := Perform(a, ops[done]);
      outs := outs + [out];
      done := done + 1;
    }
  }
}
