/**
  The state of the producer/consumer buffer queue (bufferqueue.c) as a value: serial numbers,
  generations, seen counts and consumer pointers, the invariant, and moving past a buffer as a step of
  the log.

  List nodes have explicit addresses.  A node is live while it is queued; the allocator may hand
  out the address of a node that was freed before, so a stale pointer can denote a live node it
  was never meant for.  Looking up an address requires that it is live, which makes every
  dereference a proof that no freed node is touched.
  */
module QueueState {
  import opened Common
  import opened BufferLog

  type Addr = nat

  /** The largest value of the 16-bit serial counter. */
  const MAX_SERIAL: nat := 65535

  datatype Buffer = Buffer(addr: Addr, seqNo: nat, seen: nat, frame: Frame)

  /** struct BufferQueue_Consumer: all fields start out zeroed. */
  datatype Consumer = Consumer(queueSerial: nat, pointer: Option<Addr>, lastSerial: nat)

  /** A picture of the producer and of the consumers registered with it. */
  datatype Snapshot = Snapshot(
    queue: seq<Buffer>,
    nextSerial: nat,
    queueSerial: nat,
    consumers: nat,
    cursors: map<Id, Consumer>)

  predicate Live(queue: seq<Buffer>, a: Addr) {
    exists i :: 0 <= i < |queue| && queue[i].addr == a
  }

  predicate Distinct(queue: seq<Buffer>) {
    forall i, j :: 0 <= i < j < |queue| ==> queue[i].addr != queue[j].addr
  }

  /** Follow a pointer; only live nodes may be followed. */
  function Deref(queue: seq<Buffer>, a: Addr): (i: nat)
    requires Live(queue, a) && Distinct(queue)
    ensures i < |queue| && queue[i].addr == a
  {
    var i :| 0 <= i < |queue| && queue[i].addr == a;
    i
  }

  function AddrAt(queue: seq<Buffer>, i: nat): Option<Addr> {
    if i < |queue| then Some(queue[i].addr) else None
  }

  // ---------------------------------------------------------------- the invariant

  /** The serial that the head of the queue has, or would have. */
  function Head(s: Snapshot): int {
    s.nextSerial - |s.queue|
  }

  predicate Stale(s: Snapshot, k: Consumer) {
    k.queueSerial != s.queueSerial
  }

  predicate Holding(s: Snapshot, k: Consumer) {
    !Stale(s, k) && k.pointer.Some?
  }

  /** How many buffers at the front of the queue the consumer has moved past. */
  function Position(s: Snapshot, k: Consumer): int {
    if Stale(s, k) then 0
    else if k.pointer.Some? then k.lastSerial - Head(s)
    else k.lastSerial + 1 - Head(s)
  }

  /** The consumers that have moved past the i-th queued buffer in the current generation. */
  ghost function Passers(s: Snapshot, i: int): set<Id> {
    set c | c in s.cursors && Position(s, s.cursors[c]) > i
  }

  ghost predicate QueueInv(s: Snapshot) {
    && 1 <= Head(s) && s.nextSerial <= MAX_SERIAL
    && (s.queue == [] ==> s.nextSerial == 1)
    && (forall i :: 0 <= i < |s.queue| ==> s.queue[i].seqNo == Head(s) + i)
    && Distinct(s.queue)
  }

  /** A consumer of the current generation points at a live buffer whose serial it remembers,
      or has run past the end; any other consumer belongs to an older generation. */
  predicate ConsumerInv(s: Snapshot, k: Consumer) {
    && k.queueSerial <= s.queueSerial
    && (!Stale(s, k) ==>
          && s.queue != []
          && 0 <= Position(s, k) <= |s.queue|
          && (k.pointer.Some? ==>
                Position(s, k) < |s.queue| && k.pointer.value == s.queue[Position(s, k)].addr))
  }

  ghost predicate SeenInv(s: Snapshot) {
    && s.consumers == |s.cursors|
    && (forall i :: 0 <= i < |s.queue| ==> s.queue[i].seen == |Passers(s, i)|)
  }

  ghost predicate PlacesInv(s: Snapshot) {
    && 0 < s.queueSerial
    && QueueInv(s)
    && (forall c :: c in s.cursors ==> ConsumerInv(s, s.cursors[c]))
  }

  /** Everything but the promise that a fully seen head has been destroyed. */
  ghost predicate CountsInv(s: Snapshot) {
    PlacesInv(s) && SeenInv(s)
  }

  ghost predicate Inv(s: Snapshot) {
    && CountsInv(s)
    && (s.queue != [] && s.cursors != map[] ==> s.queue[0].seen < s.consumers)
  }

  // ---------------------------------------------------------------- the abstraction to the log

  /** The queue holds the tail of everything that was ever put. */
  ghost predicate Tail(s: Snapshot, log: seq<Frame>) {
    && |s.queue| <= |log| && s.nextSerial <= |log| + 1
    && forall i :: 0 <= i < |s.queue| ==> s.queue[i].frame == log[|log| - |s.queue| + i]
  }

  ghost function Abs(s: Snapshot, log: seq<Frame>): Log
    requires PlacesInv(s) && Tail(s, log)
  {
    var floor := |log| - |s.queue|;
    Log(log, floor, |log| + 1 - s.nextSerial,
        map c | c in s.cursors :: Cursor(floor + Position(s, s.cursors[c]), Holding(s, s.cursors[c])))
  }

  lemma SubsetSize(a: set<Id>, b: set<Id>)
    requires a <= b
    ensures |a| <= |b|
    ensures |a| == |b| ==> a == b
    decreases b
  {
    if a != b {
      var x :| x in b && x !in a;
      SubsetSize(a, b - {x});
      assert a <= b - {x};
    }
  }

  lemma PassersSize(s: Snapshot, i: int)
    ensures |Passers(s, i)| <= |s.cursors|
    ensures |Passers(s, i)| == |s.cursors| ==> Passers(s, i) == s.cursors.Keys
  {
    SubsetSize(Passers(s, i), s.cursors.Keys);
  }

  /** While there are consumers, one of them has not moved past the head. */
  lemma SomebodyAtHead(s: Snapshot) returns (c: Id)
    requires Inv(s) && s.cursors != map[]
    ensures c in s.cursors && Position(s, s.cursors[c]) == 0
  {
    if s.queue == [] {
      c :| c in s.cursors;
    } else {
      if s.cursors.Keys <= Passers(s, 0) {
        SubsetSize(s.cursors.Keys, Passers(s, 0));
        assert false;
      }
      c :| c in s.cursors.Keys && c !in Passers(s, 0);
    }
  }

  lemma AbsValid(s: Snapshot, log: seq<Frame>)
    requires Inv(s) && Tail(s, log)
    ensures Abs(s, log).Valid()
  {
    if s.cursors != map[] {
      var c := SomebodyAtHead(s);
      assert Abs(s, log).cursors[c].next == Abs(s, log).floor;
    }
  }

  // ---------------------------------------------------------------- moving past a buffer

  /** The consumer lets go of the buffer that it holds, which is seen once more. */
  function Marked(s: Snapshot, id: Id): Snapshot
    requires id in s.cursors && ConsumerInv(s, s.cursors[id]) && Holding(s, s.cursors[id])
  {
    var k := s.cursors[id];
    var i := Position(s, k);
    s.(queue := s.queue[i := s.queue[i].(seen := s.queue[i].seen + 1)],
       cursors := s.cursors[id := k.(pointer := None)])
  }

  /** The head is destroyed; an emptied queue starts a new generation. */
  function Popped(s: Snapshot): Snapshot
    requires s.queue != []
  {
    var rest := s.queue[1..];
    if rest == [] then s.(queue := rest, queueSerial := s.queueSerial + 1, nextSerial := 1)
    else s.(queue := rest)
  }

  lemma MarkedPassers(s: Snapshot, id: Id, j: int)
    requires id in s.cursors && ConsumerInv(s, s.cursors[id]) && Holding(s, s.cursors[id])
    requires 0 <= j
    ensures Passers(Marked(s, id), j) ==
            if j == Position(s, s.cursors[id]) then Passers(s, j) + {id} else Passers(s, j)
    ensures id !in Passers(s, Position(s, s.cursors[id]))
  {
    var m := Marked(s, id);
    assert Position(m, m.cursors[id]) == Position(s, s.cursors[id]) + 1;
    assert forall c :: c in s.cursors && c != id ==> Position(m, m.cursors[c]) == Position(s, s.cursors[c]);
  }

  /** The holder has not been counted yet; if it is the last one missing, it is at the head. */
  lemma MarkCounts(s: Snapshot, id: Id)
    requires Inv(s) && id in s.cursors && Holding(s, s.cursors[id])
    ensures var i := Position(s, s.cursors[id]);
            && s.queue[i].seen < s.consumers
            && (s.queue[i].seen + 1 == s.consumers ==> i == 0)
  {
    var i := Position(s, s.cursors[id]);
    var passed := Passers(s, i) + {id};
    assert id !in Passers(s, i);
    SubsetSize(passed, s.cursors.Keys);
    if |passed| == |s.cursors.Keys| {
      var c := SomebodyAtHead(s);
      assert c in passed;
    }
  }

  lemma MarkPlaces(s: Snapshot, id: Id)
    requires PlacesInv(s) && id in s.cursors && Holding(s, s.cursors[id])
    ensures PlacesInv(Marked(s, id))
  {
  }

  lemma MarkSeen(s: Snapshot, id: Id)
    requires SeenInv(s) && id in s.cursors && ConsumerInv(s, s.cursors[id]) && Holding(s, s.cursors[id])
    ensures SeenInv(Marked(s, id))
  {
    var m := Marked(s, id);
    assert m.cursors.Keys == s.cursors.Keys;
    forall j | 0 <= j < |m.queue| ensures m.queue[j].seen == |Passers(m, j)| {
      MarkedPassers(s, id, j);
    }
  }

  lemma MarkKeepsCounts(s: Snapshot, id: Id)
    requires Inv(s) && id in s.cursors && Holding(s, s.cursors[id])
    ensures CountsInv(Marked(s, id))
    ensures s.queue[Position(s, s.cursors[id])].seen + 1 < s.consumers ==> Inv(Marked(s, id))
  {
    MarkPlaces(s, id);
    MarkSeen(s, id);
  }

  /** The last consumer to pass the head, `id`, is just behind it. */
  lemma PopKeepsInv(s: Snapshot, id: Id)
    requires CountsInv(s) && s.queue != [] && s.queue[0].seen == s.consumers
    requires id in s.cursors && Position(s, s.cursors[id]) == 1
    ensures Inv(Popped(s))
    ensures forall c :: c in s.cursors ==> 0 < Position(s, s.cursors[c])
    ensures forall c :: c in s.cursors ==> Position(Popped(s), s.cursors[c]) == Position(s, s.cursors[c]) - 1
  {
    PassersSize(s, 0);
    var p := Popped(s);
    forall c | c in s.cursors
      ensures 0 < Position(s, s.cursors[c])
      ensures Position(p, s.cursors[c]) == Position(s, s.cursors[c]) - 1
    {
      assert c in Passers(s, 0);
    }
    forall j | 0 <= j < |p.queue| ensures p.queue[j].seen == |Passers(p, j)| {
      assert Passers(p, j) == Passers(s, j + 1);
    }
    if p.queue != [] {
      PassersSize(p, 0);
      assert id !in Passers(p, 0);
    }
  }

  /** Every other consumer stays where it is in the log while `id` moves past one entry. */
  ghost predicate OneStep(s: Snapshot, t: Snapshot, id: Id) {
    && t.cursors.Keys == s.cursors.Keys
    && (forall c :: c in s.cursors ==>
          && Position(t, t.cursors[c]) - |t.queue| == Position(s, s.cursors[c]) - |s.queue| + (if c == id then 1 else 0)
          && (Holding(t, t.cursors[c]) <==> c != id && Holding(s, s.cursors[c])))
    && (t.queue != [] ==> t.nextSerial == s.nextSerial)
  }

  /** One cursor of the abstraction. */
  lemma AbsAt(s: Snapshot, log: seq<Frame>, c: Id)
    requires PlacesInv(s) && Tail(s, log) && c in s.cursors
    ensures Abs(s, log).cursors.Keys == s.cursors.Keys
    ensures Abs(s, log).cursors[c] == Cursor(|log| - |s.queue| + Position(s, s.cursors[c]), Holding(s, s.cursors[c]))
  {
  }

  lemma SameCursors(a: map<Id, Cursor>, b: map<Id, Cursor>)
    requires a.Keys == b.Keys && forall c :: c in a.Keys ==> a[c] == b[c]
    ensures a == b
  {
  }

  lemma OneStepCursor(s: Snapshot, t: Snapshot, id: Id, log: seq<Frame>, c: Id)
    requires PlacesInv(s) && Tail(s, log) && PlacesInv(t) && Tail(t, log) && OneStep(s, t, id)
    requires c in s.cursors && id in s.cursors && Holding(s, s.cursors[id])
    ensures var a, b := Abs(s, log).cursors, Abs(t, log).cursors;
            && b.Keys == a.Keys == s.cursors.Keys
            && b[c] == if c == id then Cursor(a[c].next + 1, false) else a[c]
  {
    AbsAt(s, log, c);
    AbsAt(t, log, c);
  }

  lemma OneStepCursors(s: Snapshot, t: Snapshot, id: Id, log: seq<Frame>)
    requires PlacesInv(s) && Tail(s, log) && id in s.cursors && Holding(s, s.cursors[id])
    requires PlacesInv(t) && Tail(t, log) && OneStep(s, t, id)
    ensures Passes(Abs(s, log), Abs(t, log), id)
  {
    var a, b := Abs(s, log).cursors, Abs(t, log).cursors;
    OneStepCursor(s, t, id, log, id);
    var moved := a[id := Cursor(a[id].next + 1, false)];
    forall c | c in moved.Keys ensures b[c] == moved[c] {
      OneStepCursor(s, t, id, log, c);
    }
    SameCursors(b, moved);
  }

  lemma OneStepRefines(s: Snapshot, t: Snapshot, id: Id, log: seq<Frame>)
    requires PlacesInv(s) && Tail(s, log) && id in s.cursors && Holding(s, s.cursors[id]) && Abs(s, log).Valid()
    requires PlacesInv(t) && Tail(t, log) && OneStep(s, t, id) && Abs(t, log).Valid()
    ensures Abs(t, log) == Advance(Abs(s, log), id)
  {
    AbsAt(s, log, id);
    OneStepCursors(s, t, id, log);
    ValidIsAdvance(Abs(s, log), Abs(t, log), id);
  }

  lemma MarkIsOneStep(s: Snapshot, id: Id)
    requires Inv(s) && id in s.cursors && Holding(s, s.cursors[id])
    ensures OneStep(s, Marked(s, id), id)
  {
    var m := Marked(s, id);
    assert m.cursors.Keys == s.cursors.Keys;
  }

  lemma PopIsOneStep(s: Snapshot, id: Id)
    requires Inv(s) && id in s.cursors && Holding(s, s.cursors[id])
    requires s.queue[Position(s, s.cursors[id])].seen + 1 == s.consumers
    ensures Inv(Popped(Marked(s, id))) && OneStep(s, Popped(Marked(s, id)), id)
  {
    MarkCounts(s, id);
    MarkKeepsCounts(s, id);
    MarkIsOneStep(s, id);
    var m := Marked(s, id);
    PopKeepsInv(m, id);
    forall c | c in m.cursors
      ensures Holding(Popped(m), m.cursors[c]) <==> Holding(m, m.cursors[c])
    {
      assert 0 < Position(m, m.cursors[c]);
    }
  }

  /** The state after the consumer is done with the buffer that it holds. */
  function Unreferenced(s: Snapshot, id: Id): Snapshot
    requires id in s.cursors && ConsumerInv(s, s.cursors[id]) && Holding(s, s.cursors[id])
  {
    var m := Marked(s, id);
    if m.queue[Position(s, s.cursors[id])].seen < s.consumers then m else Popped(m)
  }

  lemma UnrefTail(s: Snapshot, id: Id, log: seq<Frame>)
    requires Tail(s, log) && id in s.cursors && ConsumerInv(s, s.cursors[id]) && Holding(s, s.cursors[id])
    requires 1 <= s.nextSerial
    ensures Tail(Unreferenced(s, id), log)
  {
  }

  /** The assertions of bq_consumer_elem_unref and bq_producer_destroy_head hold, and the step is
      one entry of the log. */
  lemma UnrefRefines(s: Snapshot, id: Id, log: seq<Frame>)
    requires Inv(s) && Tail(s, log) && id in s.cursors && Holding(s, s.cursors[id])
    ensures var i := Position(s, s.cursors[id]);
            && s.queue[i].seen < s.consumers
            && (s.queue[i].seen + 1 == s.consumers ==> i == 0)
    ensures var t := Unreferenced(s, id);
            && Inv(t) && Tail(t, log) && OneStep(s, t, id)
            && Abs(s, log).Valid() && Abs(t, log) == Advance(Abs(s, log), id)
  {
    MarkCounts(s, id);
    MarkKeepsCounts(s, id);
    UnrefTail(s, id, log);
    if s.queue[Position(s, s.cursors[id])].seen + 1 == s.consumers {
      PopIsOneStep(s, id);
    } else {
      MarkIsOneStep(s, id);
    }
    AbsValid(s, log);
    AbsValid(Unreferenced(s, id), log);
    OneStepRefines(s, Unreferenced(s, id), id, log);
  }
}
