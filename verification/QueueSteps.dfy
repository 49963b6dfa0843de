/**
  The operations of the buffer queue (bufferqueue.c) on the value of its state, each as a step of the
  log.
  */
module QueueSteps {
  import opened Common
  import opened BufferLog
  import opened QueueState

  /** Two states whose consumers stand at the same places count the same consumers. */
  lemma SamePlaces(s: Snapshot, t: Snapshot)
    requires Inv(s) && PlacesInv(t)
    requires t.queue == s.queue && t.consumers == s.consumers && t.cursors.Keys == s.cursors.Keys
    requires forall c :: c in s.cursors ==> Position(t, t.cursors[c]) == Position(s, s.cursors[c])
    ensures Inv(t)
  {
    forall i | 0 <= i < |t.queue| ensures t.queue[i].seen == |Passers(t, i)| {
      assert Passers(t, i) == Passers(s, i);
    }
    assert |t.cursors| == |t.cursors.Keys| == |s.cursors.Keys| == |s.cursors|;
  }

  /** The consumer points at the i-th buffer and remembers its serial and generation; past the
      end it only drops its pointer. */
  function Pointing(s: Snapshot, id: Id, i: nat): Snapshot
    requires id in s.cursors
  {
    s.(cursors := s.cursors[id :=
      if i < |s.queue| then Consumer(s.queueSerial, Some(s.queue[i].addr), s.queue[i].seqNo)
      else s.cursors[id].(pointer := None)])
  }

  lemma DerefUnique(queue: seq<Buffer>, i: nat)
    requires i < |queue| && Distinct(queue)
    ensures Live(queue, queue[i].addr) && Deref(queue, queue[i].addr) == i
  {
  }

  /** Pointing at the first buffer not yet passed leaves everybody in place. */
  lemma SelectPlaces(s: Snapshot, id: Id)
    requires PlacesInv(s) && id in s.cursors && !Holding(s, s.cursors[id])
    ensures var t := Pointing(s, id, Position(s, s.cursors[id]));
            && PlacesInv(t) && t.cursors.Keys == s.cursors.Keys
            && (forall c :: c in s.cursors ==> Position(t, t.cursors[c]) == Position(s, s.cursors[c]))
  {
  }

  lemma SelectRefines(s: Snapshot, id: Id, log: seq<Frame>)
    requires Inv(s) && Tail(s, log) && id in s.cursors && !Holding(s, s.cursors[id])
    ensures var t := Pointing(s, id, Position(s, s.cursors[id]));
            Inv(t) && Tail(t, log) && Abs(t, log) == Select(Abs(s, log), id)
  {
    SelectPlaces(s, id);
    SamePlaces(s, Pointing(s, id, Position(s, s.cursors[id])));
    SelectAbs(s, id, log);
  }

  lemma SelectAbs(s: Snapshot, id: Id, log: seq<Frame>)
    requires PlacesInv(s) && Tail(s, log) && id in s.cursors && !Holding(s, s.cursors[id])
    requires PlacesInv(Pointing(s, id, Position(s, s.cursors[id])))
    ensures var t := Pointing(s, id, Position(s, s.cursors[id]));
            Tail(t, log) && Abs(t, log) == Select(Abs(s, log), id)
  {
    var t := Pointing(s, id, Position(s, s.cursors[id]));
    var a, b := Abs(t, log).cursors, Select(Abs(s, log), id).cursors;
    AbsAt(s, log, id);
    AbsAt(t, log, id);
    forall c | c in a.Keys ensures a[c] == b[c] {
      SelectAt(s, t, id, log, c);
    }
    SameCursors(a, b);
  }

  lemma SelectAt(s: Snapshot, t: Snapshot, id: Id, log: seq<Frame>, c: Id)
    requires PlacesInv(s) && PlacesInv(t) && Tail(s, log) && Tail(t, log) && id in s.cursors && !Holding(s, s.cursors[id])
    requires t == Pointing(s, id, Position(s, s.cursors[id])) && c in s.cursors
    ensures c in Abs(s, log).cursors && c in Abs(t, log).cursors
    ensures Abs(t, log).cursors[c] == Select(Abs(s, log), id).cursors[c]
  {
    AbsAt(s, log, c);
    AbsAt(t, log, c);
  }

  /** Only a pointer of the current generation is kept. */
  function Confirmed(s: Snapshot, id: Id): Snapshot
    requires id in s.cursors
  {
    var k := s.cursors[id];
    s.(cursors := s.cursors[id := k.(pointer := if Holding(s, k) then k.pointer else None)])
  }

  /** Dropping a pointer of an older generation changes nothing that matters. */
  lemma ConfirmRefines(s: Snapshot, id: Id, log: seq<Frame>)
    requires Inv(s) && Tail(s, log) && id in s.cursors
    ensures var t := Confirmed(s, id); Inv(t) && Tail(t, log) && Abs(t, log) == Abs(s, log)
    ensures Holding(s, s.cursors[id]) ==> Confirmed(s, id) == s
  {
    var k := s.cursors[id];
    if Holding(s, k) || k.pointer.None? {
      assert s.cursors[id := k] == s.cursors;
    } else {
      var t := Confirmed(s, id);
      assert PlacesInv(t) && t.cursors.Keys == s.cursors.Keys;
      SamePlaces(s, t);
      ConfirmAbs(s, id, log);
    }
  }

  lemma ConfirmAbs(s: Snapshot, id: Id, log: seq<Frame>)
    requires PlacesInv(s) && Tail(s, log) && id in s.cursors && PlacesInv(Confirmed(s, id))
    ensures var t := Confirmed(s, id); Tail(t, log) && Abs(t, log) == Abs(s, log)
  {
    var t := Confirmed(s, id);
    AbsAt(s, log, id);
    AbsAt(t, log, id);
    var a, b := Abs(t, log).cursors, Abs(s, log).cursors;
    forall c | c in a.Keys ensures a[c] == b[c] {
      ConfirmAt(s, t, id, log, c);
    }
    SameCursors(a, b);
  }

  lemma ConfirmAt(s: Snapshot, t: Snapshot, id: Id, log: seq<Frame>, c: Id)
    requires PlacesInv(s) && PlacesInv(t) && Tail(s, log) && Tail(t, log) && id in s.cursors && c in s.cursors
    requires t == Confirmed(s, id)
    ensures c in Abs(s, log).cursors && c in Abs(t, log).cursors && Abs(t, log).cursors[c] == Abs(s, log).cursors[c]
  {
    AbsAt(s, log, c);
    AbsAt(t, log, c);
  }

  /** A pointer of the current generation is never behind the head of the queue, so the second
      staleness test of bq_consumer_confirm_pointer never fires; the buffer it points at is live
      and has the serial that the consumer remembers. */
  lemma PointerIsCurrent(s: Snapshot, k: Consumer)
    requires PlacesInv(s) && ConsumerInv(s, k) && Holding(s, k)
    ensures Live(s.queue, k.pointer.value)
    ensures s.queue[Deref(s.queue, k.pointer.value)].seqNo == k.lastSerial
    ensures s.queue != [] && s.queue[0].seqNo <= k.lastSerial
    ensures Deref(s.queue, k.pointer.value) == Position(s, k)
  {
    DerefUnique(s.queue, Position(s, k));
  }

  /** What bq_consumer_elem_unref and bq_producer_destroy_head assert. */
  predicate CanMove(s: Snapshot, id: Id) {
    && id in s.cursors && ConsumerInv(s, s.cursors[id])
    && (Holding(s, s.cursors[id]) ==>
          var i := Position(s, s.cursors[id]);
          && s.queue[i].seen < s.consumers
          && (s.queue[i].seen + 1 == s.consumers ==> i == 0))
  }

  lemma CanAlwaysMove(s: Snapshot, id: Id)
    requires Inv(s) && id in s.cursors
    ensures CanMove(s, id)
  {
    if Holding(s, s.cursors[id]) {
      MarkCounts(s, id);
    }
  }

  /** The buffer after the held one is the first not passed once the held one is let go. */
  lemma NextIsFirstUnpassed(s: Snapshot, id: Id)
    requires CanMove(s, id) && Holding(s, s.cursors[id])
    ensures var t := Unreferenced(s, id);
            && !Holding(t, t.cursors[id])
            && Position(t, t.cursors[id]) >= 0
            && AddrAt(t.queue, Position(t, t.cursors[id])) == AddrAt(s.queue, Position(s, s.cursors[id]) + 1)
            && (Distinct(s.queue) ==> Distinct(t.queue))
  {
  }

  /** The state after the consumer has let go of what it holds, if anything. */
  function Released(s: Snapshot, id: Id): (t: Snapshot)
    requires CanMove(s, id)
    ensures id in t.cursors && !Holding(t, t.cursors[id]) && Position(t, t.cursors[id]) >= 0
  {
    if Holding(s, s.cursors[id]) then
      NextIsFirstUnpassed(s, id);
      Unreferenced(s, id)
    else Confirmed(s, id)
  }

  /** bq_consumer_move_internal on snapshots. */
  function MovedOn(s: Snapshot, id: Id): Snapshot
    requires CanMove(s, id)
  {
    var t := Released(s, id);
    Pointing(t, id, Position(t, t.cursors[id]))
  }

  lemma ReleaseRefines(s: Snapshot, id: Id, log: seq<Frame>)
    requires Inv(s) && Tail(s, log) && id in s.cursors && CanMove(s, id)
    ensures Abs(s, log).Valid()
    ensures var t := Released(s, id);
            && Inv(t) && Tail(t, log)
            && Abs(t, log) == if Holding(s, s.cursors[id]) then Advance(Abs(s, log), id) else Abs(s, log)
  {
    AbsValid(s, log);
    if Holding(s, s.cursors[id]) {
      UnrefRefines(s, id, log);
    } else {
      ConfirmRefines(s, id, log);
    }
  }

  lemma MoveRefines(s: Snapshot, id: Id, log: seq<Frame>)
    requires Inv(s) && Tail(s, log) && id in s.cursors
    ensures CanMove(s, id) && Abs(s, log).Valid()
    ensures var t := MovedOn(s, id); Inv(t) && Tail(t, log) && Abs(t, log) == Move(Abs(s, log), id)
  {
    CanAlwaysMove(s, id);
    ReleaseRefines(s, id, log);
    SelectRefines(Released(s, id), id, log);
  }

  /** bq_consumer_get on snapshots. */
  function GotTo(s: Snapshot, id: Id): Snapshot
    requires CanMove(s, id)
  {
    if Holding(s, s.cursors[id]) then s else MovedOn(Confirmed(s, id), id)
  }

  function ReadingAt(queue: seq<Buffer>, i: nat): Option<Reading> {
    if i < |queue| then Some(Reading(queue[i].frame, queue[i].seqNo)) else None
  }

  lemma ReadRefines(s: Snapshot, id: Id, log: seq<Frame>)
    requires PlacesInv(s) && Tail(s, log) && id in s.cursors
    ensures Position(s, s.cursors[id]) >= 0
    ensures ReadingAt(s.queue, Position(s, s.cursors[id])) == Read(Abs(s, log), id)
  {
  }

  lemma GetRefines(s: Snapshot, id: Id, log: seq<Frame>)
    requires Inv(s) && Tail(s, log) && id in s.cursors
    ensures CanMove(s, id)
    ensures var t := GotTo(s, id); Inv(t) && Tail(t, log) && Abs(t, log) == Get(Abs(s, log), id)
  {
    CanAlwaysMove(s, id);
    if !Holding(s, s.cursors[id]) {
      ConfirmRefines(s, id, log);
      MoveRefines(Confirmed(s, id), id, log);
    }
  }

  /** When a consumer has passed everything it knew of, the buffers it has
      passed are those with a serial up to the one it remembers. */
  lemma WaitingFacts(s: Snapshot, id: Id)
    requires PlacesInv(s) && id in s.cursors && !Stale(s, s.cursors[id]) && s.cursors[id].pointer.None?
    ensures 0 <= Position(s, s.cursors[id]) <= |s.queue|
    ensures forall i :: 0 <= i < |s.queue| ==>
              (s.queue[i].seqNo <= s.cursors[id].lastSerial <==> i < Position(s, s.cursors[id]))
  {
  }

  function Added(s: Snapshot, addr: Addr, frame: Frame): Snapshot {
    s.(queue := s.queue + [Buffer(addr, s.nextSerial, 0, frame)], nextSerial := s.nextSerial + 1)
  }

  lemma PutPlaces(s: Snapshot, addr: Addr, frame: Frame)
    requires PlacesInv(s) && s.nextSerial < MAX_SERIAL && !Live(s.queue, addr)
    ensures PlacesInv(Added(s, addr, frame))
    ensures forall c :: c in s.cursors ==> Position(Added(s, addr, frame), s.cursors[c]) == Position(s, s.cursors[c])
  {
  }

  lemma PutKeepsInv(s: Snapshot, addr: Addr, frame: Frame)
    requires Inv(s) && PlacesInv(Added(s, addr, frame))
    requires forall c :: c in s.cursors ==> Position(Added(s, addr, frame), s.cursors[c]) == Position(s, s.cursors[c])
    ensures Inv(Added(s, addr, frame))
  {
    var t := Added(s, addr, frame);
    forall i | 0 <= i < |t.queue| ensures t.queue[i].seen == |Passers(t, i)| {
      assert Passers(t, i) == if i < |s.queue| then Passers(s, i) else {};
    }
  }

  lemma PutRefines(s: Snapshot, addr: Addr, frame: Frame, log: seq<Frame>)
    requires PlacesInv(s) && Tail(s, log) && PlacesInv(Added(s, addr, frame))
    requires forall c :: c in s.cursors ==> Position(Added(s, addr, frame), s.cursors[c]) == Position(s, s.cursors[c])
    ensures Tail(Added(s, addr, frame), log + [frame])
    ensures Abs(Added(s, addr, frame), log + [frame]) == Put(Abs(s, log), frame)
  {
    assert Abs(Added(s, addr, frame), log + [frame]).cursors == Abs(s, log).cursors;
  }

  function Emptied(s: Snapshot): Snapshot {
    s.(queue := [], queueSerial := s.queueSerial + 1, nextSerial := 1)
  }

  lemma ResetRefines(s: Snapshot, log: seq<Frame>)
    requires Inv(s) && Tail(s, log)
    ensures Inv(Emptied(s)) && Tail(Emptied(s), log) && Abs(Emptied(s), log) == Reset(Abs(s, log))
  {
    var t := Emptied(s);
    assert Abs(t, log).cursors == Reset(Abs(s, log)).cursors;
  }

  function Joined(s: Snapshot, id: Id): Snapshot {
    s.(consumers := s.consumers + 1, cursors := s.cursors[id := Consumer(0, None, 0)])
  }

  lemma JoinKeepsInv(s: Snapshot, id: Id)
    requires Inv(s) && id !in s.cursors
    ensures Inv(Joined(s, id))
  {
    var t := Joined(s, id);
    assert t.cursors.Keys == s.cursors.Keys + {id};
    forall i | 0 <= i < |t.queue| ensures t.queue[i].seen == |Passers(t, i)| {
      JoinedPassers(s, id, i);
    }
    PassersSize(s, 0);
    JoinedPlaces(s, id);
  }

  lemma JoinedPassers(s: Snapshot, id: Id, i: nat)
    requires 0 < s.queueSerial && id !in s.cursors
    ensures Passers(Joined(s, id), i) == Passers(s, i)
  {
  }

  lemma JoinedPlaces(s: Snapshot, id: Id)
    requires PlacesInv(s)
    ensures PlacesInv(Joined(s, id))
  {
  }

  lemma JoinRefines(s: Snapshot, id: Id, log: seq<Frame>)
    requires PlacesInv(s) && PlacesInv(Joined(s, id)) && Tail(s, log) && id !in s.cursors
    ensures Tail(Joined(s, id), log) && Abs(Joined(s, id), log) == Join(Abs(s, log), id)
  {
    var t := Joined(s, id);
    var a, b := Abs(t, log).cursors, Join(Abs(s, log), id).cursors;
    AbsAt(t, log, id);
    forall c | c in s.cursors ensures a[c] == b[c] {
      AbsAt(s, log, c);
      AbsAt(t, log, c);
    }
    SameCursors(a, b);
  }

  /** The seen count of every buffer goes down by one (bq_decrement_seen_on_free). */
  function Unseen1(queue: seq<Buffer>): (r: seq<Buffer>)
    requires forall i :: 0 <= i < |queue| ==> 0 < queue[i].seen
    ensures |r| == |queue|
    ensures forall i :: 0 <= i < |r| ==> r[i] == queue[i].(seen := queue[i].seen - 1)
  {
    seq(|queue|, i requires 0 <= i < |queue| => queue[i].(seen := queue[i].seen - 1))
  }

  /** A consumer that has moved past everything queued has been counted by every buffer. */
  lemma PassedAllIsCounted(s: Snapshot, id: Id)
    requires Inv(s) && id in s.cursors && Position(s, s.cursors[id]) == |s.queue|
    ensures forall i :: 0 <= i < |s.queue| ==> 0 < s.queue[i].seen
  {
    forall i | 0 <= i < |s.queue| ensures 0 < s.queue[i].seen {
      assert id in Passers(s, i);
    }
  }

  function Left(s: Snapshot, id: Id): Snapshot
    requires forall i :: 0 <= i < |s.queue| ==> 0 < s.queue[i].seen
    requires 0 < s.consumers
  {
    s.(queue := Unseen1(s.queue), consumers := s.consumers - 1, cursors := s.cursors - {id})
  }

  /** Once a consumer that passed everything is gone, the counts are those of the others. */
  lemma LeaveKeepsInv(s: Snapshot, id: Id)
    requires Inv(s) && id in s.cursors && Position(s, s.cursors[id]) == |s.queue|
    requires forall i :: 0 <= i < |s.queue| ==> 0 < s.queue[i].seen
    ensures 0 < s.consumers && Inv(Left(s, id))
    ensures Left(s, id).cursors == map[] ==> s.queue == []
  {
    var t := Left(s, id);
    assert t.cursors.Keys == s.cursors.Keys - {id};
    assert PlacesInv(t);
    forall i | 0 <= i < |t.queue| ensures t.queue[i].seen == |Passers(t, i)| {
      assert id in Passers(s, i);
      assert Passers(t, i) == Passers(s, i) - {id};
    }
    if t.cursors == map[] {
      var c := SomebodyAtHead(s);
      assert c !in t.cursors.Keys;
    }
  }

  lemma LeaveRefines(s: Snapshot, id: Id, log: seq<Frame>)
    requires Inv(s) && Tail(s, log) && id in s.cursors && Position(s, s.cursors[id]) == |s.queue|
    requires forall i :: 0 <= i < |s.queue| ==> 0 < s.queue[i].seen
    ensures 0 < s.consumers && Inv(Left(s, id)) && Tail(Left(s, id), log)
    ensures Abs(s, log).Valid() && Abs(Left(s, id), log) == Leave(Abs(s, log), id)
  {
    AbsValid(s, log);
    LeaveKeepsInv(s, id);
    var t := Left(s, id);
    LeftCursors(s, id, log);
    if t.cursors != map[] {
      AbsValid(t, log);
      ValidIsSettled(Abs(t, log), Abs(s, log).gen);
    }
  }

  lemma LeftCursors(s: Snapshot, id: Id, log: seq<Frame>)
    requires PlacesInv(s) && Tail(s, log) && 0 < s.consumers
    requires forall i :: 0 <= i < |s.queue| ==> 0 < s.queue[i].seen
    requires PlacesInv(Left(s, id))
    ensures Tail(Left(s, id), log) && Abs(Left(s, id), log).cursors == Abs(s, log).cursors - {id}
  {
  }

  // ---------------------------------------------------------------- what the invariant says

  /** In every reachable state: serials are consecutive and end before the next one to be given
      out, seen counts never increase towards the tail, and no buffer that all of a non-empty set
      of consumers have passed is still queued. */
  lemma QueuedBuffers(s: Snapshot, i: nat, j: nat)
    requires Inv(s) && i <= j < |s.queue|
    ensures s.queue[j].seqNo == s.queue[i].seqNo + (j - i)
    ensures s.queue[|s.queue| - 1].seqNo == s.nextSerial - 1
    ensures s.queue[i].seen == |Passers(s, i)| && s.queue[j].seen <= s.queue[i].seen
    ensures s.cursors != map[] ==> s.queue[j].seen < s.consumers
  {
    SubsetSize(Passers(s, j), Passers(s, i));
    SubsetSize(Passers(s, j), Passers(s, 0));
  }

  /** bq_consumer_unseen */
  function Unseen(s: Snapshot, id: Id): int
    requires id in s.cursors
  {
    if Stale(s, s.cursors[id]) then s.nextSerial
    else if s.queue == [] then 0
    else s.nextSerial - s.cursors[id].lastSerial
  }

  /** How far the reported number is from the number of buffers still to pass. */
  lemma UnseenOverReports(s: Snapshot, id: Id)
    requires Inv(s) && id in s.cursors
    ensures var k := s.cursors[id];
            Unseen(s, id) - (|s.queue| - Position(s, k)) ==
            if Stale(s, k) then Head(s) else if Holding(s, k) then 0 else 1
    ensures Unseen(s, id) >= |s.queue| - Position(s, s.cursors[id])
    ensures !Stale(s, s.cursors[id]) ==> s.queue != []
  {
  }

  // ---------------------------------------------------------------- the queue as a log

  /** The queue implements the log: its invariant holds and the log is what it abstracts to. */
  ghost predicate Represents(s: Snapshot, l: Log) {
    forall key: int {:trigger Unlock(key)} :: Unlock(key) ==> Inv(s) && Tail(s, l.entries) && Abs(s, l.entries) == l
  }

  lemma Open(s: Snapshot, l: Log)
    requires Represents(s, l)
    ensures Inv(s) && Tail(s, l.entries) && Abs(s, l.entries) == l
    ensures l.Valid() && l.cursors.Keys == s.cursors.Keys
  {
    assert Unlock(0);
    AbsValid(s, l.entries);
  }

  lemma PutStep(s: Snapshot, l: Log, addr: Addr, frame: Frame)
    requires Represents(s, l) && s.nextSerial < MAX_SERIAL && !Live(s.queue, addr)
    ensures Represents(Added(s, addr, frame), Put(l, frame))
  {
    Open(s, l);
    PutPlaces(s, addr, frame);
    PutKeepsInv(s, addr, frame);
    PutRefines(s, addr, frame, l.entries);
  }

  lemma ResetStep(s: Snapshot, l: Log)
    requires Represents(s, l)
    ensures Represents(Emptied(s), Reset(l))
  {
    Open(s, l);
    ResetRefines(s, l.entries);
  }

  lemma JoinStep(s: Snapshot, l: Log, id: Id)
    requires Represents(s, l) && id !in s.cursors
    ensures Represents(Joined(s, id), Join(l, id))
  {
    Open(s, l);
    JoinKeepsInv(s, id);
    JoinRefines(s, id, l.entries);
  }

  lemma MoveStep(s: Snapshot, l: Log, id: Id)
    requires Represents(s, l) && id in s.cursors
    ensures PlacesInv(s) && CanMove(s, id)
    ensures l.Valid() && id in l.cursors && Represents(MovedOn(s, id), Move(l, id))
    ensures id in MovedOn(s, id).cursors && id in Move(l, id).cursors
    ensures Holding(MovedOn(s, id), MovedOn(s, id).cursors[id]) == Move(l, id).cursors[id].holding
  {
    Open(s, l);
    MoveRefines(s, id, l.entries);
    Open(MovedOn(s, id), Move(l, id));
  }

  lemma GetStep(s: Snapshot, l: Log, id: Id)
    requires Represents(s, l) && id in s.cursors
    ensures PlacesInv(s) && CanMove(s, id) && Position(s, s.cursors[id]) >= 0
    ensures id in l.cursors && Represents(GotTo(s, id), Get(l, id))
    ensures ReadingAt(s.queue, Position(s, s.cursors[id])) == Read(l, id)
  {
    Open(s, l);
    GetRefines(s, id, l.entries);
    ReadRefines(s, id, l.entries);
  }

  /** A consumer that has moved past everything is counted by every buffer, and can go. */
  lemma LeaveStep(s: Snapshot, l: Log, id: Id)
    requires Represents(s, l) && id in s.cursors
    requires id in l.cursors && l.cursors[id].next == |l.entries|
    ensures 0 < s.consumers && forall i :: 0 <= i < |s.queue| ==> 0 < s.queue[i].seen
    ensures l.Valid() && Represents(Left(s, id), Leave(l, id))
  {
    Open(s, l);
    PassedAllIsCounted(s, id);
    LeaveRefines(s, id, l.entries);
  }
}
