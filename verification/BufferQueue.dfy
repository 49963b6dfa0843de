/**
  The producer/consumer buffer queue (bufferqueue.c): the operations, which update the producer and
  its consumers in place, and runs of them.
  */
module BufferQueue {
  import opened Common
  import opened BufferLog
  import opened QueueState
  import opened QueueSteps

  class Producer {
    var queue: seq<Buffer>
    var nextSerial: nat
    var queueSerial: nat
    var consumers: nat
    /** The consumer structures that point at this producer, by handle. */
    var cursors: map<Id, Consumer>
    /** The log that this queue implements. */
    ghost var contents: Log

    function Snap(): Snapshot
      reads this
    {
      Snapshot(queue, nextSerial, queueSerial, consumers, cursors)
    }

    ghost predicate Valid()
      reads this
    {
      Represents(Snap(), contents) && contents.Valid() && contents.cursors.Keys == cursors.Keys
    }

    constructor ()
      ensures Valid() && contents == EmptyLog
    {
      queue, nextSerial, queueSerial, consumers, cursors := [], 1, 1, 0, map[];
      contents := EmptyLog;
    }

    /** bq_producer_put: the serial counter may not wrap; a new node has an address of its own. */
    method Put(addr: Addr, frame: Frame)
      requires Valid() && nextSerial < MAX_SERIAL && !Live(queue, addr)
      modifies this
      ensures Valid() && contents == BufferLog.Put(old(contents), frame)
    {
      PutStep(Snap(), contents, addr, frame);
      StepKeepsValid(contents, EPut(frame));
      var seqNo := nextSerial;
      nextSerial := nextSerial + 1;
      queue := queue + [Buffer(addr, seqNo, 0, frame)];
      contents := BufferLog.Put(contents, frame);
      assert Snap() == Added(old(Snap()), addr, frame);
    }

    /** bq_producer_reset_queue */
    method ResetQueue()
      requires Valid()
      modifies this
      ensures Valid() && contents == BufferLog.Reset(old(contents))
    {
      ResetStep(Snap(), contents);
      queue := [];
      queueSerial := queueSerial + 1;
      nextSerial := 1;
      contents := BufferLog.Reset(contents);
      assert Snap() == Emptied(old(Snap()));
    }

    /** bq_consumer_new */
    method NewConsumer(id: Id)
      requires Valid() && id !in cursors
      modifies this
      ensures Valid() && contents == BufferLog.Join(old(contents), id)
    {
      JoinStep(Snap(), contents, id);
      StepKeepsValid(contents, EJoin(id));
      consumers := consumers + 1;
      cursors := cursors[id := Consumer(0, None, 0)];
      contents := BufferLog.Join(contents, id);
      assert Snap() == Joined(old(Snap()), id);
    }

    /** bq_consumer_confirm_pointer: what is left is a pointer into the current queue. */
    method ConfirmPointer(id: Id)
      requires id in cursors && PlacesInv(Snap())
      modifies `cursors
      ensures Snap() == Confirmed(old(Snap()), id)
    {
      var k := cursors[id];
      if Holding(Snap(), k) {
        PointerIsCurrent(Snap(), k);
      }
      var pointer := k.pointer;
      if pointer.Some? {
        if queueSerial != k.queueSerial {
          pointer := None;
        } else if queue != [] && k.lastSerial < queue[0].seqNo {
          pointer := None;
        }
      }
      cursors := cursors[id := k.(pointer := pointer)];
    }

    /** bq_producer_destroy_head: only the head may go, and only once everybody has seen it. */
    method DestroyHead(pointer: Addr)
      requires queue != [] && pointer == queue[0].addr && queue[0].seen == consumers
      modifies `queue, `queueSerial, `nextSerial
      ensures Snap() == Popped(old(Snap()))
    {
      queue := queue[1..];
      if |queue| == 0 {
        queueSerial := queueSerial + 1;
        nextSerial := 1;
      }
    }

    /** bq_consumer_elem_unref */
    method ElemUnref(id: Id)
      requires PlacesInv(Snap()) && CanMove(Snap(), id) && Holding(Snap(), cursors[id])
      modifies this
      ensures contents == old(contents) && Snap() == Unreferenced(old(Snap()), id)
    {
      ghost var s := Snap();
      PointerIsCurrent(s, cursors[id]);
      ConfirmPointer(id);
      var pointer := cursors[id].pointer.value;
      var i := Deref(queue, pointer);
      assert queue[i].seen != consumers;
      cursors := cursors[id := cursors[id].(pointer := None)];
      queue := queue[i := queue[i].(seen := queue[i].seen + 1)];
      if queue[i].seen >= consumers {
        DestroyHead(pointer);
      }
    }

    /** The selection at the end of bq_consumer_move_internal. */
    method SelectPointer(id: Id, pointer: Option<Addr>)
      requires id in cursors && Distinct(queue)
      requires Position(Snap(), cursors[id]) >= 0 && pointer == AddrAt(queue, Position(Snap(), cursors[id]))
      modifies `cursors
      ensures Snap() == Pointing(old(Snap()), id, Position(old(Snap()), old(cursors)[id]))
    {
      if pointer.Some? {
        DerefUnique(queue, Position(Snap(), cursors[id]));
        cursors := cursors[id := Consumer(queueSerial, pointer, queue[Deref(queue, pointer.value)].seqNo)];
      } else {
        cursors := cursors[id := cursors[id].(pointer := None)];
      }
    }

    /** The first buffer with a serial beyond the last one seen. */
    method FindUnseen(id: Id) returns (pointer: Option<Addr>)
      requires id in cursors && PlacesInv(Snap())
      requires !Stale(Snap(), cursors[id]) && cursors[id].pointer.None?
      ensures Position(Snap(), cursors[id]) >= 0 && pointer == AddrAt(queue, Position(Snap(), cursors[id]))
    {
      WaitingFacts(Snap(), id);
      var i := 0;
      while i < |queue| && queue[i].seqNo <= cursors[id].lastSerial
        invariant 0 <= i <= Position(Snap(), cursors[id])
      {
        i := i + 1;
      }
      pointer := AddrAt(queue, i);
    }

    /** The first half of bq_consumer_move_internal: let go of the current buffer, if there is
        one, and find the buffer to select next. */
    method Release(id: Id) returns (pointer: Option<Addr>)
      requires PlacesInv(Snap()) && CanMove(Snap(), id)
      modifies this
      ensures contents == old(contents) && CanMove(old(Snap()), id) && Snap() == Released(old(Snap()), id)
      ensures Distinct(queue) && pointer == AddrAt(queue, Position(Snap(), cursors[id]))
    {
      ghost var s := Snap();
      ghost var k := cursors[id];
      assert k.pointer == (if Holding(s, k) then k.pointer else None) ==> Confirmed(s, id).cursors == s.cursors;
      ConfirmPointer(id);
      if cursors[id].pointer.Some? {
        PointerIsCurrent(s, k);
        NextIsFirstUnpassed(s, id);
        pointer := AddrAt(queue, Deref(queue, cursors[id].pointer.value) + 1);
        ElemUnref(id);
      } else if cursors[id].queueSerial != queueSerial {
        pointer := AddrAt(queue, 0);
      } else {
        pointer := FindUnseen(id);
      }
    }

    /** bq_consumer_move_internal */
    method MoveInternal(id: Id) returns (moved: bool)
      requires PlacesInv(Snap()) && CanMove(Snap(), id)
      modifies this
      ensures contents == old(contents) && CanMove(old(Snap()), id) && Snap() == MovedOn(old(Snap()), id)
      ensures moved == Holding(Snap(), cursors[id])
    {
      var pointer := Release(id);
      SelectPointer(id, pointer);
      moved := pointer.Some?;
    }

    /** bq_consumer_move */
    method Move(id: Id) returns (moved: bool)
      requires Valid() && id in cursors
      modifies this
      ensures Valid() && contents == BufferLog.Move(old(contents), id)
      ensures id in cursors && moved == contents.cursors[id].holding
    {
      MoveStep(Snap(), contents, id);
      StepKeepsValid(contents, EMove(id));
      moved := MoveInternal(id);
      contents := BufferLog.Move(contents, id);
      Open(Snap(), contents);
    }

    /** The buffer that a consumer points at. */
    method ReadHeld(id: Id) returns (reading: Option<Reading>)
      requires PlacesInv(Snap()) && id in cursors && Holding(Snap(), cursors[id])
      ensures Position(Snap(), cursors[id]) >= 0 && reading == ReadingAt(queue, Position(Snap(), cursors[id]))
    {
      PointerIsCurrent(Snap(), cursors[id]);
      var element := queue[Deref(queue, cursors[id].pointer.value)];
      reading := Some(Reading(element.frame, element.seqNo));
    }

    /** A consumer that points at nothing moves to the next buffer and reads it. */
    method ReadNext(id: Id) returns (reading: Option<Reading>)
      requires PlacesInv(Snap()) && CanMove(Snap(), id) && Position(Snap(), cursors[id]) >= 0 && !Holding(Snap(), cursors[id])
      modifies this
      ensures contents == old(contents) && CanMove(old(Snap()), id) && Snap() == MovedOn(old(Snap()), id)
      ensures reading == ReadingAt(old(queue), Position(old(Snap()), old(cursors[id])))
    {
      ghost var i := Position(Snap(), cursors[id]);
      var moved := MoveInternal(id);
      assert queue == old(queue);
      if !moved {
        return None;
      }
      DerefUnique(queue, i);
      var element := queue[Deref(queue, cursors[id].pointer.value)];
      reading := Some(Reading(element.frame, element.seqNo));
    }

    /** The body of bq_consumer_get. */
    method GetInternal(id: Id) returns (reading: Option<Reading>)
      requires PlacesInv(Snap()) && CanMove(Snap(), id) && Position(Snap(), cursors[id]) >= 0
      modifies this
      ensures contents == old(contents) && CanMove(old(Snap()), id) && Snap() == GotTo(old(Snap()), id)
      ensures reading == ReadingAt(old(queue), Position(old(Snap()), old(cursors[id])))
    {
      ghost var s := Snap();
      ghost var k := cursors[id];
      ConfirmPointer(id);
      if cursors[id].pointer.None? {
        assert !Holding(s, k);
        reading := ReadNext(id);
      } else {
        assert Holding(s, k) && cursors == s.cursors;
        reading := ReadHeld(id);
      }
    }

    /** bq_consumer_get */
    method Get(id: Id) returns (reading: Option<Reading>)
      requires Valid() && id in cursors
      modifies this
      ensures Valid() && contents == BufferLog.Get(old(contents), id)
      ensures reading == BufferLog.Read(old(contents), id)
    {
      GetStep(Snap(), contents, id);
      StepKeepsValid(contents, EGet(id));
      reading := GetInternal(id);
      contents := BufferLog.Get(contents, id);
      Open(Snap(), contents);
    }

    /** bq_decrement_seen_on_free for the whole queue; no count underflows. */
    method DecrementSeen()
      requires forall i :: 0 <= i < |queue| ==> 0 < queue[i].seen
      modifies `queue
      ensures queue == Unseen1(old(queue))
    {
      var i := 0;
      while i < |queue|
        invariant 0 <= i <= |queue| == |old(queue)|
        invariant forall j :: 0 <= j < i ==> queue[j] == old(queue)[j].(seen := old(queue)[j].seen - 1)
        invariant forall j :: i <= j < |queue| ==> queue[j] == old(queue)[j]
      {
        queue := queue[i := queue[i].(seen := queue[i].seen - 1)];
        i := i + 1;
      }
    }

    /** The end of bq_consumer_free. */
    method Unregister(id: Id)
      requires 0 < consumers && forall i :: 0 <= i < |queue| ==> 0 < queue[i].seen
      modifies `queue, `consumers, `cursors
      ensures Snap() == Left(old(Snap()), id)
    {
      DecrementSeen();
      consumers := consumers - 1;
      cursors := cursors - {id};
    }

    /** The loop of bq_consumer_free: the consumer moves past everything that is queued. */
    method MovePastAll(id: Id)
      requires Valid() && id in cursors
      modifies this
      ensures Valid() && id in cursors && contents.cursors[id].next == |contents.entries|
      ensures BufferLog.Leave(contents, id) == BufferLog.Leave(old(contents), id)
    {
      LeaveAfterMove(contents, id);
      var more := Move(id);
      while more
        invariant Valid() && id in cursors && more == contents.cursors[id].holding
        invariant !more ==> contents.cursors[id].next == |contents.entries|
        invariant BufferLog.Leave(contents, id) == BufferLog.Leave(old(contents), id)
        decreases |contents.entries| - contents.cursors[id].next
      {
        LeaveAfterMove(contents, id);
        more := Move(id);
      }
    }

    /** bq_consumer_free */
    method FreeConsumer(id: Id)
      requires Valid() && id in cursors
      modifies this
      ensures Valid() && contents == BufferLog.Leave(old(contents), id)
    {
      MovePastAll(id);
      ghost var s, l := Snap(), contents;
      LeaveStep(s, l, id);
      StepKeepsValid(l, ELeave(id));
      contents := BufferLog.Leave(l, id);
      Unregister(id);
      assert Snap() == Left(s, id);
    }

    /** bq_consumer_unseen: never fewer than there are, exact while a buffer is held, one too many
        after the end has been passed, and off by the serial of the head before the first read of
        a generation. */
    method CountUnseen(id: Id) returns (n: nat)
      requires Valid() && id in cursors
      ensures var remaining := |contents.entries| - contents.cursors[id].next;
              && n >= remaining
              && (Holding(Snap(), cursors[id]) ==> n == remaining)
              && (!Stale(Snap(), cursors[id]) && !Holding(Snap(), cursors[id]) ==> n == remaining + 1)
              && (Stale(Snap(), cursors[id]) ==> n == remaining + Head(Snap()))
    {
      Open(Snap(), contents);
      UnseenOverReports(Snap(), id);
      if cursors[id].queueSerial != queueSerial {
        n := nextSerial;
      } else {
        // The queue cannot be empty here.
        assert queue != [];
        n := nextSerial - cursors[id].lastSerial;
      }
    }
  }

  // ---------------------------------------------------------------- runs

  /** A call of the public interface; a put brings the address of its new node. */
  datatype Call =
    | CPut(addr: Addr, frame: Frame)
    | CReset
    | CJoin(id: Id)
    | CGet(id: Id)
    | CMove(id: Id)
    | CFree(id: Id)

  function EventOf(call: Call): Event {
    match call
    case CPut(_, frame) => EPut(frame)
    case CReset => EReset
    case CJoin(id) => EJoin(id)
    case CGet(id) => EGet(id)
    case CMove(id) => EMove(id)
    case CFree(id) => ELeave(id)
  }

  function EventsOf(calls: seq<Call>): (es: seq<Event>)
    ensures |es| == |calls|
    ensures forall i :: 0 <= i < |calls| ==> es[i] == EventOf(calls[i])
  {
    seq(|calls|, i requires 0 <= i < |calls| => EventOf(calls[i]))
  }

  /** The calls that the program may make: the serial counter must not wrap (the assertion in
      bq_producer_put), a new node is not at a live address, handles are live. */
  predicate Allowed(s: Snapshot, call: Call) {
    match call
    case CPut(addr, _) => s.nextSerial < MAX_SERIAL && !Live(s.queue, addr)
    case CReset => true
    case CJoin(id) => id !in s.cursors
    case CGet(id) => id in s.cursors
    case CMove(id) => id in s.cursors
    case CFree(id) => id in s.cursors
  }

  /** The only calls that may not be made: a put when the counter would wrap or at an address in use,
      a join with a handle in use, and any other call with a handle that is not. */
  lemma NotAllowedIff(s: Snapshot, l: Log, call: Call)
    requires Represents(s, l)
    ensures !Allowed(s, call) <==>
            match call
            case CPut(addr, _) => |l.entries| - l.gen >= 65534 || exists i :: 0 <= i < |s.queue| && s.queue[i].addr == addr
            case CReset => false
            case CJoin(id) => id in l.cursors
            case CGet(id) => id !in l.cursors
            case CMove(id) => id !in l.cursors
            case CFree(id) => id !in l.cursors
  {
    Open(s, l);
  }

  /** One call, as the log sees it. */
  method Perform(p: Producer, call: Call) returns (out: Output)
    requires p.Valid() && Allowed(p.Snap(), call)
    modifies p
    ensures p.Valid() && Enabled(old(p.contents), EventOf(call))
    ensures p.contents == Step(old(p.contents), EventOf(call))
    ensures out == Answer(old(p.contents), EventOf(call))
  {
    StepKeepsValid(p.contents, EventOf(call));
    out := Silent;
    match call {
      case CPut(addr, frame) => p.Put(addr, frame);
      case CReset => p.ResetQueue();
      case CJoin(id) => p.NewConsumer(id);
      case CGet(id) =>
        var reading := p.Get(id);
        out := Got(reading);
      case CMove(id) =>
        var moved := p.Move(id);
        out := Moved(moved);
      case CFree(id) => p.FreeConsumer(id);
    }
  }

  /** The queue is where the log is after the events, and has answered like the log. */
  ghost predicate Tracks(p: Producer, es: seq<Event>, outs: seq<Output>)
    reads p
  {
    p.Valid() && Runs(EmptyLog, es) && p.contents == Run(EmptyLog, es) && outs == Answers(EmptyLog, es)
  }

  method PerformNext(p: Producer, call: Call, ghost es: seq<Event>, outs: seq<Output>) returns (outs': seq<Output>)
    requires Tracks(p, es, outs) && Allowed(p.Snap(), call)
    modifies p
    ensures Tracks(p, es + [EventOf(call)], outs')
  {
    var out := Perform(p, call);
    RunOneMore(EmptyLog, es, EventOf(call));
    outs' := outs + [out];
  }

  lemma EventsOneMore(calls: seq<Call>, k: nat)
    requires k < |calls|
    ensures EventsOf(calls[..k + 1]) == EventsOf(calls[..k]) + [EventOf(calls[k])]
  {
  }

  /** Every run of the queue is a run of the log: the queue stops only at a call that the program
      may not make. */
  method Execute(p: Producer, calls: seq<Call>) returns (done: nat, outs: seq<Output>)
    requires Tracks(p, EventsOf(calls[..0]), [])
    modifies p
    ensures done <= |calls| && Tracks(p, EventsOf(calls[..done]), outs)
    ensures done < |calls| ==> !Allowed(p.Snap(), calls[done])
  {
    done, outs := 0, [];
    while done < |calls| && Allowed(p.Snap(), calls[done])
      invariant done <= |calls| && Tracks(p, EventsOf(calls[..done]), outs)
    {
      EventsOneMore(calls, done);
      outs := PerformNext(p, calls[done], EventsOf(calls[..done]), outs);
      done := done + 1;
    }
  }

  method ExecuteFromStart(calls: seq<Call>) returns (p: Producer, done: nat, outs: seq<Output>)
    ensures done <= |calls| && Tracks(p, EventsOf(calls[..done]), outs)
    ensures done < |calls| ==> !Allowed(p.Snap(), calls[done])
  {
    p := new Producer();
    assert EventsOf(calls[..0]) == [];
    done, outs := Execute(p, calls);
  }
}
