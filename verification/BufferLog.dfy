/**
  The reference model of the buffer queue: an append-only log of media frames with one cursor
  per consumer.  It has no serial counters, no seen counts and no pointers; `BufferQueue` proves
  that the real queue behaves like this log on every run.
  */
module BufferLog {
  import opened Common

  type Id = nat

  /** The payload of a queued buffer (struct MParserBuffer without its bookkeeping fields). */
  datatype Frame = Frame(timestamp: real, delivery: real, duration: real, marker: bool, bytes: seq<Byte>)

  /** `next` is the first log entry the consumer has not moved past; `holding` says that it
      has selected that entry. */
  datatype Cursor = Cursor(next: nat, holding: bool)

  /** `floor` is the oldest entry still retained; `gen` is where the current numbering began. */
  datatype Log = Log(entries: seq<Frame>, floor: nat, gen: nat, cursors: map<Id, Cursor>) {

    /** The packet sequence number of a log entry of the current generation. */
    function Serial(i: nat): int {
      i - gen + 1
    }

    ghost predicate Valid() {
      && gen <= floor <= |entries|
      && (floor == |entries| ==> gen == |entries|)
      && (forall c :: c in cursors ==> floor <= cursors[c].next <= |entries|)
      && (forall c :: c in cursors && cursors[c].holding ==> cursors[c].next < |entries|)
      && (cursors != map[] ==> exists c :: c in cursors && cursors[c].next == floor)
    }
  }

  const EmptyLog := Log([], 0, 0, map[])

  /** The least `next` of a set of cursors, or `cap` when there is no cursor. */
  ghost function Floor(cursors: map<Id, Cursor>, cap: nat): (f: nat)
    requires forall c :: c in cursors ==> cursors[c].next <= cap
    ensures f <= cap
    ensures forall c :: c in cursors ==> f <= cursors[c].next
    ensures if cursors == map[] then f == cap else exists c :: c in cursors && cursors[c].next == f
    decreases |cursors|
  {
    if cursors == map[] then cap
    else
      var c :| c in cursors;
      var rest := cursors - {c};
      assert rest.Keys == cursors.Keys - {c};
      var f := Floor(rest, cap);
      assert forall d :: d in cursors ==> d == c || (d in rest && rest[d] == cursors[d]);
      if cursors[c].next < f then cursors[c].next else f
  }

  /** Retain what some consumer still has to see; a log with nothing retained starts a new generation. */
  ghost function Settle(entries: seq<Frame>, gen: nat, cursors: map<Id, Cursor>): Log
    requires forall c :: c in cursors ==> cursors[c].next <= |entries|
  {
    var f := Floor(cursors, |entries|);
    Log(entries, f, if f == |entries| then |entries| else gen, cursors)
  }

  function Put(l: Log, frame: Frame): Log {
    l.(entries := l.entries + [frame])
  }

  /** Nothing put so far is delivered to anybody any more. */
  function Reset(l: Log): (r: Log)
    ensures r.Valid()
  {
    var n := |l.entries|;
    Log(l.entries, n, n, map c | c in l.cursors :: Cursor(n, false))
  }

  function Join(l: Log, id: Id): Log {
    l.(cursors := l.cursors[id := Cursor(l.floor, false)])
  }

  ghost function Leave(l: Log, id: Id): Log
    requires l.Valid()
  {
    Settle(l.entries, l.gen, l.cursors - {id})
  }

  /** The consumer moves past the entry that it holds. */
  ghost function Advance(l: Log, id: Id): Log
    requires l.Valid() && id in l.cursors && l.cursors[id].holding
  {
    Settle(l.entries, l.gen, l.cursors[id := Cursor(l.cursors[id].next + 1, false)])
  }

  /** The consumer selects the next entry, if there is one. */
  function Select(l: Log, id: Id): Log
    requires id in l.cursors
  {
    var n := l.cursors[id].next;
    l.(cursors := l.cursors[id := Cursor(n, n < |l.entries|)])
  }

  ghost function Move(l: Log, id: Id): Log
    requires l.Valid() && id in l.cursors
  {
    if l.cursors[id].holding then Select(Advance(l, id), id) else Select(l, id)
  }

  /** What a consumer reads: the entry it holds, with its sequence number. */
  datatype Reading = Reading(frame: Frame, seqNo: int)

  function Get(l: Log, id: Id): Log
    requires id in l.cursors
  {
    if l.cursors[id].holding then l else Select(l, id)
  }

  function Read(l: Log, id: Id): Option<Reading>
    requires id in l.cursors
  {
    var n := l.cursors[id].next;
    if n < |l.entries| then Some(Reading(l.entries[n], l.Serial(n))) else None
  }

  // ---------------------------------------------------------------- runs

  datatype Event =
    | EPut(frame: Frame)
    | EReset
    | EJoin(id: Id)
    | EGet(id: Id)
    | EMove(id: Id)
    | ELeave(id: Id)

  datatype Output = Silent | Got(reading: Option<Reading>) | Moved(more: bool)

  /** Handles are used between the call that creates them and the call that frees them. */
  predicate Enabled(l: Log, e: Event) {
    match e
    case EPut(_) => true
    case EReset => true
    case EJoin(id) => id !in l.cursors
    case EGet(id) => id in l.cursors
    case EMove(id) => id in l.cursors
    case ELeave(id) => id in l.cursors
  }

  ghost function Step(l: Log, e: Event): Log
    requires l.Valid() && Enabled(l, e)
  {
    match e
    case EPut(f) => Put(l, f)
    case EReset => Reset(l)
    case EJoin(id) => Join(l, id)
    case EGet(id) => Get(l, id)
    case EMove(id) => Move(l, id)
    case ELeave(id) => Leave(l, id)
  }

  ghost function Answer(l: Log, e: Event): Output
    requires l.Valid() && Enabled(l, e)
  {
    match e
    case EGet(id) => Got(Read(l, id))
    case EMove(id) => StepKeepsValid(l, e); Moved(Move(l, id).cursors[id].holding)
    case _ => Silent
  }

  lemma StepKeepsValid(l: Log, e: Event)
    requires l.Valid() && Enabled(l, e)
    ensures Step(l, e).Valid()
    ensures Step(l, e).cursors.Keys == match e
                                       case EJoin(id) => l.cursors.Keys + {id}
                                       case ELeave(id) => l.cursors.Keys - {id}
                                       case _ => l.cursors.Keys
    ensures l.entries <= Step(l, e).entries && l.floor <= Step(l, e).floor
  {
    match e
    case EPut(f) =>
    case EReset =>
    case EJoin(id) => assert Step(l, e).cursors[id].next == l.floor;
    case EGet(id) => SelectKeepsValid(l, id);
    case EMove(id) =>
      if l.cursors[id].holding {
        AdvanceKeepsValid(l, id);
        SelectKeepsValid(Advance(l, id), id);
      } else {
        SelectKeepsValid(l, id);
      }
    case ELeave(id) => SettleKeepsValid(l, l.cursors - {id});
  }

  lemma SettleKeepsValid(l: Log, cursors: map<Id, Cursor>)
    requires l.Valid()
    requires forall c :: c in cursors ==> l.floor <= cursors[c].next <= |l.entries|
    requires forall c :: c in cursors && cursors[c].holding ==> cursors[c].next < |l.entries|
    ensures Settle(l.entries, l.gen, cursors).Valid()
    ensures l.floor <= Settle(l.entries, l.gen, cursors).floor
  {
  }

  /** A valid log with consumers retains exactly what they have still to see. */
  lemma ValidIsSettled(l: Log, gen: nat)
    requires l.Valid() && l.cursors != map[] && (l.floor < |l.entries| ==> l.gen == gen)
    ensures forall c :: c in l.cursors ==> l.cursors[c].next <= |l.entries|
    ensures l == Settle(l.entries, gen, l.cursors)
  {
  }

  /** Only this consumer has moved, past one entry. */
  predicate Passes(l: Log, r: Log, id: Id) {
    id in l.cursors && r.cursors == l.cursors[id := Cursor(l.cursors[id].next + 1, false)]
  }

  lemma ValidIsAdvance(l: Log, r: Log, id: Id)
    requires l.Valid() && r.Valid() && Passes(l, r, id) && l.cursors[id].holding
    requires r.entries == l.entries && (r.floor < |r.entries| ==> r.gen == l.gen)
    ensures r == Advance(l, id)
  {
    assert id in r.cursors;
    ValidIsSettled(r, l.gen);
  }

  lemma SelectKeepsValid(l: Log, id: Id)
    requires l.Valid() && id in l.cursors
    ensures Select(l, id).Valid() && Select(l, id).cursors.Keys == l.cursors.Keys
  {
    var c :| c in l.cursors && l.cursors[c].next == l.floor;
    assert Select(l, id).cursors[c].next == l.floor;
  }

  lemma AdvanceKeepsValid(l: Log, id: Id)
    requires l.Valid() && id in l.cursors && l.cursors[id].holding
    ensures Advance(l, id).Valid() && Advance(l, id).cursors.Keys == l.cursors.Keys
    ensures l.floor <= Advance(l, id).floor
  {
    SettleKeepsValid(l, l.cursors[id := Cursor(l.cursors[id].next + 1, false)]);
  }

  /** What one consumer does before it leaves makes no difference to the others. */
  lemma LeaveAfterMove(l: Log, id: Id)
    requires l.Valid() && id in l.cursors
    ensures Move(l, id).Valid() && id in Move(l, id).cursors
    ensures Leave(Move(l, id), id) == Leave(l, id)
    ensures !Move(l, id).cursors[id].holding ==> Move(l, id).cursors[id].next == |l.entries|
    ensures l.cursors[id].holding ==> Move(l, id).cursors[id].next == l.cursors[id].next + 1
    ensures Move(l, id).entries == l.entries
  {
    StepKeepsValid(l, EMove(id));
    var m := Move(l, id);
    assert m.cursors - {id} == l.cursors - {id};
  }

  lemma GetKeepsPlace(l: Log, id: Id)
    requires l.Valid() && id in l.cursors
    ensures var g := Get(l, id);
            && g.Valid() && g == l.(cursors := g.cursors)
            && g.cursors[id] == Cursor(l.cursors[id].next, Read(l, id).Some?)
  {
    SelectKeepsValid(l, id);
  }

  // ---------------------------------------------------------------- theorems about runs

  /** Every event of the run comes when it may. */
  ghost predicate Runs(l: Log, es: seq<Event>)
    requires l.Valid()
    decreases |es|, 0
  {
    es == [] ||
    (var k := |es| - 1; Runs(l, es[..k]) && Enabled(Run(l, es[..k]), es[k]))
  }

  ghost function Run(l: Log, es: seq<Event>): (r: Log)
    requires l.Valid() && Runs(l, es)
    ensures r.Valid()
    decreases |es|, 1
  {
    if es == [] then l
    else
      var k := |es| - 1;
      StepKeepsValid(Run(l, es[..k]), es[k]);
      Step(Run(l, es[..k]), es[k])
  }

  ghost function Answers(l: Log, es: seq<Event>): (outs: seq<Output>)
    requires l.Valid() && Runs(l, es)
    ensures |outs| == |es|
  {
    if es == [] then []
    else var k := |es| - 1; Answers(l, es[..k]) + [Answer(Run(l, es[..k]), es[k])]
  }

  lemma RunOneMore(l: Log, es: seq<Event>, e: Event)
    requires l.Valid() && Runs(l, es) && Enabled(Run(l, es), e)
    ensures Runs(l, es + [e]) && Run(l, es + [e]) == Step(Run(l, es), e)
    ensures Answers(l, es + [e]) == Answers(l, es) + [Answer(Run(l, es), e)]
  {
    assert (es + [e])[..|es|] == es;
  }

  /** The log entries that consumer `c` moves past during a run, in order. */
  ghost function PassedBy(l: Log, es: seq<Event>, c: Id): seq<nat>
    requires l.Valid() && Runs(l, es)
  {
    if es == [] then []
    else
      var k := |es| - 1;
      var before := Run(l, es[..k]);
      PassedBy(l, es[..k], c) +
      (if es[k] == EMove(c) && before.cursors[c].holding then [before.cursors[c].next] else [])
  }

  predicate ActsFor(e: Event, c: Id) {
    e == EGet(c) || e == EMove(c) || e == ELeave(c) || e == EJoin(c)
  }

  /** What a step does to the cursor of a consumer that does not leave in it. */
  lemma StepMovesCursor(l: Log, e: Event, c: Id)
    requires l.Valid() && Enabled(l, e) && c in l.cursors && e != ELeave(c)
    ensures Step(l, e).Valid() && c in Step(l, e).cursors
    ensures var n := l.cursors[c].next;
            var m := Step(l, e).cursors[c].next;
            if e == EReset then m == |l.entries|
            else if e == EMove(c) && l.cursors[c].holding then m == n + 1
            else m == n
    ensures !ActsFor(e, c) && e != EReset ==> Step(l, e).cursors[c] == l.cursors[c]
    ensures l.entries <= Step(l, e).entries
  {
    StepKeepsValid(l, e);
  }

  /** Strictly increasing numbers from lo up to, not including, hi. */
  predicate Ascending(ps: seq<nat>, lo: nat, hi: nat) {
    && lo <= hi
    && (forall i :: 0 <= i < |ps| ==> lo <= ps[i] < hi)
    && (forall i, j :: 0 <= i < j < |ps| ==> ps[i] < ps[j])
  }

  lemma AscendingGrows(ps: seq<nat>, lo: nat, n: nat, hi: nat)
    requires Ascending(ps, lo, n) && n <= hi
    ensures Ascending(ps, lo, hi) && Ascending(ps + [], lo, hi)
    ensures n < hi ==> Ascending(ps + [n], lo, hi)
  {
    assert ps + [] == ps;
  }

  /** Whatever the interleaving, and whatever resets happen, a consumer moves past buffers in
      strictly increasing put order, so it never sees one twice. */
  lemma {:induction false} DeliveryInOrder(l: Log, es: seq<Event>, c: Id)
    requires l.Valid() && Runs(l, es) && c in l.cursors && ELeave(c) !in es
    ensures c in Run(l, es).cursors
    ensures Ascending(PassedBy(l, es, c), l.cursors[c].next, Run(l, es).cursors[c].next)
    decreases |es|
  {
    if es != [] {
      var k := |es| - 1;
      DeliveryInOrder(l, es[..k], c);
      var before := Run(l, es[..k]);
      StepMovesCursor(before, es[k], c);
      AscendingGrows(PassedBy(l, es[..k], c), l.cursors[c].next, before.cursors[c].next, Run(l, es).cursors[c].next);
    }
  }

  /** The consumer moved from where it was in l to where it is in r past the entries ps, which are
      all that lie between. */
  predicate Consecutive(l: Log, r: Log, c: Id, ps: seq<nat>) {
    && c in l.cursors && c in r.cursors && l.entries <= r.entries
    && r.cursors[c].next == l.cursors[c].next + |ps|
    && (forall i :: 0 <= i < |ps| ==> ps[i] == l.cursors[c].next + i)
  }

  /** Without a reset nothing is skipped either: the buffers passed are consecutive entries of
      the log, across any number of generation changes. */
  lemma {:induction false} DeliveryWithoutGaps(l: Log, es: seq<Event>, c: Id)
    requires l.Valid() && Runs(l, es) && c in l.cursors && ELeave(c) !in es && EReset !in es
    ensures Consecutive(l, Run(l, es), c, PassedBy(l, es, c))
    decreases |es|
  {
    if es != [] {
      var k := |es| - 1;
      DeliveryWithoutGaps(l, es[..k], c);
      StepMovesCursor(Run(l, es[..k]), es[k], c);
    }
  }

  /** A read gives the n-th entry with its number, if it has been put. */
  predicate ReadsEntry(r: Log, c: Id, n: nat) {
    && c in r.cursors
    && Read(r, c) == if n < |r.entries| then Some(Reading(r.entries[n], r.Serial(n))) else None
  }

  /** Reading at any time gives the entry after those passed so far, if it has been put. */
  lemma {:induction false} ReadingIsNext(l: Log, es: seq<Event>, c: Id)
    requires l.Valid() && Runs(l, es) && c in l.cursors && ELeave(c) !in es && EReset !in es
    ensures ReadsEntry(Run(l, es), c, l.cursors[c].next + |PassedBy(l, es, c)|)
  {
    DeliveryWithoutGaps(l, es, c);
    ReadAfter(l, Run(l, es), c, PassedBy(l, es, c));
  }

  lemma ReadAfter(l: Log, r: Log, c: Id, ps: seq<nat>)
    requires Consecutive(l, r, c, ps)
    ensures ReadsEntry(r, c, l.cursors[c].next + |ps|)
  {
  }

  /** Nothing is retained. */
  predicate Drained(l: Log) {
    l.floor == |l.entries|
  }

  /** Nothing was retained at some moment of the run. */
  ghost predicate RanDry(l: Log, es: seq<Event>)
    requires l.Valid() && Runs(l, es)
  {
    Drained(Run(l, es)) || (es != [] && RanDry(l, es[..|es| - 1]))
  }

  /** The next entry of the consumer is the first of the current generation. */
  predicate AtStart(l: Log, c: Id) {
    c in l.cursors && l.cursors[c].next == l.gen
  }

  /** While a consumer moves past nothing, it gets to the start of a generation only when nothing
      is retained, and it never loses that place. */
  lemma StartStays(l: Log, e: Event, c: Id)
    requires l.Valid() && Enabled(l, e) && c in l.cursors && e != ELeave(c)
    requires e == EMove(c) ==> !l.cursors[c].holding
    ensures AtStart(Step(l, e), c) <==> AtStart(l, c) || Drained(Step(l, e))
    ensures c in Step(l, e).cursors && l.cursors[c].next <= Step(l, e).cursors[c].next
  {
    StepKeepsValid(l, e);
    StepMovesCursor(l, e, c);
  }

  /** The sequence number of the next buffer that a consumer reads is 1 if and only if the consumer
      was at the start of a generation, or nothing was retained at some moment before the read. */
  lemma {:induction false} NumberedOneIff(l: Log, es: seq<Event>, c: Id)
    requires l.Valid() && Runs(l, es) && c in l.cursors && ELeave(c) !in es && PassedBy(l, es, c) == []
    ensures c in Run(l, es).cursors && (AtStart(Run(l, es), c) <==> AtStart(l, c) || RanDry(l, es))
    ensures Read(Run(l, es), c).Some? ==>
              (Read(Run(l, es), c).value.seqNo == 1 <==> AtStart(l, c) || RanDry(l, es))
    decreases |es|
  {
    if es != [] {
      var k := |es| - 1;
      NumberedOneIff(l, es[..k], c);
      StartStays(Run(l, es[..k]), es[k], c);
    }
  }

  /** A consumer that has something to read keeps it retained, unless there is a reset; the number
      that it will read is then known beforehand. */
  lemma {:induction false} NumberKnown(l: Log, es: seq<Event>, c: Id)
    requires l.Valid() && Runs(l, es) && c in l.cursors && ELeave(c) !in es && PassedBy(l, es, c) == []
    requires EReset !in es && Read(l, c).Some?
    ensures c in Run(l, es).cursors && Read(Run(l, es), c) == Read(l, c)
    ensures !RanDry(l, es)
    decreases |es|
  {
    if es == [] {
      assert Run(l, es) == l && l.floor <= l.cursors[c].next;
    } else {
      var k := |es| - 1;
      NumberKnown(l, es[..k], c);
      ReadStays(Run(l, es[..k]), es[k], c);
    }
  }

  lemma ReadStays(l: Log, e: Event, c: Id)
    requires l.Valid() && Enabled(l, e) && c in l.cursors && e != ELeave(c) && e != EReset
    requires Read(l, c).Some? && (e == EMove(c) ==> !l.cursors[c].holding)
    ensures c in Step(l, e).cursors && Read(Step(l, e), c) == Read(l, c) && !Drained(Step(l, e))
  {
    StepKeepsValid(l, e);
    StepMovesCursor(l, e, c);
    assert Step(l, e).cursors[c].next == l.cursors[c].next;
  }

  /** After a reset the first buffer that a consumer reads has sequence number 1, whatever the
      producer and the others do and however often the consumer has asked in vain. */
  lemma {:induction false} FirstAfterReset(l: Log, es: seq<Event>, c: Id)
    requires l.Valid() && c in l.cursors && Runs(Reset(l), es)
    requires ELeave(c) !in es && PassedBy(Reset(l), es, c) == []
    ensures c in Run(Reset(l), es).cursors && AtStart(Run(Reset(l), es), c)
    ensures var r := Run(Reset(l), es);
            Read(r, c).Some? ==> Read(r, c).value == Reading(r.entries[r.gen], 1)
  {
    NumberedOneIff(Reset(l), es, c);
  }

  /** Without a reset the next buffer may well have another number: after this run from the
      creation of the queue it has the number 2. */
  lemma {:induction false} NumberedTwo(f: Frame, g: Frame, c: Id)
    ensures var es := [EJoin(c), EPut(f), EPut(g), EGet(c), EMove(c)];
            && Runs(EmptyLog, es) && c in Run(EmptyLog, es).cursors
            && !AtStart(Run(EmptyLog, es), c) && Read(Run(EmptyLog, es), c) == Some(Reading(g, 2))
  {
    var one, two := [EJoin(c)], [EJoin(c), EPut(f)];
    var three, four := [EJoin(c), EPut(f), EPut(g)], [EJoin(c), EPut(f), EPut(g), EGet(c)];
    var at := map[c := Cursor(0, false)];
    OnLog([], EmptyLog, EJoin(c), one, Log([], 0, 0, at));
    OnLog(one, Log([], 0, 0, at), EPut(f), two, Log([f], 0, 0, at));
    OnLog(two, Log([f], 0, 0, at), EPut(g), three, Log([f, g], 0, 0, at));
    OnLog(three, Log([f, g], 0, 0, at), EGet(c), four, Log([f, g], 0, 0, map[c := Cursor(0, true)]));
    AfterOneMove(f, g, c);
    OnLog(four, Log([f, g], 0, 0, map[c := Cursor(0, true)]), EMove(c),
          [EJoin(c), EPut(f), EPut(g), EGet(c), EMove(c)], Log([f, g], 1, 0, map[c := Cursor(1, true)]));
  }

  /** One more event of a run from the creation of the queue. */
  lemma {:induction false} OnLog(es: seq<Event>, l: Log, e: Event, more: seq<Event>, r: Log)
    requires Runs(EmptyLog, es) && Run(EmptyLog, es) == l && l.Valid() && Enabled(l, e) && Step(l, e) == r && more == es + [e]
    ensures Runs(EmptyLog, more) && Run(EmptyLog, more) == r && r.Valid()
  {
    RunOneMore(EmptyLog, es, e);
    StepKeepsValid(l, e);
  }

  lemma AfterOneMove(f: Frame, g: Frame, c: Id)
    ensures var l := Log([f, g], 0, 0, map[c := Cursor(0, true)]);
            && l.Valid() && Move(l, c) == Log([f, g], 1, 0, map[c := Cursor(1, true)])
  {
    var l := Log([f, g], 0, 0, map[c := Cursor(0, true)]);
    assert c in l.cursors && l.cursors[c].next == l.floor;
    var moved := Advance(l, c);
    assert moved.cursors == map[c := Cursor(1, false)];
    assert c in moved.cursors && moved.cursors[c].next == 1;
  }

  // ---------------------------------------------------------------- what each event does

  /** A cursor of the log, if the consumer is registered. */
  function CursorOf(l: Log, c: Id): Option<Cursor> {
    if c in l.cursors then Some(l.cursors[c]) else None
  }

  /** Nobody's event touches the cursor of anybody else, except a reset. */
  lemma OthersStay(l: Log, e: Event, c: Id)
    requires l.Valid() && Enabled(l, e) && !ActsFor(e, c) && e != EReset
    ensures CursorOf(Step(l, e), c) == CursorOf(l, c)
  {
  }

  /** A put adds one entry at the end, and nothing else ever adds or changes one. */
  lemma EntriesAdded(l: Log, e: Event)
    requires l.Valid() && Enabled(l, e)
    ensures Step(l, e).entries == if e.EPut? then l.entries + [e.frame] else l.entries
  {
  }

  /** Only a move, a leave or a reset can discard entries or start a new numbering.  A move or a leave
      retains what the remaining consumers have still to pass, and the numbering starts anew exactly
      when nothing is retained. */
  lemma DiscardedOnlyThen(l: Log, e: Event)
    requires l.Valid() && Enabled(l, e)
    ensures var r := Step(l, e);
            match e
            case EReset => r.floor == r.gen == |l.entries|
            case EPut(_) => r.floor == l.floor && r.gen == l.gen
            case EJoin(_) => r.floor == l.floor && r.gen == l.gen
            case EGet(_) => r.floor == l.floor && r.gen == l.gen
            case _ =>
              && (r.cursors == map[] ==> r.floor == |l.entries|)
              && (r.cursors != map[] ==> exists c :: c in r.cursors && r.cursors[c].next == r.floor)
              && (forall c :: c in r.cursors ==> r.floor <= r.cursors[c].next)
              && r.gen == if r.floor == |l.entries| then |l.entries| else l.gen
  {
    StepKeepsValid(l, e);
  }

  /** What an event does to the cursor of the consumer that it is made for: it starts at the oldest
      retained entry; a get selects the next entry if there is one; a move passes the selected entry,
      if any, and selects the next one; a reset takes everybody to the end. */
  lemma OwnCursor(l: Log, e: Event, c: Id)
    requires l.Valid() && Enabled(l, e)
    ensures var n := if c in l.cursors then l.cursors[c].next else 0;
            var held := c in l.cursors && l.cursors[c].holding;
            var m := if held then n + 1 else n;
            && (e == EJoin(c) ==> CursorOf(Step(l, e), c) == Some(Cursor(l.floor, false)))
            && (e == EGet(c) ==> CursorOf(Step(l, e), c) == Some(Cursor(n, n < |l.entries|)))
            && (e == EMove(c) ==> CursorOf(Step(l, e), c) == Some(Cursor(m, m < |l.entries|)))
            && (e == ELeave(c) ==> CursorOf(Step(l, e), c) == None)
            && (e == EReset && c in l.cursors ==> CursorOf(Step(l, e), c) == Some(Cursor(|l.entries|, false)))
  {
    StepKeepsValid(l, e);
  }

  /** What is answered: a get gives the next entry with its distance from the start of the numbering,
      counted from 1; a move says whether there is an entry after those passed. */
  lemma AnswersGiven(l: Log, e: Event, c: Id)
    requires l.Valid() && Enabled(l, e) && c in l.cursors
    ensures var n := l.cursors[c].next;
            var m := if l.cursors[c].holding then n + 1 else n;
            && (e == EGet(c) ==>
                  Answer(l, e) == Got(if n < |l.entries| then Some(Reading(l.entries[n], n - l.gen + 1)) else None))
            && (e == EMove(c) ==> Answer(l, e) == Moved(m < |l.entries|))
  {
    StepKeepsValid(l, e);
    OwnCursor(l, e, c);
  }

  /** A consumer that joins reads the oldest retained entry first, if there is one, and nobody else
      notices. */
  lemma JoinReadsOldest(l: Log, c: Id)
    requires l.Valid() && c !in l.cursors
    ensures var r := Step(l, EJoin(c));
            && r.entries == l.entries && r.floor == l.floor && r.gen == l.gen
            && r.cursors.Keys == l.cursors.Keys + {c}
            && (forall d :: d in l.cursors ==> r.cursors[d] == l.cursors[d])
            && Read(r, c) == if l.floor < |l.entries| then Some(Reading(l.entries[l.floor], l.floor - l.gen + 1)) else None
  {
  }

  function Puts(fs: seq<Frame>): (es: seq<Event>)
    ensures |es| == |fs| && forall i :: 0 <= i < |fs| ==> es[i] == EPut(fs[i])
  {
    seq(|fs|, i requires 0 <= i < |fs| => EPut(fs[i]))
  }

  lemma {:induction false} OnlyPuts(fs: seq<Frame>)
    ensures Runs(EmptyLog, Puts(fs))
    ensures var r := Run(EmptyLog, Puts(fs)); r.entries == fs && r.floor == 0 && r.gen == 0 && r.cursors == map[]
    decreases |fs|
  {
    if fs != [] {
      var k := |fs| - 1;
      OnlyPuts(fs[..k]);
      assert Puts(fs) == Puts(fs[..k]) + [EPut(fs[k])];
      RunOneMore(EmptyLog, Puts(fs[..k]), EPut(fs[k]));
      assert fs == fs[..k] + [fs[k]];
    }
  }

  /** The first consumer of a queue that was fed before it came gets everything from the first buffer
      on, which has the number 1. */
  lemma {:induction false} FirstJoinLosesNothing(fs: seq<Frame>, c: Id)
    ensures var es := Puts(fs) + [EJoin(c)];
            && Runs(EmptyLog, es) && c in Run(EmptyLog, es).cursors
            && Read(Run(EmptyLog, es), c) == if fs != [] then Some(Reading(fs[0], 1)) else None
  {
    OnlyPuts(fs);
    RunOneMore(EmptyLog, Puts(fs), EJoin(c));
    JoinReadsOldest(Run(EmptyLog, Puts(fs)), c);
  }
}
