/** The coordinator as one state machine for all the tasks that call it. A flush is not one step: it takes
    a snapshot of the ready windows, and then sends and discards them one by one, with awaits in between
    at which other tasks store events and may flush as well; the sink may raise
    (sentinel/services/aggregation.py, sentinel/app/storage.py). */
module Flows {
  import opened Events
  import opened Sorting
  import opened Windows
  import opened Partition
  import opened Batching

  /** A task stores an event; takes the snapshot of a flush; finishes the next window of its flush, that
      is, the last of its notifications went out and the record was discarded; or leaves its flush
      because the sink raised. */
  datatype FlowStep = Handle(e: Event) | Begin(task: nat, block: int) | Finish(task: nat) | Raise(task: nat)

  /** The store, the windows whose notifications all went out, and what each flush in progress has still
      to send, as its snapshot has it. */
  datatype Flow = Flow(store: seq<Window>, sent: seq<Window>, open: map<nat, seq<Window>>)
  {
    function Queue(task: nat): seq<Window> {
      if task in open then open[task] else []
    }
  }

  function Do(registry: seq<Aggregator>, f: Flow, s: FlowStep): Flow {
    match s
    case Handle(e) => if Routed(registry, e) then f.(store := OnEvent(registry, f.store, e)) else f
    case Begin(t, block) => f.(open := f.open[t := Ready(f.store, block)])
    case Finish(t) =>
      var q := f.Queue(t);
      if q == [] then f
      else Flow(Discard(f.store, q[0]), f.sent + KnownOnly(registry, [q[0]]), f.open[t := q[1..]])
    case Raise(t) => f.(open := f.open[t := []])
  }

  /** The state after the first n steps. */
  function At(registry: seq<Aggregator>, start: Flow, steps: seq<FlowStep>, n: nat): Flow
    requires n <= |steps|
  {
    if n == 0 then start else Do(registry, At(registry, start, steps, n - 1), steps[n - 1])
  }

  lemma {:induction false} AtPrefix(registry: seq<Aggregator>, start: Flow, steps: seq<FlowStep>, more: seq<FlowStep>,
        n: nat)
    requires n <= |steps|
    ensures At(registry, start, steps + more, n) == At(registry, start, steps, n)
  {
    if n > 0 { AtPrefix(registry, start, steps, more, n - 1); }
  }

  lemma {:induction false} AtNext(registry: seq<Aggregator>, start: Flow, steps: seq<FlowStep>, s: FlowStep)
    ensures At(registry, start, steps + [s], |steps| + 1) == Do(registry, At(registry, start, steps, |steps|), s)
  {
    AtPrefix(registry, start, steps, [s], |steps|);
  }

  /** The same history, told step by step as a program makes it. */
  datatype Trail = Nothing | Then(before: Trail, step: FlowStep)

  function StepsOf(trail: Trail): seq<FlowStep> {
    match trail
    case Nothing => []
    case Then(before, step) => StepsOf(before) + [step]
  }

  function Reached(registry: seq<Aggregator>, start: Flow, trail: Trail): Flow {
    match trail
    case Nothing => start
    case Then(before, step) => Do(registry, Reached(registry, start, before), step)
  }

  /** A task stored or passed on the event. */
  predicate InTrail(trail: Trail, e: Event) {
    trail.Then? && (trail.step == Handle(e) || InTrail(trail.before, e))
  }

  lemma {:induction false} InTrailAt(trail: Trail, e: Event) returns (i: nat)
    requires InTrail(trail, e)
    ensures i < |StepsOf(trail)| && StepsOf(trail)[i] == Handle(e)
  {
    if trail.step == Handle(e) {
      i := |StepsOf(trail.before)|;
    } else {
      i := InTrailAt(trail.before, e);
    }
  }

  lemma {:induction false} ReachedIsAt(registry: seq<Aggregator>, start: Flow, trail: Trail)
    ensures Reached(registry, start, trail) == At(registry, start, StepsOf(trail), |StepsOf(trail)|)
  {
    if trail.Then? {
      ReachedIsAt(registry, start, trail.before);
      AtNext(registry, start, StepsOf(trail.before), trail.step);
    }
  }

  // ---------------------------------------------------------------- which record holds a log

  type Id = (string, string, int)

  type Slot = (string, Key, int, int)

  predicate Holds(w: Window, id: Id) {
    exists i :: 0 <= i < |w.events| && w.events[i].Identity() == id
  }

  predicate RecordHolds(store: seq<Window>, slot: Slot, id: Id) {
    exists i :: 0 <= i < |store| && store[i].Slot() == slot && Holds(store[i], id)
  }

  predicate HasId(ws: seq<Window>, id: Id) {
    exists i :: 0 <= i < |ws| && Holds(ws[i], id)
  }

  /** The storage key of the record that takes the event. */
  function SlotFor(registry: seq<Aggregator>, store: seq<Window>, e: Event): Slot
    requires Routed(registry, e)
  {
    if store == [] then RouteOf(registry, e.name).value.Open(e).Slot()
    else if Fits(registry, store[0], e) then store[0].Slot()
    else SlotFor(registry, store[1..], e)
  }

  lemma {:induction false} WithEventHolds(w: Window, e: Event, id: Id)
    ensures Holds(w.WithEvent(e), id) <==> Holds(w, id) || e.Identity() == id
  {
    var r := w.WithEvent(e);
    if i :| 0 <= i < |w.events| && w.events[i].Identity() == id { assert r.events[i] == w.events[i]; }
    if e.Identity() == id && !w.Has(e) { assert r.events[|w.events|] == e; }
  }

  lemma {:induction false} RecordCons(w: Window, rest: seq<Window>, slot: Slot, id: Id)
    ensures RecordHolds([w] + rest, slot, id) <==> (w.Slot() == slot && Holds(w, id)) || RecordHolds(rest, slot, id)
  {
    var all := [w] + rest;
    if w.Slot() == slot && Holds(w, id) { assert all[0] == w; }
    if i :| 0 <= i < |rest| && rest[i].Slot() == slot && Holds(rest[i], id) { assert all[i + 1] == rest[i]; }
  }

  /** Storing an event puts it into its record and changes no other. */
  lemma {:induction false} AddToRecord(registry: seq<Aggregator>, store: seq<Window>, e: Event, slot: Slot, id: Id)
    requires Routed(registry, e)
    ensures RecordHolds(AddTo(registry, store, e), slot, id) <==>
      RecordHolds(store, slot, id) || (id == e.Identity() && slot == SlotFor(registry, store, e))
  {
    if store == [] {
      var w := RouteOf(registry, e.name).value.Open(e);
      WithEventHolds(w, e, id);
      RecordCons(w.WithEvent(e), [], slot, id);
      assert [w.WithEvent(e)] + [] == [w.WithEvent(e)];
    } else {
      assert store == [store[0]] + store[1..];
      RecordCons(store[0], store[1..], slot, id);
      if Fits(registry, store[0], e) {
        WithEventHolds(store[0], e, id);
        RecordCons(store[0].WithEvent(e), store[1..], slot, id);
      } else {
        AddToRecord(registry, store[1..], e, slot, id);
        RecordCons(store[0], AddTo(registry, store[1..], e), slot, id);
      }
    }
  }

  /** Discarding a window takes the record of its storage key, whatever that holds by now. */
  lemma {:induction false} DiscardRecord(store: seq<Window>, w: Window, slot: Slot, id: Id)
    ensures RecordHolds(Discard(store, w), slot, id) <==> RecordHolds(store, slot, id) && slot != w.Slot()
  {
    if store == [] {
    } else {
      assert store == [store[0]] + store[1..];
      RecordCons(store[0], store[1..], slot, id);
      DiscardRecord(store[1..], w, slot, id);
      RecordCons(store[0], Discard(store[1..], w), slot, id);
    }
  }

  lemma {:induction false} InSomeRecord(ws: seq<Window>, id: Id)
    ensures HasId(ws, id) <==> exists slot :: RecordHolds(ws, slot, id)
  {
    if i :| 0 <= i < |ws| && Holds(ws[i], id) { assert RecordHolds(ws, ws[i].Slot(), id); }
  }

  lemma {:induction false} HasIdConcat(a: seq<Window>, b: seq<Window>, id: Id)
    ensures HasId(a + b, id) <==> HasId(a, id) || HasId(b, id)
  {
    if i :| 0 <= i < |a| && Holds(a[i], id) { assert (a + b)[i] == a[i]; }
    if i :| 0 <= i < |b| && Holds(b[i], id) { assert (a + b)[|a| + i] == b[i]; }
  }

  lemma {:induction false} HasIdMember(ws: seq<Window>, w: Window, id: Id)
    requires w in ws && Holds(w, id)
    ensures HasId(ws, id)
  {
    var i :| 0 <= i < |ws| && ws[i] == w;
  }

  // ---------------------------------------------------------------- what every run keeps

  ghost predicate AllKnown(registry: seq<Aggregator>, ws: seq<Window>) {
    forall w :: w in ws ==> Known(registry, w)
  }

  /** The store is well-formed, and every window there or in a flush is of a registered group. */
  ghost predicate Sound(registry: seq<Aggregator>, f: Flow) {
    && Settled(registry, f.store) && AllKnown(registry, f.store)
    && forall t :: t in f.open ==> AllKnown(registry, f.open[t])
  }

  lemma {:induction false} AddToKnown(registry: seq<Aggregator>, store: seq<Window>, e: Event)
    requires Routed(registry, e) && AllKnown(registry, store)
    ensures AllKnown(registry, AddTo(registry, store, e))
  {
    if store == [] {
      var a := RouteOf(registry, e.name).value;
      var i :| 0 <= i < |registry| && registry[i] == a;
      assert registry[i].group == a.Open(e).WithEvent(e).group;
    } else {
      assert store[0] in store;
      assert forall w :: w in store[1..] ==> w in store;
      if Fits(registry, store[0], e) {
        assert store[0].WithEvent(e).group == store[0].group;
      } else {
        AddToKnown(registry, store[1..], e);
      }
    }
  }

  lemma {:induction false} DiscardMembers(store: seq<Window>, w: Window)
    ensures forall v :: v in Discard(store, w) <==> v in store && v.Slot() != w.Slot()
  {
    if store != [] {
      assert store == [store[0]] + store[1..];
      DiscardMembers(store[1..], w);
    }
  }

  lemma {:induction false} DiscardSettled(registry: seq<Aggregator>, store: seq<Window>, w: Window)
    requires Settled(registry, store)
    ensures EventsIn(Discard(store, w)) <= EventsIn(store)
    ensures Settled(registry, Discard(store, w))
  {
    if store == [] {
    } else {
      DiscardSettled(registry, store[1..], w);
      if store[0].Slot() != w.Slot() {
        assert ([store[0]] + Discard(store[1..], w))[1..] == Discard(store[1..], w);
      }
    }
  }

  lemma {:induction false} ReadyMembers(store: seq<Window>, block: int)
    ensures forall w :: w in Ready(store, block) <==> w in store && w.end <= block
  {
    SameElements(Ready(store, block), EndingBy(store, block));
  }

  lemma {:induction false} DoSound(registry: seq<Aggregator>, f: Flow, s: FlowStep)
    requires ValidRegistry(registry) && Sound(registry, f)
    ensures Sound(registry, Do(registry, f, s))
  {
    match s {
      case Handle(e) =>
        if Routed(registry, e) {
          OnEventIsAddTo(registry, f.store, e);
          AddToSettled(registry, f.store, e);
          AddToKnown(registry, f.store, e);
        }
      case Begin(t, block) =>
        ReadyMembers(f.store, block);
      case Finish(t) =>
        if f.Queue(t) != [] {
          DiscardSettled(registry, f.store, f.Queue(t)[0]);
          DiscardMembers(f.store, f.Queue(t)[0]);
        }
      case Raise(_) =>
    }
  }

  /** The store is well-formed after any steps of any tasks, whatever came before. */
  lemma {:induction false} AlwaysSound(registry: seq<Aggregator>, start: Flow, steps: seq<FlowStep>, n: nat)
    requires ValidRegistry(registry) && Sound(registry, start) && n <= |steps|
    ensures Sound(registry, At(registry, start, steps, n))
  {
    if n > 0 {
      AlwaysSound(registry, start, steps, n - 1);
      DoSound(registry, At(registry, start, steps, n - 1), steps[n - 1]);
    }
  }

  lemma {:induction false} SameSlotSameWindow(registry: seq<Aggregator>, store: seq<Window>, v: Window, w: Window)
    requires Settled(registry, store) && v in store && w in store && v.Slot() == w.Slot()
    ensures v == w
  {
    var i :| 0 <= i < |store| && store[i] == v;
    var j :| 0 <= j < |store| && store[j] == w;
    SlotsUnique(registry, store, i, j);
  }

  /** A record of a well-formed store is what its storage key finds. */
  lemma {:induction false} RecordIs(registry: seq<Aggregator>, store: seq<Window>, w: Window, id: Id)
    requires Settled(registry, store) && w in store
    ensures RecordHolds(store, w.Slot(), id) <==> Holds(w, id)
  {
    var i :| 0 <= i < |store| && store[i] == w;
    if RecordHolds(store, w.Slot(), id) {
      var j :| 0 <= j < |store| && store[j].Slot() == w.Slot() && Holds(store[j], id);
      SameSlotSameWindow(registry, store, store[j], w);
    }
  }
}
