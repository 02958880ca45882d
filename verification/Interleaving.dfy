/** Two kinds of interleaved flushes: one in which the events that come meanwhile lie above its block, which
    is as good as an atomic flush followed by these events; and one in which an event comes late and is lost
    (sentinel/services/aggregation.py). */
module Interleavings {
  import opened Events
  import opened Sorting
  import opened Windows
  import opened Partition
  import opened Batching
  import opened Flows
  import opened Conservation

  // ---------------------------------------------------------------- removing windows

  lemma {:induction false} SlotInSnoc(v: Window, ws: seq<Window>, w: Window)
    ensures SlotIn(v, ws + [w]) <==> SlotIn(v, ws) || v.Slot() == w.Slot()
  {
    if SlotIn(v, ws) {
      var i :| 0 <= i < |ws| && ws[i].Slot() == v.Slot();
      assert (ws + [w])[i].Slot() == v.Slot();
    }
    assert (ws + [w])[|ws|] == w;
  }

  /** Discarding one window after others is discarding them all. */
  lemma {:induction false} DiscardWithout(store: seq<Window>, ws: seq<Window>, w: Window)
    ensures Discard(Without(store, ws), w) == Without(store, ws + [w])
  {
    if store == [] {
    } else {
      DiscardWithout(store[1..], ws, w);
      SlotInSnoc(store[0], ws, w);
    }
  }

  lemma {:induction false} WithoutNone(store: seq<Window>)
    ensures Without(store, []) == store
  {
    if store != [] { WithoutNone(store[1..]); }
  }

  lemma {:induction false} WithoutIsCut(store: seq<Window>, ws: seq<Window>, block: int)
    requires forall i :: 0 <= i < |store| ==> (SlotIn(store[i], ws) <==> store[i].end <= block)
    ensures Without(store, ws) == EndingAfter(store, block)
  {
    if store == [] {
    } else {
      assert SlotIn(store[0], ws) <==> store[0].end <= block;
      WithoutIsCut(store[1..], ws, block);
    }
  }

  /** What is left once everything ready has been flushed is the cut at the block. */
  lemma {:induction false} ReadyIsCut(store: seq<Window>, block: int)
    ensures Without(store, Ready(store, block)) == EndingAfter(store, block)
  {
    var ready := Ready(store, block);
    ReadyMembers(store, block);
    forall k | 0 <= k < |store| ensures SlotIn(store[k], ready) <==> store[k].end <= block {
      if SlotIn(store[k], ready) {
        var i :| 0 <= i < |ready| && ready[i].Slot() == store[k].Slot();
        assert ready[i] in ready;
      }
      if store[k].end <= block {
        assert store[k] in ready;
        var i :| 0 <= i < |ready| && ready[i] == store[k];
        assert ready[i].Slot() == store[k].Slot();
      }
    }
    WithoutIsCut(store, ready, block);
  }

  /** An event above the end of some windows is stored the same before and after they go. */
  lemma {:induction false} WithoutAddTo(registry: seq<Aggregator>, store: seq<Window>, ws: seq<Window>, e: Event)
    requires ValidRegistry(registry) && Routed(registry, e) && forall w :: w in ws ==> w.end < e.block
    ensures Without(AddTo(registry, store, e), ws) == AddTo(registry, Without(store, ws), e)
  {
    if store == [] {
      var w := RouteOf(registry, e.name).value.Open(e).WithEvent(e);
      NotAmong(w, ws, e.block);
    } else if Fits(registry, store[0], e) {
      NotAmong(store[0].WithEvent(e), ws, e.block);
      NotAmong(store[0], ws, e.block);
    } else {
      WithoutAddTo(registry, store[1..], ws, e);
    }
  }

  lemma {:induction false} NotAmong(w: Window, ws: seq<Window>, block: int)
    requires w.end >= block && forall v :: v in ws ==> v.end < block
    ensures !SlotIn(w, ws)
  {
    assert forall i :: 0 <= i < |ws| ==> ws[i] in ws;
  }

  // ---------------------------------------------------------------- events ahead of the flush

  /** An event above every window that the flushes in progress have still to send does not intrude. */
  lemma {:induction false} AheadDoesNotIntrude(registry: seq<Aggregator>, f: Flow, e: Event)
    requires ValidRegistry(registry)
    requires forall t, i :: t in f.open && 0 <= i < |f.open[t]| ==> f.open[t][i].end < e.block
    ensures !Intrudes(registry, f, Handle(e))
  {
    if Routed(registry, e) { SlotEnds(registry, f.store, e); }
  }

  lemma {:induction false} SlotEnds(registry: seq<Aggregator>, store: seq<Window>, e: Event)
    requires ValidRegistry(registry) && Routed(registry, e)
    ensures SlotFor(registry, store, e).3 >= e.block
  {
    if store != [] { SlotEnds(registry, store[1..], e); }
  }

  /** Since `base` there was the beginning of one flush, then only its own steps and events above its block. */
  ghost predicate Ahead(base: Trail, trail: Trail, task: nat, block: int) {
    trail.Then? &&
    (trail == Then(base, Begin(task, block))
     || (Aside(task, block, trail.step) && Ahead(base, trail.before, task, block)))
  }

  ghost predicate Aside(task: nat, block: int, s: FlowStep) {
    match s
    case Handle(e) => e.block > block
    case Finish(t) => t == task
    case _ => false
  }

  /** The events handled since `base`. */
  function Since(base: Trail, trail: Trail): seq<Item> {
    if trail == base || trail.Nothing? then []
    else Since(base, trail.before) + (if trail.step.Handle? then [Log(trail.step.e)] else [])
  }

  lemma {:induction false} RunFromSnoc(registry: seq<Aggregator>, b: Book, trace: seq<Item>, item: Item)
    ensures RunFrom(registry, b, trace + [item]) == Step(registry, RunFrom(registry, b, trace), item)
  {
    assert (trace + [item])[..|trace|] == trace;
  }

  /** How far the flush has got: `done` windows are gone from a store that has all the events. */
  ghost predicate PartWay(registry: seq<Aggregator>, from: Book, ready: seq<Window>, f: Flow, task: nat,
                          events: seq<Item>, done: nat)
  {
    && done <= |ready| && f.Queue(task) == ready[done..]
    && f.store == Without(RunFrom(registry, from, events).store, ready[..done])
    && f.sent == from.flushed + KnownOnly(registry, ready[..done])
  }

  lemma {:induction false} KnownOnlySnoc(registry: seq<Aggregator>, ws: seq<Window>, w: Window)
    ensures KnownOnly(registry, ws + [w]) == KnownOnly(registry, ws) + KnownOnly(registry, [w])
  {
    if ws == [] {
      assert ws + [w] == [w];
    } else {
      assert (ws + [w])[1..] == ws[1..] + [w];
      KnownOnlySnoc(registry, ws[1..], w);
    }
  }

  lemma {:induction false} HandleAside(registry: seq<Aggregator>, from: Book, ready: seq<Window>, f: Flow, task: nat,
        events: seq<Item>, done: nat, e: Event, block: int)
    requires ValidRegistry(registry) && PartWay(registry, from, ready, f, task, events, done)
    requires e.block > block && forall w :: w in ready ==> w.end <= block
    ensures PartWay(registry, from, ready, Do(registry, f, Handle(e)), task, events + [Log(e)], done)
  {
    var store := RunFrom(registry, from, events).store;
    RunFromSnoc(registry, from, events, Log(e));
    if Routed(registry, e) {
      OnEventIsAddTo(registry, store, e);
      OnEventIsAddTo(registry, f.store, e);
      WithoutAddTo(registry, store, ready[..done], e);
    }
  }

  lemma {:induction false} FinishAside(registry: seq<Aggregator>, from: Book, ready: seq<Window>, f: Flow, task: nat,
        events: seq<Item>, done: nat) returns (more: nat)
    requires PartWay(registry, from, ready, f, task, events, done)
    ensures PartWay(registry, from, ready, Do(registry, f, Finish(task)), task, events, more)
  {
    var store := RunFrom(registry, from, events).store;
    more := if done < |ready| then done + 1 else done;
    if done < |ready| {
      assert ready[..done + 1] == ready[..done] + [ready[done]];
      DiscardWithout(store, ready[..done], ready[done]);
      KnownOnlySnoc(registry, ready[..done], ready[done]);
      assert ready[done..][1..] == ready[done + 1..];
    }
  }

  lemma {:induction false} Begun(base: Trail, trail: Trail, task: nat, block: int)
    requires Ahead(base, trail, task, block)
    ensures trail != base && base < trail
  {
    if trail != Then(base, Begin(task, block)) { Begun(base, trail.before, task, block); }
  }

  lemma {:induction false} FlushPartWay(registry: seq<Aggregator>, start: Flow, base: Trail, trail: Trail, task: nat,
        block: int) returns (done: nat)
    requires ValidRegistry(registry) && Ahead(base, trail, task, block)
    ensures var f := Reached(registry, start, base);
            PartWay(registry, Book(f.store, f.sent), Ready(f.store, block), Reached(registry, start, trail), task,
              Since(base, trail), done)
  {
    var f := Reached(registry, start, base);
    var from, ready := Book(f.store, f.sent), Ready(f.store, block);
    Begun(base, trail, task, block);
    if trail == Then(base, Begin(task, block)) {
      done := 0;
      WithoutNone(f.store);
      assert ready[..0] == [] && ready[0..] == ready;
      assert Since(base, trail) == [];
    } else {
      done := FlushPartWay(registry, start, base, trail.before, task, block);
      ReadyMembers(f.store, block);
      var now, events := Reached(registry, start, trail.before), Since(base, trail.before);
      match trail.step {
        case Handle(e) =>
          HandleAside(registry, from, ready, now, task, events, done, e, block);
        case Finish(t) =>
          assert Since(base, trail) == events;
          done := FinishAside(registry, from, ready, now, task, events, done);
        case _ =>
      }
    }
  }

  lemma {:induction false} CutThenEvents(registry: seq<Aggregator>, b: Book, base: Trail, trail: Trail, task: nat,
        block: int)
    requires ValidRegistry(registry) && Ahead(base, trail, task, block)
    ensures var after := RunFrom(registry, Step(registry, b, Mark(block)), Since(base, trail));
            && after.store == Without(RunFrom(registry, b, Since(base, trail)).store, Ready(b.store, block))
            && after.flushed == b.flushed + KnownOnly(registry, Ready(b.store, block))
  {
    Begun(base, trail, task, block);
    if trail == Then(base, Begin(task, block)) {
      ReadyIsCut(b.store, block);
      assert Since(base, trail) == [];
    } else {
      CutThenEvents(registry, b, base, trail.before, task, block);
      var events := Since(base, trail.before);
      if trail.step.Handle? {
        EventAfterCut(registry, b, events, block, trail.step.e);
      } else {
        assert Since(base, trail) == events;
      }
    }
  }

  lemma {:induction false} EventAfterCut(registry: seq<Aggregator>, b: Book, events: seq<Item>, block: int, e: Event)
    requires ValidRegistry(registry) && e.block > block
    requires var after := RunFrom(registry, Step(registry, b, Mark(block)), events);
             after.store == Without(RunFrom(registry, b, events).store, Ready(b.store, block))
    ensures var before, after := RunFrom(registry, Step(registry, b, Mark(block)), events),
              RunFrom(registry, Step(registry, b, Mark(block)), events + [Log(e)]);
            && after.store == Without(RunFrom(registry, b, events + [Log(e)]).store, Ready(b.store, block))
            && after.flushed == before.flushed
  {
    RunFromSnoc(registry, b, events, Log(e));
    RunFromSnoc(registry, Step(registry, b, Mark(block)), events, Log(e));
    ReadyMembers(b.store, block);
    if Routed(registry, e) {
      var store := RunFrom(registry, b, events).store;
      OnEventIsAddTo(registry, store, e);
      OnEventIsAddTo(registry, Without(store, Ready(b.store, block)), e);
      WithoutAddTo(registry, store, Ready(b.store, block), e);
    }
  }

  /** A flush during which only events above its block come in, and which gets through, is an atomic flush
      followed by these events; so what is proved of traces with atomic marks holds of it too. */
  lemma {:induction false} AheadIsAtomic(registry: seq<Aggregator>, start: Flow, base: Trail, trail: Trail, task: nat,
        block: int, events: seq<Item>)
    requires ValidRegistry(registry) && Ahead(base, trail, task, block) && events == Since(base, trail)
    requires Reached(registry, start, trail).Queue(task) == []
    ensures var before, after := Reached(registry, start, base), Reached(registry, start, trail);
            Book(after.store, after.sent)
              == RunFrom(registry, Step(registry, Book(before.store, before.sent), Mark(block)), events)
  {
    var f := Reached(registry, start, base);
    var from := Book(f.store, f.sent);
    var done := FlushPartWay(registry, start, base, trail, task, block);
    CutThenEvents(registry, from, base, trail, task, block);
    GotThrough(registry, from, Ready(f.store, block), Reached(registry, start, trail), task, events, done,
      RunFrom(registry, Step(registry, from, Mark(block)), events));
  }

  lemma {:induction false} GotThrough(registry: seq<Aggregator>, from: Book, ready: seq<Window>, f: Flow, task: nat,
        events: seq<Item>, done: nat, after: Book)
    requires PartWay(registry, from, ready, f, task, events, done) && f.Queue(task) == []
    requires after.store == Without(RunFrom(registry, from, events).store, ready)
    requires after.flushed == from.flushed + KnownOnly(registry, ready)
    ensures Book(f.store, f.sent) == after
  {
    assert ready[..|ready|] == ready;
  }

  // ---------------------------------------------------------------- a sink that never suspends

  /** A flush and nothing else: the snapshot and n windows. */
  function Alone(task: nat, block: int, n: nat): Trail {
    if n == 0 then Then(Nothing, Begin(task, block)) else Then(Alone(task, block, n - 1), Finish(task))
  }

  lemma {:induction false} AloneIsAhead(task: nat, block: int, n: nat)
    ensures Ahead(Nothing, Alone(task, block, n), task, block) && Since(Nothing, Alone(task, block, n)) == []
    ensures forall i :: 0 <= i < |StepsOf(Alone(task, block, n))| ==> !StepsOf(Alone(task, block, n))[i].Handle?
  {
    if n > 0 { AloneIsAhead(task, block, n - 1); }
  }

  lemma {:induction false} AloneQueue(registry: seq<Aggregator>, f: Flow, task: nat, block: int, n: nat)
    requires n <= |Ready(f.store, block)|
    ensures Reached(registry, f, Alone(task, block, n)).Queue(task) == Ready(f.store, block)[n..]
  {
    if n > 0 {
      AloneQueue(registry, f, task, block, n - 1);
      assert Ready(f.store, block)[n - 1..][1..] == Ready(f.store, block)[n..];
    }
  }

  lemma {:induction false} OthersIdle(registry: seq<Aggregator>, f: Flow, task: nat, block: int, n: nat, t: nat)
    requires t != task
    ensures Reached(registry, f, Alone(task, block, n)).Queue(t) == f.Queue(t)
  {
    if n > 0 { OthersIdle(registry, f, task, block, n - 1, t); }
  }

  lemma {:induction false} NoHandlesQuiet(registry: seq<Aggregator>, start: Flow, steps: seq<FlowStep>, n: nat)
    requires n <= |steps| && forall i :: 0 <= i < |steps| ==> !steps[i].Handle?
    ensures QuietRun(registry, start, steps, n)
  {
    if n > 0 { NoHandlesQuiet(registry, start, steps, n - 1); }
  }

  /** With a sink that accepts without suspending no other task takes a step during a flush, and such a flush
      discards nothing unsent and is the atomic step. */
  lemma {:induction false} AloneIsAtomic(registry: seq<Aggregator>, f: Flow, task: nat, block: int)
    requires ValidRegistry(registry) && Sound(registry, f) && NoFlush(f)
    ensures var steps := StepsOf(Alone(task, block, |Ready(f.store, block)|));
            var after := At(registry, f, steps, |steps|);
            && CleanRun(registry, f, steps, |steps|) && NoFlush(after)
            && Book(after.store, after.sent) == Step(registry, Book(f.store, f.sent), Mark(block))
  {
    var n := |Ready(f.store, block)|;
    var trail := Alone(task, block, n);
    AloneIsAhead(task, block, n);
    AloneQueue(registry, f, task, block, n);
    NoHandlesQuiet(registry, f, StepsOf(trail), |StepsOf(trail)|);
    QuietRunsAreClean(registry, f, StepsOf(trail), |StepsOf(trail)|);
    AheadIsAtomic(registry, f, Nothing, trail, task, block, []);
    ReachedIsAt(registry, f, trail);
    var after := Reached(registry, f, trail);
    forall t | t in after.open ensures after.open[t] == [] {
      if t != task { OthersIdle(registry, f, task, block, n, t); }
      assert after.Queue(t) == [];
    }
  }

  // ---------------------------------------------------------------- a late event

  lemma {:induction false} LateEventJoins(e: Event, f: Event, w: Window, v: Window)
    requires e.name == f.name == "E" && e.block == 103 && f.block == 105 && e.Identity() != f.Identity()
    requires w == SampleWindow(103, [e]) && v == SampleWindow(103, [e, f])
    ensures Do(SAMPLE, IDLE, Handle(e)) == Flow([w], [], map[])
    ensures Do(SAMPLE, Flow([w], [], map[]), Begin(0, 110)) == Flow([w], [], map[0 := [w]])
    ensures Do(SAMPLE, Flow([w], [], map[0 := [w]]), Handle(f)) == Flow([v], [], map[0 := [w]])
    ensures Intrudes(SAMPLE, Flow([w], [], map[0 := [w]]), Handle(f))
  {
    SampleRoute(e);
    SampleRoute(f);
    SampleTakes([], e);
    SampleTakes([w], f);
    assert w.events + [f] == v.events && !w.Has(f);
    AllEnding([w], 110);
    var open: map<nat, seq<Window>> := map[0 := [w]];
    assert [w][0].Slot() == SlotFor(SAMPLE, [w], f);
    assert 0 in open && Stale(open[0], SlotFor(SAMPLE, [w], f), f.Identity());
  }

  lemma {:induction false} LateEventGoes(w: Window, v: Window)
    requires w.Slot() == v.Slot() && Known(SAMPLE, w)
    ensures Do(SAMPLE, Flow([v], [], map[0 := [w]]), Finish(0)) == Flow([], [w], map[0 := []])
  {
    assert Discard([v], w) == Discard([v][1..], w) == [];
    assert KnownOnly(SAMPLE, [w]) == [w];
  }

  /** A run that loses a log: the window of e is being sent when f comes, joins the stored record, and goes
      with it unsent. */
  lemma {:induction false} LateEventIsLost(e: Event, f: Event)
    requires e.name == f.name == "E" && e.block == 103 && f.block == 105 && e.Identity() != f.Identity()
    ensures var steps := [Handle(e), Begin(0, 110), Handle(f), Finish(0)];
            var end := At(SAMPLE, IDLE, steps, 4);
            && end.store == [] && end.sent == [SampleWindow(103, [e])] && !Accounted(end, f.Identity())
            && Intrudes(SAMPLE, At(SAMPLE, IDLE, steps, 2), Handle(f))
  {
    var steps := [Handle(e), Begin(0, 110), Handle(f), Finish(0)];
    var w, v := SampleWindow(103, [e]), SampleWindow(103, [e, f]);
    SampleRoute(e);
    LateEventJoins(e, f, w, v);
    LateEventGoes(w, v);
    assert At(SAMPLE, IDLE, steps, 0) == IDLE;
    assert At(SAMPLE, IDLE, steps, 1) == Flow([w], [], map[]);
    assert At(SAMPLE, IDLE, steps, 2) == Flow([w], [], map[0 := [w]]);
    assert At(SAMPLE, IDLE, steps, 3) == Flow([v], [], map[0 := [w]]);
    assert At(SAMPLE, IDLE, steps, 4) == Flow([], [w], map[0 := []]);
  }
}
