/** Runs of the coordinator over a delivery trace, and why they do not depend on where the
    block marks fall, on redelivery, or on a restart (sentinel/services/aggregation.py). */
module Batching {
  import opened Events
  import opened Sorting
  import opened Windows
  import opened Partition

  // ---------------------------------------------------------------- the reference partition

  function Joining(registry: seq<Aggregator>, w: Window, es: seq<Event>): seq<Event> {
    if es == [] then []
    else if Fits(registry, w, es[0]) then [es[0]] + Joining(registry, w, es[1..])
    else Joining(registry, w, es[1..])
  }

  function NotJoining(registry: seq<Aggregator>, w: Window, es: seq<Event>): (r: seq<Event>)
    ensures |r| <= |es|
    ensures forall e :: e in r ==> e in es
  {
    if es == [] then []
    else if Fits(registry, w, es[0]) then NotJoining(registry, w, es[1..])
    else [es[0]] + NotJoining(registry, w, es[1..])
  }

  predicate AllRouted(registry: seq<Aggregator>, es: seq<Event>) {
    forall e :: e in es ==> Routed(registry, e)
  }

  /** The earliest event opens a window and takes every event of its key up to the window's end;
      the rest is cut the same way. There is no store, no mark and no flush in this definition. */
  function Greedy(registry: seq<Aggregator>, es: seq<Event>): seq<Window>
    requires ValidRegistry(registry) && AllRouted(registry, es)
    decreases |es|
  {
    if es == [] then [] else
    assert es[0] in es;
    var w := RouteOf(registry, es[0].name).value.Open(es[0]);
    assert Fits(registry, w, es[0]);
    [w.(events := Joining(registry, w, es))] + Greedy(registry, NotJoining(registry, w, es[1..]))
  }

  // ---------------------------------------------------------------- runs

  /** The persisted store, and every window flushed so far in flush order. */
  datatype Book = Book(store: seq<Window>, flushed: seq<Window>)

  function Step(registry: seq<Aggregator>, b: Book, item: Item): Book {
    match item
    case Log(e) => if Routed(registry, e) then b.(store := OnEvent(registry, b.store, e)) else b
    case Mark(n) => Book(EndingAfter(b.store, n), b.flushed + KnownOnly(registry, Ready(b.store, n)))
  }

  function RunFrom(registry: seq<Aggregator>, b: Book, trace: seq<Item>): Book {
    if trace == [] then b
    else Step(registry, RunFrom(registry, b, trace[..|trace| - 1]), trace[|trace| - 1])
  }

  function Run(registry: seq<Aggregator>, trace: seq<Item>): Book {
    RunFrom(registry, Book([], []), trace)
  }

  /** The checkpoint of a process without history. */
  function Checkpoint(trace: seq<Item>): int {
    CheckpointFrom(0, trace)
  }

  /** The aggregated events in the order in which they were first handed over. */
  function FirstSeen(registry: seq<Aggregator>, trace: seq<Item>): seq<Event> {
    if trace == [] then [] else
    var front := FirstSeen(registry, trace[..|trace| - 1]);
    match trace[|trace| - 1]
    case Log(e) => if Routed(registry, e) && e !in front then front + [e] else front
    case Mark(_) => front
  }

  /** The event is new, and no earlier one lies in a later block. */
  ghost predicate Next(seen: seq<Event>, e: Event) {
    forall x :: x in seen ==> x.block <= e.block && x.Identity() != e.Identity()
  }

  /** No mark overtakes an event, and an aggregated event is either the next one in block order
      or one handed over before. Nothing is said about where marks fall or how often. */
  ghost predicate Admissible(registry: seq<Aggregator>, trace: seq<Item>) {
    trace == [] ||
    var front := trace[..|trace| - 1];
    && Admissible(registry, front)
    && match trace[|trace| - 1]
       case Mark(_) => true
       case Log(e) =>
         && e.block > Checkpoint(front)
         && (Routed(registry, e) ==>
              || e in FirstSeen(registry, front)
              || Next(FirstSeen(registry, front), e))
  }

  lemma {:induction false} FirstSeenRouted(registry: seq<Aggregator>, trace: seq<Item>)
    ensures AllRouted(registry, FirstSeen(registry, trace))
  {
    if trace == [] {
    } else {
      FirstSeenRouted(registry, trace[..|trace| - 1]);
    }
  }

  // ---------------------------------------------------------------- greedy, one event at a time

  lemma {:induction false} JoiningSnoc(registry: seq<Aggregator>, w: Window, es: seq<Event>, e: Event)
    ensures Joining(registry, w, es + [e]) == Joining(registry, w, es) + (if Fits(registry, w, e) then [e] else [])
    ensures NotJoining(registry, w, es + [e])
      == NotJoining(registry, w, es) + (if Fits(registry, w, e) then [] else [e])
  {
    if es == [] {
      assert es + [e] == [e];
    } else {
      assert (es + [e])[0] == es[0] && (es + [e])[1..] == es[1..] + [e];
      JoiningSnoc(registry, w, es[1..], e);
    }
  }

  lemma {:induction false} JoiningMembers(registry: seq<Aggregator>, w: Window, es: seq<Event>)
    ensures forall e :: e in Joining(registry, w, es) <==> e in es && Fits(registry, w, e)
    ensures forall e :: e in NotJoining(registry, w, es) <==> e in es && !Fits(registry, w, e)
  {
    if es == [] {
    } else {
      assert forall e :: e in es <==> e == es[0] || e in es[1..];
      JoiningMembers(registry, w, es[1..]);
    }
  }

  function OpenFor(registry: seq<Aggregator>, e: Event): Window
    requires Routed(registry, e)
  {
    RouteOf(registry, e.name).value.Open(e)
  }

  lemma {:induction false} NextNotHeld(registry: seq<Aggregator>, w: Window, es: seq<Event>, e: Event)
    requires Next(es, e)
    ensures !w.(events := Joining(registry, w, es)).Has(e)
  {
    JoiningMembers(registry, w, es);
    var head := w.(events := Joining(registry, w, es));
    forall i | 0 <= i < |head.events| ensures head.events[i].Identity() != e.Identity() {
      assert head.events[i] in Joining(registry, w, es);
    }
  }

  lemma {:induction false} GreedyCons(registry: seq<Aggregator>, es: seq<Event>, w: Window, taken: seq<Event>,
        rest: seq<Event>)
    requires ValidRegistry(registry) && AllRouted(registry, es) && es != []
    requires Routed(registry, es[0]) && w == OpenFor(registry, es[0])
    requires taken == Joining(registry, w, es) && rest == NotJoining(registry, w, es[1..])
    ensures AllRouted(registry, rest)
    ensures Greedy(registry, es) == [w.(events := taken)] + Greedy(registry, rest)
  {
  }

  /** Appending the next event to the list is exactly one store step on the partition. */
  lemma {:induction false} GreedySnoc(registry: seq<Aggregator>, es: seq<Event>, e: Event)
    requires ValidRegistry(registry) && AllRouted(registry, es) && Routed(registry, e)
    requires Next(es, e)
    ensures AllRouted(registry, es + [e])
    ensures Greedy(registry, es + [e]) == AddTo(registry, Greedy(registry, es), e)
    decreases |es|
  {
    var all := es + [e];
    assert AllRouted(registry, all);
    if es == [] {
      assert all == [e] && all[1..] == [];
      var w := OpenFor(registry, e);
      GreedyCons(registry, all, w, [e], []);
      assert !w.Has(e);
    } else {
      assert all[0] == es[0] && all[1..] == es[1..] + [e];
      assert es[0] in es;
      var w := OpenFor(registry, es[0]);
      var taken, rest := Joining(registry, w, es), NotJoining(registry, w, es[1..]);
      GreedyCons(registry, es, w, taken, rest);
      JoiningSnoc(registry, w, es, e);
      JoiningSnoc(registry, w, es[1..], e);
      var head := w.(events := taken);
      if Fits(registry, w, e) {
        GreedyCons(registry, all, w, taken + [e], rest);
        NextNotHeld(registry, w, es, e);
      } else {
        GreedyCons(registry, all, w, taken, rest + [e]);
        GreedySnoc(registry, rest, e);
      }
      assert Fits(registry, head, e) == Fits(registry, w, e);
    }
  }

  lemma {:induction false} GreedyEvents(registry: seq<Aggregator>, es: seq<Event>)
    requires ValidRegistry(registry) && AllRouted(registry, es)
    ensures forall e :: e in EventsIn(Greedy(registry, es)) <==> e in es
    decreases |es|
  {
    if es == [] {
    } else {
      assert es[0] in es;
      var w := OpenFor(registry, es[0]);
      var taken, rest := Joining(registry, w, es), NotJoining(registry, w, es[1..]);
      GreedyCons(registry, es, w, taken, rest);
      GreedyEvents(registry, rest);
      JoiningMembers(registry, w, es);
      assert rest == NotJoining(registry, w, es);
      var head := w.(events := taken);
      assert EventsIn([head] + Greedy(registry, rest)) == (set e | e in taken) + EventsIn(Greedy(registry, rest)) by {
        assert ([head] + Greedy(registry, rest))[1..] == Greedy(registry, rest);
      }
    }
  }

  lemma {:induction false} GreedySettled(registry: seq<Aggregator>, es: seq<Event>)
    requires ValidRegistry(registry) && AllRouted(registry, es)
    ensures Settled(registry, Greedy(registry, es))
    decreases |es|
  {
    if es == [] {
    } else {
      assert es[0] in es;
      var w := OpenFor(registry, es[0]);
      var taken, rest := Joining(registry, w, es), NotJoining(registry, w, es[1..]);
      GreedyCons(registry, es, w, taken, rest);
      GreedySettled(registry, rest);
      GreedyEvents(registry, rest);
      JoiningMembers(registry, w, es);
      assert rest == NotJoining(registry, w, es);
      var head := w.(events := taken);
      assert forall e :: Fits(registry, head, e) == Fits(registry, w, e);
      assert es[0] in taken;
      assert ([head] + Greedy(registry, rest))[1..] == Greedy(registry, rest);
    }
  }

  lemma {:induction false} GreedyKnown(registry: seq<Aggregator>, es: seq<Event>)
    requires ValidRegistry(registry) && AllRouted(registry, es)
    ensures forall w :: w in Greedy(registry, es) ==> Known(registry, w)
    decreases |es|
  {
    if es == [] {
    } else {
      assert es[0] in es;
      var a := RouteOf(registry, es[0].name).value;
      var i :| 0 <= i < |registry| && registry[i] == a;
      var w := a.Open(es[0]);
      assert registry[i].group == w.group;
      GreedyKnown(registry, NotJoining(registry, w, es[1..]));
    }
  }

  lemma {:induction false} KnownOnlyAll(registry: seq<Aggregator>, ws: seq<Window>)
    requires forall w :: w in ws ==> Known(registry, w)
    ensures KnownOnly(registry, ws) == ws
  {
    if ws == [] {
    } else {
      KnownOnlyAll(registry, ws[1..]);
    }
  }

  // ---------------------------------------------------------------- the main results

  /** In every admissible run the flushed windows are the greedy partition, up to the checkpoint,
      in flush order; the pending ones are the rest of it. */
  lemma {:induction false} RunIsGreedyPartition(registry: seq<Aggregator>, trace: seq<Item>)
    requires ValidRegistry(registry) && Admissible(registry, trace)
    ensures AllRouted(registry, FirstSeen(registry, trace))
    ensures var g := Greedy(registry, FirstSeen(registry, trace));
            Run(registry, trace) == Book(EndingAfter(g, Checkpoint(trace)), Ready(g, Checkpoint(trace)))
  {
    FirstSeenRouted(registry, trace);
    if trace == [] {
    } else {
      var front, item := trace[..|trace| - 1], trace[|trace| - 1];
      RunIsGreedyPartition(registry, front);
      var seen := FirstSeen(registry, front);
      var g, m := Greedy(registry, seen), Checkpoint(front);
      GreedySettled(registry, seen);
      GreedyEvents(registry, seen);
      match item {
        case Mark(n) =>
          MarkStep(registry, seen, m, n);
        case Log(e) =>
          if Routed(registry, e) {
            OnEventIsAddTo(registry, EndingAfter(g, m), e);
            CutAddTo(registry, g, e, m);
            if e in seen {
              RedeliveryIsNoOp(registry, g, e, e);
            } else {
              GreedySnoc(registry, seen, e);
            }
          }
      }
    }
  }

  lemma {:induction false} MarkStep(registry: seq<Aggregator>, seen: seq<Event>, m: int, n: int)
    requires ValidRegistry(registry) && AllRouted(registry, seen)
    ensures var g, top := Greedy(registry, seen), if n > m then n else m;
            && EndingAfter(EndingAfter(g, m), n) == EndingAfter(g, top)
            && Ready(g, m) + KnownOnly(registry, Ready(EndingAfter(g, m), n)) == Ready(g, top)
  {
    var g := Greedy(registry, seen);
    GreedySettled(registry, seen);
    GreedyKnown(registry, seen);
    CutTwice(g, m, n);
    var ready := Ready(EndingAfter(g, m), n);
    forall w | w in ready ensures Known(registry, w) {
      assert w in multiset(ready);
      assert w in EndingBy(EndingAfter(g, m), n);
    }
    KnownOnlyAll(registry, ready);
    if m <= n { FlushInSteps(registry, g, m, n); }
  }

  /** Any two ways of batching the same events flush the same windows with the same contents in
      the same order, and leave the same windows pending. */
  lemma {:induction false} BatchingIndependence(registry: seq<Aggregator>, trace1: seq<Item>, trace2: seq<Item>)
    requires ValidRegistry(registry) && Admissible(registry, trace1) && Admissible(registry, trace2)
    requires FirstSeen(registry, trace1) == FirstSeen(registry, trace2)
    requires Checkpoint(trace1) == Checkpoint(trace2)
    ensures Run(registry, trace1) == Run(registry, trace2)
  {
    RunIsGreedyPartition(registry, trace1);
    RunIsGreedyPartition(registry, trace2);
  }

  /** In a forward run no pending window ends at or below the checkpoint, and every aggregated
      event above the checkpoint that was handed over is still pending. */
  lemma {:induction false} PendingAboveCheckpoint(registry: seq<Aggregator>, trace: seq<Item>)
    requires ValidRegistry(registry) && Admissible(registry, trace)
    ensures forall w :: w in Run(registry, trace).store ==> w.end > Checkpoint(trace)
    ensures forall e :: e in FirstSeen(registry, trace) && e.block > Checkpoint(trace)
              ==> e in EventsIn(Run(registry, trace).store)
    ensures forall w :: w in Run(registry, trace).flushed ==> w.end <= Checkpoint(trace)
  {
    RunIsGreedyPartition(registry, trace);
    var seen, m := FirstSeen(registry, trace), Checkpoint(trace);
    var g := Greedy(registry, seen);
    GreedySettled(registry, seen);
    GreedyEvents(registry, seen);
    forall e | e in seen && e.block > m ensures e in EventsIn(EndingAfter(g, m)) {
      var i := EventsInMember(g, e);
      SettledAt(registry, g, i, i);
      assert g[i] in EndingAfter(g, m);
    }
    forall w | w in Ready(g, m) ensures w.end <= m {
      assert w in multiset(Ready(g, m));
      assert w in EndingBy(g, m);
    }
  }

  lemma {:induction false} RunSnoc(registry: seq<Aggregator>, trace: seq<Item>, item: Item)
    ensures Run(registry, trace + [item]) == Step(registry, Run(registry, trace), item)
  {
    assert (trace + [item])[..|trace|] == trace;
  }

  lemma {:induction false} AllEnding(ws: seq<Window>, n: int)
    requires forall w :: w in ws ==> w.end <= n
    ensures EndingBy(ws, n) == ws
  {
    if ws != [] { AllEnding(ws[1..], n); }
  }

  /** A mark past every pending window flushes them all. */
  lemma {:induction false} MarkFlushesAll(registry: seq<Aggregator>, b: Book, n: int)
    requires forall w :: w in b.store ==> w.end <= n && Known(registry, w)
    ensures |Step(registry, b, Mark(n)).flushed| == |b.flushed| + |b.store|
  {
    AllEnding(b.store, n);
    SameElements(Ready(b.store, n), b.store);
    KnownOnlyAll(registry, Ready(b.store, n));
  }

  function SampleWindow(start: int, events: seq<Event>): Window {
    Window("g", Key("global", "all"), start, start + 4, {"E"}, events)
  }

  const SAMPLE: seq<Aggregator> := [Aggregator("g", 5, {"E"}, Everything)]

  lemma {:induction false} SampleRoute(e: Event)
    requires e.name == "E"
    ensures ValidRegistry(SAMPLE) && Routed(SAMPLE, e) && RouteOf(SAMPLE, e.name).value == SAMPLE[0]
    ensures forall start, events :: Known(SAMPLE, SampleWindow(start, events))
  {
    assert SAMPLE[0].group == "g";
  }

  lemma {:induction false} SampleTakes(store: seq<Window>, e: Event)
    requires e.name == "E"
    ensures store == [] ==> OnEvent(SAMPLE, store, e) == [SampleWindow(e.block, [e])]
    ensures
      store != [] && store[0].group == "g" && store[0].key == Key("global", "all") && store[0].Contains(e.block) ==>
      OnEvent(SAMPLE, store, e) == [store[0].WithEvent(e)] + store[1..]
    ensures |store| == 1 && !store[0].Contains(e.block) ==>
      OnEvent(SAMPLE, store, e) == store + [SampleWindow(e.block, [e])]
  {
    SampleRoute(e);
    OnEventIsAddTo(SAMPLE, store, e);
    var w := SAMPLE[0].Open(e);
    assert w.events + [e] == [e] && w.WithEvent(e) == SampleWindow(e.block, [e]);
    if |store| == 1 && !store[0].Contains(e.block) {
      assert store[1..] == [] && store == [store[0]];
    }
  }

  lemma {:induction false} SampleFlush(trace: seq<Item>, windows: seq<Window>)
    requires Run(SAMPLE, trace) == Book(windows, [])
    requires forall w :: w in windows ==> w.end <= 110 && w.group == "g"
    ensures |Run(SAMPLE, trace + [Mark(110)]).flushed| == |windows|
  {
    RunSnoc(SAMPLE, trace, Mark(110));
    forall w | w in windows ensures Known(SAMPLE, w) {
      assert SAMPLE[0].group == w.group;
    }
    MarkFlushesAll(SAMPLE, Run(SAMPLE, trace), 110);
  }

  /** Order matters: a log handed over live before the replay reaches an earlier block of the same
      window ends up in a window of its own, although the same two logs in block order share one. */
  lemma {:induction false} EarlyLogSplitsWindow(e: Event, f: Event)
    requires e.name == f.name == "E" && e.block == 103 && f.block == 105 && e.Identity() != f.Identity()
    ensures |Run(SAMPLE, [Log(e)] + [Log(f)] + [Mark(110)]).flushed| == 1
    ensures |Run(SAMPLE, [Log(f)] + [Log(e)] + [Log(f)] + [Mark(110)]).flushed| == 2
  {
    InOrderShares(e, f);
    SampleFlush([Log(e)] + [Log(f)], [SampleWindow(103, [e, f])]);
    EarlySplits(e, f);
    SampleFlush([Log(f)] + [Log(e)] + [Log(f)], [SampleWindow(105, [f]), SampleWindow(103, [e])]);
  }

  lemma {:induction false} InOrderShares(e: Event, f: Event)
    requires e.name == f.name == "E" && e.block == 103 && f.block == 105 && e.Identity() != f.Identity()
    ensures Run(SAMPLE, [Log(e)] + [Log(f)]) == Book([SampleWindow(103, [e, f])], [])
  {
    SampleRoute(e);
    SampleRoute(f);
    RunSnoc(SAMPLE, [], Log(e));
    RunSnoc(SAMPLE, [Log(e)], Log(f));
    assert [] + [Log(e)] == [Log(e)];
    SampleTakes([], e);
    var one := SampleWindow(103, [e]);
    SampleTakes([one], f);
    assert one.events + [f] == [e, f];
    assert one.WithEvent(f) == SampleWindow(103, [e, f]);
  }

  lemma {:induction false} EarlySplits(e: Event, f: Event)
    requires e.name == f.name == "E" && e.block == 103 && f.block == 105 && e.Identity() != f.Identity()
    ensures Run(SAMPLE, [Log(f)] + [Log(e)] + [Log(f)]) == Book([SampleWindow(105, [f]), SampleWindow(103, [e])], [])
  {
    SampleRoute(e);
    SampleRoute(f);
    RunSnoc(SAMPLE, [], Log(f));
    RunSnoc(SAMPLE, [Log(f)], Log(e));
    RunSnoc(SAMPLE, [Log(f)] + [Log(e)], Log(f));
    assert [] + [Log(f)] == [Log(f)];
    SampleTakes([], f);
    SampleTakes([SampleWindow(105, [f])], e);
    var two := [SampleWindow(105, [f]), SampleWindow(103, [e])];
    assert two == [SampleWindow(105, [f])] + [SampleWindow(103, [e])];
    SampleTakes(two, f);
    assert two[0].events[0].Identity() == f.Identity();
    assert [two[0]] + two[1..] == two;
  }
}
