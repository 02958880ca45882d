/** The coordinator as the program runs it: a window store updated in place, ready windows sent one by one,
    each discarded only after all its notifications went out. At the await of every emission other tasks may
    store events; `turns` lists them. What the methods do is stated as steps of the state machine in Flows
    (sentinel/services/aggregation.py, sentinel/app/storage.py). */
module Coordinator {
  import opened Events
  import opened Sorting
  import opened Windows
  import opened Partition
  import opened Batching
  import opened Flows
  import opened Interleavings

  /** Persisted windows: a dictionary keyed by storage key, kept in insertion order. */
  class AggregationWindowStore {
    var records: seq<Window>

    constructor (records: seq<Window>)
      ensures this.records == records
    {
      this.records := records;
    }

    method UpsertPending(w: Window)
      modifies this
      ensures records == Upsert(old(records), w)
    {
      records := Upsert(records, w);
    }

    method DiscardWindow(w: Window)
      modifies this
      ensures records == Discard(old(records), w)
    {
      records := Discard(records, w);
    }

    method PendingFor(group: string, key: Key, block: int) returns (r: Option<Window>)
      ensures r == FirstMatch(records, group, key, block)
    {
      for i := 0 to |records|
        invariant FirstMatch(records, group, key, block) == FirstMatch(records[i..], group, key, block)
      {
        if Matches(records[i], group, key, block) {
          return Some(records[i]);
        }
        assert records[i..][1..] == records[i + 1..];
      }
      r := None;
    }
  }

  type Aggregation = (string, seq<Event>) -> seq<Notification>

  // ---------------------------------------------------------------- the steps of a call

  function Handled(trail: Trail, turn: seq<Event>, n: nat): Trail
    requires n <= |turn|
  {
    if n == 0 then trail else Then(Handled(trail, turn, n - 1), Handle(turn[n - 1]))
  }

  /** The trail after what other tasks do in the turns from a up to b; past the end of the list they do
      nothing. */
  function Meanwhile(trail: Trail, turns: seq<seq<Event>>, a: nat, b: nat): Trail {
    if b <= a then trail
    else if b - 1 < |turns| then Handled(Meanwhile(trail, turns, a, b - 1), turns[b - 1], |turns[b - 1]|)
    else Meanwhile(trail, turns, a, b - 1)
  }

  /** What is sent for a window. One whose group is no longer registered is dropped unsent. */
  function NotesFor(registry: seq<Aggregator>, aggregate: Aggregation, w: Window): seq<Notification> {
    if Known(registry, w) then aggregate(w.group, w.events) else []
  }

  /** Those of the first n windows that are sent. */
  function KnownFirst(registry: seq<Aggregator>, ws: seq<Window>, n: nat): seq<Window>
    requires n <= |ws|
  {
    if n == 0 then [] else KnownFirst(registry, ws, n - 1) + KnownOnly(registry, [ws[n - 1]])
  }

  /** What is sent for the first n windows. */
  function Sent(registry: seq<Aggregator>, aggregate: Aggregation, ws: seq<Window>, n: nat): seq<Notification>
    requires n <= |ws|
  {
    if n == 0 then [] else Sent(registry, aggregate, ws, n - 1) + NotesFor(registry, aggregate, ws[n - 1])
  }

  /** The notifications of these windows, window by window. */
  function Reports(aggregate: Aggregation, ws: seq<Window>): seq<Notification> {
    if ws == [] then [] else
    var last := ws[|ws| - 1];
    Reports(aggregate, ws[..|ws| - 1]) + aggregate(last.group, last.events)
  }

  lemma {:induction false} KnownOne(registry: seq<Aggregator>, w: Window)
    ensures KnownOnly(registry, [w]) == if Known(registry, w) then [w] else []
  {
    assert [w][1..] == [];
  }

  lemma {:induction false} ReportsSnoc(aggregate: Aggregation, ws: seq<Window>, w: Window)
    ensures Reports(aggregate, ws + [w]) == Reports(aggregate, ws) + aggregate(w.group, w.events)
  {
    assert (ws + [w])[..|ws|] == ws;
  }

  lemma {:induction false} SentIsReports(registry: seq<Aggregator>, aggregate: Aggregation, ws: seq<Window>, n: nat)
    requires n <= |ws|
    ensures Sent(registry, aggregate, ws, n) == Reports(aggregate, KnownFirst(registry, ws, n))
  {
    if n > 0 {
      SentIsReports(registry, aggregate, ws, n - 1);
      KnownOne(registry, ws[n - 1]);
      ReportsSnoc(aggregate, KnownFirst(registry, ws, n - 1), ws[n - 1]);
      assert KnownFirst(registry, ws, n - 1) + [] == KnownFirst(registry, ws, n - 1);
    }
  }

  /** The windows flushed are the known ones of the snapshot. */
  lemma {:induction false} KnownFirstMembers(registry: seq<Aggregator>, ws: seq<Window>, n: nat)
    requires n <= |ws|
    ensures forall w :: w in KnownFirst(registry, ws, n) <==> w in ws[..n] && Known(registry, w)
  {
    if n > 0 {
      KnownFirstMembers(registry, ws, n - 1);
      KnownOne(registry, ws[n - 1]);
      assert ws[..n] == ws[..n - 1] + [ws[n - 1]];
      assert KnownFirst(registry, ws, n - 1) + [] == KnownFirst(registry, ws, n - 1);
    }
  }

  lemma {:induction false} KnownFirstSorted(registry: seq<Aggregator>, ws: seq<Window>, n: nat)
    requires n <= |ws| && SortedBy(WindowLeq, ws)
    ensures SortedBy(WindowLeq, KnownFirst(registry, ws, n))
  {
    if n > 0 {
      var front := KnownFirst(registry, ws, n - 1);
      KnownFirstSorted(registry, ws, n - 1);
      KnownFirstMembers(registry, ws, n - 1);
      KnownOne(registry, ws[n - 1]);
      forall i | 0 <= i < |front| ensures WindowLeq(front[i], ws[n - 1]) {
        assert front[i] in front;
        assert front[i] in ws[..n - 1];
        var k :| 0 <= k < n - 1 && ws[k] == front[i];
      }
    }
  }

  /** What is sent for everything that is ready at a block. */
  function AllNotes(registry: seq<Aggregator>, aggregate: Aggregation, store: seq<Window>, block: int)
    : seq<Notification>
  {
    Sent(registry, aggregate, Ready(store, block), |Ready(store, block)|)
  }

  lemma {:induction false} SentGrows(registry: seq<Aggregator>, aggregate: Aggregation, ws: seq<Window>, i: nat, j: nat)
    requires i <= j <= |ws|
    ensures |Sent(registry, aggregate, ws, i)| <= |Sent(registry, aggregate, ws, j)|
    decreases j
  {
    if i < j { SentGrows(registry, aggregate, ws, i, j - 1); }
  }

  /** The turn that is next once they are sent, one having passed for each notification. */
  function TurnAfter(registry: seq<Aggregator>, aggregate: Aggregation, turn: nat, ws: seq<Window>, n: nat): (r: nat)
    requires n <= |ws|
    ensures r >= turn
  {
    if n == 0 then turn
    else TurnAfter(registry, aggregate, turn, ws, n - 1) + |NotesFor(registry, aggregate, ws[n - 1])|
  }

  /** The trail after the first n windows of a snapshot were flushed: one turn of the other tasks passes
      for each notification, and the record goes right after the last one. */
  function Flushed(registry: seq<Aggregator>, aggregate: Aggregation, trail: Trail, turns: seq<seq<Event>>, turn: nat,
                   ws: seq<Window>, n: nat): Trail
    requires n <= |ws|
  {
    if n == 0 then trail else
    Then(Meanwhile(Flushed(registry, aggregate, trail, turns, turn, ws, n - 1), turns,
           TurnAfter(registry, aggregate, turn, ws, n - 1), TurnAfter(registry, aggregate, turn, ws, n)),
      Finish(0))
  }

  // ---------------------------------------------------------------- the class

  class AggregationCoordinator {
    const registry: seq<Aggregator>
    const aggregate: Aggregation
    const store: AggregationWindowStore
    /** The events other tasks hand over at the await of each emission to come. */
    const turns: seq<seq<Event>>
    var turn: nat
    var emitted: seq<Notification>
    /** How many more notifications the sink accepts before it raises; any value may occur. */
    var capacity: nat
    /** Windows whose notifications all went out, in order; what a flush in progress has yet to send;
        where the process started, and the steps since. */
    ghost var flushed: seq<Window>
    ghost var queue: seq<Window>
    ghost const start: Flow
    ghost var trail: Trail

    ghost predicate Valid()
      reads this, store
    {
      && ValidRegistry(registry) && Sound(registry, start) && start.open == map[]
      && Now().store == store.records && Now().sent == flushed && Now().Queue(0) == queue
    }

    /** The state machine after the steps so far. */
    ghost function Now(): Flow
      reads this
    {
      Reached(registry, start, trail)
    }

    ghost function View(): Book
      reads this, store
    {
      Book(store.records, flushed)
    }

    /** Every notification of a window flushed went out. */
    ghost predicate Announced()
      reads this
    {
      forall w, n :: w in flushed && n in aggregate(w.group, w.events) ==> n in emitted
    }

    /** Since then exactly the notifications of the windows flushed went out, window by window. */
    ghost predicate SentSince(flushed0: seq<Window>, emitted0: seq<Notification>)
      reads this
    {
      flushed0 <= flushed && emitted == emitted0 + Reports(aggregate, flushed[|flushed0|..])
    }

    constructor (registry: seq<Aggregator>, aggregate: Aggregation, store: AggregationWindowStore, capacity: nat,
                 turns: seq<seq<Event>>)
      requires ValidRegistry(registry) && Settled(registry, store.records) && AllKnown(registry, store.records)
      ensures Valid() && trail == Nothing && start == Flow(store.records, [], map[])
      ensures this.registry == registry && this.aggregate == aggregate && this.store == store
      ensures View() == Book(store.records, []) && emitted == [] && this.capacity == capacity
      ensures this.turns == turns && turn == 0
    {
      this.registry, this.aggregate, this.store, this.turns := registry, aggregate, store, turns;
      this.emitted, this.capacity, turn := [], capacity, 0;
      flushed, queue, trail, start := [], [], Nothing, Flow(store.records, [], map[]);
    }

    /** `_prepare`: an event of no aggregator becomes its own notification, any other is stored. */
    method Prepare(e: Event) returns (prepared: seq<Notification>)
      requires Valid()
      modifies store, this`trail
      ensures Valid() && trail == Then(old(trail), Handle(e))
      ensures store.records ==
        if Routed(registry, e) then OnEvent(registry, old(store.records), e) else old(store.records)
      ensures prepared == if Routed(registry, e) then [] else [Notification([e])]
    {
      trail := Then(trail, Handle(e));
      var route := RouteOf(registry, e.name);
      if route.None? {
        return [Notification([e])];
      }
      var a := route.value;
      var found := store.PendingFor(a.group, a.KeyFor(e), e.block);
      var w := if found.None? then a.Open(e) else found.value;
      store.UpsertPending(w.WithEvent(e));
      prepared := [];
    }

    /** Other tasks at one await. A notification that they send themselves is not part of this call. */
    method TakeTurn()
      requires Valid()
      modifies store, this`trail, this`turn
      ensures Valid() && turn == old(turn) + 1 && trail == Meanwhile(old(trail), turns, old(turn), turn)
    {
      if turn < |turns| {
        var events := turns[turn];
        for i := 0 to |events|
          invariant Valid() && turn == old(turn) && trail == Handled(old(trail), events, i)
        {
          var prepared := Prepare(events[i]);
        }
      }
      turn := turn + 1;
    }

    /** `_emit_prepared`: emits in order; the sink may raise, and then nothing after that point is emitted. */
    method EmitAll(ns: seq<Notification>) returns (ok: bool)
      requires Valid()
      modifies store, this`trail, this`turn, this`emitted, this`capacity
      ensures Valid() && (ok <==> |ns| <= old(capacity))
      ensures capacity == if ok then old(capacity) - |ns| else 0
      ensures emitted == old(emitted) + (if ok then ns else ns[..old(capacity)])
      ensures turn == old(turn) + (if ok then |ns| else old(capacity) + 1)
      ensures trail == Meanwhile(old(trail), turns, old(turn), turn)
    {
      for i := 0 to |ns|
        invariant Valid() && i <= old(capacity) && capacity == old(capacity) - i && turn == old(turn) + i
        invariant emitted == old(emitted) + ns[..i]
        invariant trail == Meanwhile(old(trail), turns, old(turn), turn)
      {
        TakeTurn();
        if capacity == 0 {
          return false;
        }
        capacity := capacity - 1;
        emitted := emitted + [ns[i]];
      }
      ok := true;
    }

    /** `handle_event`. */
    method HandleEvent(e: Event) returns (ok: bool)
      requires Valid()
      modifies store, this`trail, this`turn, this`emitted, this`capacity
      ensures Valid() && trail == Meanwhile(Then(old(trail), Handle(e)), turns, old(turn), turn)
      ensures Routed(registry, e) ==> ok && turn == old(turn) && emitted == old(emitted)
      ensures Routed(registry, e) ==> View() == Step(registry, old(View()), Log(e))
      ensures !Routed(registry, e) ==> (ok <==> old(capacity) > 0) && turn == old(turn) + 1
      ensures !Routed(registry, e) ==> emitted == old(emitted) + (if ok then [Notification([e])] else [])
    {
      var prepared := Prepare(e);
      ok := EmitAll(prepared);
    }

    /** One ready window: notifications first, and the record goes only when all went out. */
    method FlushWindow(w: Window) returns (ok: bool)
      requires Valid() && queue != [] && queue[0] == w
      modifies store, this`trail, this`turn, this`emitted, this`capacity, this`flushed, this`queue
      ensures Valid() && old(emitted) <= emitted && |emitted| + capacity == |old(emitted)| + old(capacity)
      ensures ok ==> queue == old(queue)[1..] && flushed == old(flushed) + KnownOnly(registry, [w])
      ensures ok ==> emitted == old(emitted) + NotesFor(registry, aggregate, w)
      ensures ok ==> turn == old(turn) + |NotesFor(registry, aggregate, w)|
      ensures ok ==> trail == Then(Meanwhile(old(trail), turns, old(turn), turn), Finish(0))
      ensures !ok ==> queue == old(queue) && flushed == old(flushed) && capacity == 0
      ensures ok <==> |NotesFor(registry, aggregate, w)| <= old(capacity)
      ensures ok && Known(registry, w) ==>
        emitted == old(emitted) + aggregate(w.group, w.events) && flushed == old(flushed) + [w]
      ensures ok && !Known(registry, w) ==> emitted == old(emitted) && flushed == old(flushed)
      ensures ok ==> forall v :: v in store.records ==> v.Slot() != w.Slot()
      ensures !ok ==> old(turn) < turn && trail == Meanwhile(old(trail), turns, old(turn), turn)
    {
      var notifications := NotesFor(registry, aggregate, w);
      ok := EmitAll(notifications);
      if !ok {
        return;
      }
      KnownOne(registry, w);
      DiscardMembers(store.records, w);
      flushed, queue, trail := flushed + KnownOnly(registry, [w]), queue[1..], Then(trail, Finish(0));
      store.DiscardWindow(w);
    }

    /** Flushes ready windows in order and stops where the sink raises: the windows before that
        point are gone and wholly emitted, all the others are still stored. */
    method FlushReadyWindows(block: int)
      returns (ok: bool, ghost ready: seq<Window>, ghost done: nat, ghost entry: Entry)
      requires Valid()
      modifies store, this`trail, this`turn, this`emitted, this`capacity, this`flushed, this`queue
      ensures ready == Ready(old(store.records), block)
      ensures entry.flushed == old(flushed) && entry.emitted == old(emitted) && entry.turn == old(turn)
      ensures entry.trail == Then(old(trail), Begin(0, block)) && entry.total == |old(emitted)| + old(capacity)
      ensures if ok then done == |ready| && AllSent(ready, done, entry) else StuckAt(ready, done, entry)
      ensures ok ==> SentSince(old(flushed), old(emitted))
      ensures ok ==> forall w :: w in flushed[|old(flushed)|..] <==>
        w in old(store.records) && w.end <= block && Known(registry, w)
      ensures old(flushed) <= flushed && old(emitted) + Reports(aggregate, flushed[|old(flushed)|..]) <= emitted
      ensures old(emitted) <= emitted && SortedBy(WindowLeq, flushed[|old(flushed)|..])
      ensures old(Announced()) ==> Announced()
    {
      var windows := Snapshot(block);
      ready := windows;
      entry := Entry(flushed, emitted, turn, trail, |emitted| + capacity);
      ok, done := SendAll(windows, entry);
      WhatWasSent(old(store.records), block, ready, done, entry);
    }

    /** The first i windows of a flush have gone, with all their notifications and nothing else. */
    ghost predicate AllSent(ready: seq<Window>, i: nat, b: Entry)
      reads this, store
    {
      && Valid() && i <= |ready| && queue == ready[i..]
      && flushed == b.flushed + KnownFirst(registry, ready, i)
      && emitted == b.emitted + Sent(registry, aggregate, ready, i)
      && turn == TurnAfter(registry, aggregate, b.turn, ready, i) && |emitted| + capacity == b.total
      && trail == Flushed(registry, aggregate, b.trail, turns, b.turn, ready, i)
    }

    /** The sink raised in the middle of the next one, and the flush was left. */
    ghost predicate StuckAt(ready: seq<Window>, i: nat, b: Entry)
      reads this, store
    {
      && Valid() && i < |ready| && queue == []
      && flushed == b.flushed + KnownFirst(registry, ready, i)
      && b.emitted + Sent(registry, aggregate, ready, i) <= emitted && |emitted| == b.total
      && |b.emitted| + |Sent(registry, aggregate, ready, i + 1)| > b.total
      && turn > TurnAfter(registry, aggregate, b.turn, ready, i)
      && trail == Then(Meanwhile(Flushed(registry, aggregate, b.trail, turns, b.turn, ready, i), turns,
                         TurnAfter(registry, aggregate, b.turn, ready, i), turn), Raise(0))
    }

    /** The ready windows in flush order. */
    method Snapshot(block: int) returns (ready: seq<Window>)
      requires Valid()
      modifies this`trail, this`queue
      ensures Valid() && queue == ready == Ready(store.records, block) && trail == Then(old(trail), Begin(0, block))
    {
      ready := Sort(WindowLeq, EndingBy(store.records, block));
      queue, trail := ready, Then(trail, Begin(0, block));
    }

    ghost method Abandon()
      requires Valid()
      modifies this`trail, this`queue
      ensures Valid() && queue == [] && trail == Then(old(trail), Raise(0))
    {
      queue, trail := [], Then(trail, Raise(0));
    }

    /** `handle_block`, after which the caller advances the checkpoint when it did not raise. Unless events at
        or below the block come in meanwhile, it is the atomic flush followed by the events that came. */
    method HandleBlock(block: int) returns (ok: bool)
      requires Valid()
      modifies store, this`trail, this`turn, this`emitted, this`capacity, this`flushed, this`queue
      ensures Valid() && queue == [] && old(turn) <= turn && old(emitted) <= emitted
      ensures ok <==> |AllNotes(registry, aggregate, old(store.records), block)| <= old(capacity)
      ensures ok ==> emitted == old(emitted) + AllNotes(registry, aggregate, old(store.records), block)
      ensures !ok ==> |emitted| == |old(emitted)| + old(capacity)
      ensures old(flushed) <= flushed && old(emitted) + Reports(aggregate, flushed[|old(flushed)|..]) <= emitted
      ensures ok ==> SentSince(old(flushed), old(emitted))
      ensures ok ==> forall w :: w in flushed[|old(flushed)|..] <==>
        w in old(store.records) && w.end <= block && Known(registry, w)
      ensures SortedBy(WindowLeq, flushed[|old(flushed)|..])
      ensures forall e :: InTrail(old(trail), e) ==> InTrail(trail, e)
      ensures old(Announced()) ==> Announced()
      ensures ok && AllAbove(turns, old(turn), turn, block) ==>
        View() == RunFrom(registry, Step(registry, old(View()), Mark(block)), TurnLogs(turns, old(turn), turn))
    {
      ghost var base := trail;
      ghost var ready, done, b;
      ok, ready, done, b := FlushReadyWindows(block);
      RoomForAll(ready, done, b);
      if ok && AllAbove(turns, b.turn, turn, block) {
        FlushIsAtomic(registry, aggregate, start, base, turns, b.turn, ready, block, trail, turn);
      }
      FlushRemembers(base, b, ready, done);
    }

    /** A flush gets through exactly when the sink has room for everything that is ready. */
    lemma RoomForAll(ready: seq<Window>, done: nat, b: Entry)
      requires (AllSent(ready, done, b) && done == |ready|) || StuckAt(ready, done, b)
      ensures done == |ready| <==> |b.emitted| + |Sent(registry, aggregate, ready, |ready|)| <= b.total
      ensures done == |ready| ==> emitted == b.emitted + Sent(registry, aggregate, ready, |ready|)
    {
      if done < |ready| { SentGrows(registry, aggregate, ready, done + 1, |ready|); }
    }

    /** What a flush has sent and discarded, however it ended. */
    lemma WhatWasSent(records: seq<Window>, block: int, ready: seq<Window>, done: nat, b: Entry)
      requires ready == Ready(records, block)
      requires (AllSent(ready, done, b) && done == |ready|) || StuckAt(ready, done, b)
      ensures done == |ready| ==> SentSince(b.flushed, b.emitted)
      ensures done == |ready| ==>
        forall w :: w in flushed[|b.flushed|..] <==> w in records && w.end <= block && Known(registry, w)
      ensures b.emitted <= emitted && b.flushed <= flushed && SortedBy(WindowLeq, flushed[|b.flushed|..])
      ensures b.emitted + Reports(aggregate, flushed[|b.flushed|..]) <= emitted
      ensures (forall w, n :: w in b.flushed && n in aggregate(w.group, w.events) ==> n in b.emitted) ==> Announced()
    {
      FlushedReports(registry, aggregate, ready, done, b, flushed, emitted);
      SnapshotIs(records, block, ready);
      assert ready[..|ready|] == ready;
      if forall w, n :: w in b.flushed && n in aggregate(w.group, w.events) ==> n in b.emitted {
        AllAnnounced(registry, aggregate, ready, done, b, flushed, emitted);
      }
    }

    /** What was handed over before a flush was handed over after it. */
    lemma FlushRemembers(base: Trail, b: Entry, ready: seq<Window>, done: nat)
      requires AllSent(ready, done, b) || StuckAt(ready, done, b)
      requires b.trail.Then? && base == b.trail.before
      ensures forall e :: InTrail(base, e) ==> InTrail(trail, e)
    {
      forall e | InTrail(base, e) ensures InTrail(trail, e) {
        FlushedRemembers(registry, aggregate, b.trail, turns, b.turn, ready, done, e);
        MeanwhileRemembers(Flushed(registry, aggregate, b.trail, turns, b.turn, ready, done), turns,
          TurnAfter(registry, aggregate, b.turn, ready, done), turn, e);
      }
    }

    /** The loop over the snapshot. */
    method SendAll(ready: seq<Window>, ghost b: Entry) returns (ok: bool, ghost done: nat)
      requires Valid() && queue == ready && b == Entry(flushed, emitted, turn, trail, |emitted| + capacity)
      modifies store, this`trail, this`turn, this`emitted, this`capacity, this`flushed, this`queue
      ensures if ok then done == |ready| && AllSent(ready, done, b) else StuckAt(ready, done, b)
    {
      done := 0;
      NoneSent(ready, b);
      for i := 0 to |ready|
        invariant done == i && AllSent(ready, i, b)
      {
        ok := SendNext(ready, i, b);
        if !ok {
          return;
        }
        done := done + 1;
      }
      ok := true;
    }

    lemma NoneSent(ready: seq<Window>, b: Entry)
      requires Valid() && queue == ready && b == Entry(flushed, emitted, turn, trail, |emitted| + capacity)
      ensures AllSent(ready, 0, b)
    {
      assert ready[0..] == ready;
    }

    /** One pass of the loop. */
    method SendNext(ready: seq<Window>, i: nat, ghost b: Entry) returns (ok: bool)
      requires i < |ready| && AllSent(ready, i, b)
      modifies store, this`trail, this`turn, this`emitted, this`capacity, this`flushed, this`queue
      ensures if ok then AllSent(ready, i + 1, b) else StuckAt(ready, i, b)
    {
      ok := FlushWindow(ready[i]);
      if ok {
        assert ready[i..][1..] == ready[i + 1..];
        Regroup(b.flushed, KnownFirst(registry, ready, i), KnownOnly(registry, [ready[i]]));
        Regroup(b.emitted, Sent(registry, aggregate, ready, i), NotesFor(registry, aggregate, ready[i]));
      } else {
        Abandon();
      }
    }
  }

  // ---------------------------------------------------------------- a flush that nobody disturbs

  ghost predicate TurnAbove(turn: seq<Event>, block: int) {
    forall k :: 0 <= k < |turn| ==> turn[k].block > block
  }

  /** Every event in the turns from a up to b lies above the block. */
  ghost predicate AllAbove(turns: seq<seq<Event>>, a: nat, b: nat, block: int) {
    a < b ==> AllAbove(turns, a, b - 1, block) && (b - 1 < |turns| ==> TurnAbove(turns[b - 1], block))
  }

  lemma {:induction false} AllAboveSplit(turns: seq<seq<Event>>, a: nat, b: nat, c: nat, block: int)
    requires a <= b <= c && AllAbove(turns, a, c, block)
    ensures AllAbove(turns, a, b, block) && AllAbove(turns, b, c, block)
    decreases c
  {
    if b < c { AllAboveSplit(turns, a, b, c - 1, block); }
  }

  function LogsIn(turn: seq<Event>, n: nat): seq<Item>
    requires n <= |turn|
  {
    if n == 0 then [] else LogsIn(turn, n - 1) + [Log(turn[n - 1])]
  }

  /** The events in the turns from a up to b. */
  function TurnLogs(turns: seq<seq<Event>>, a: nat, b: nat): seq<Item> {
    if b <= a then []
    else TurnLogs(turns, a, b - 1) + (if b - 1 < |turns| then LogsIn(turns[b - 1], |turns[b - 1]|) else [])
  }

  lemma {:induction false} TurnLogsSplit(turns: seq<seq<Event>>, a: nat, b: nat, c: nat)
    requires a <= b <= c
    ensures TurnLogs(turns, a, c) == TurnLogs(turns, a, b) + TurnLogs(turns, b, c)
    decreases c
  {
    if b < c { TurnLogsSplit(turns, a, b, c - 1); }
  }

  lemma {:induction false} HandledAhead(base: Trail, trail: Trail, turn: seq<Event>, n: nat, block: int)
    requires n <= |turn| && Ahead(base, trail, 0, block) && TurnAbove(turn, block)
    ensures Ahead(base, Handled(trail, turn, n), 0, block)
    ensures Since(base, Handled(trail, turn, n)) == Since(base, trail) + LogsIn(turn, n)
  {
    if n > 0 {
      HandledAhead(base, trail, turn, n - 1, block);
      Begun(base, Handled(trail, turn, n), 0, block);
      Regroup(Since(base, trail), LogsIn(turn, n - 1), [Log(turn[n - 1])]);
    }
  }

  lemma {:induction false} MeanwhileAhead(base: Trail, trail: Trail, turns: seq<seq<Event>>, a: nat, b: nat, block: int)
    requires Ahead(base, trail, 0, block) && AllAbove(turns, a, b, block)
    ensures Ahead(base, Meanwhile(trail, turns, a, b), 0, block)
    ensures Since(base, Meanwhile(trail, turns, a, b)) == Since(base, trail) + TurnLogs(turns, a, b)
    decreases b
  {
    if a < b {
      MeanwhileAhead(base, trail, turns, a, b - 1, block);
      if b - 1 < |turns| {
        HandledAhead(base, Meanwhile(trail, turns, a, b - 1), turns[b - 1], |turns[b - 1]|, block);
        Regroup(Since(base, trail), TurnLogs(turns, a, b - 1), LogsIn(turns[b - 1], |turns[b - 1]|));
      }
    }
  }

  /** Since `base` the flush up to the block went on undisturbed, and these events came in. */
  ghost predicate Undisturbed(base: Trail, trail: Trail, block: int, events: seq<Item>) {
    Ahead(base, trail, 0, block) && Since(base, trail) == events
  }

  lemma {:induction false} WindowSince(base: Trail, trail: Trail, turns: seq<seq<Event>>, turn: nat, a: nat, b: nat,
        block: int, next: Trail)
    requires Undisturbed(base, trail, block, TurnLogs(turns, turn, a))
    requires turn <= a <= b && AllAbove(turns, turn, b, block) && next == Then(Meanwhile(trail, turns, a, b), Finish(0))
    ensures Undisturbed(base, next, block, TurnLogs(turns, turn, b))
  {
    AllAboveSplit(turns, turn, a, b, block);
    MeanwhileAhead(base, trail, turns, a, b, block);
    Begun(base, next, 0, block);
    TurnLogsSplit(turns, turn, a, b);
  }

  lemma {:induction false} FlushedNext(registry: seq<Aggregator>, aggregate: Aggregation, first: Trail,
        turns: seq<seq<Event>>, turn: nat, ws: seq<Window>, n: nat) returns (before: Trail, a: nat, b: nat)
    requires 0 < n <= |ws|
    ensures before == Flushed(registry, aggregate, first, turns, turn, ws, n - 1)
    ensures a == TurnAfter(registry, aggregate, turn, ws, n - 1)
    ensures b == TurnAfter(registry, aggregate, turn, ws, n) && a <= b
    ensures Flushed(registry, aggregate, first, turns, turn, ws, n) == Then(Meanwhile(before, turns, a, b), Finish(0))
  {
    before := Flushed(registry, aggregate, first, turns, turn, ws, n - 1);
    a, b := TurnAfter(registry, aggregate, turn, ws, n - 1), TurnAfter(registry, aggregate, turn, ws, n);
  }

  lemma {:induction false} NextWindowSince(registry: seq<Aggregator>, aggregate: Aggregation, base: Trail, first: Trail,
        turns: seq<seq<Event>>, turn: nat, ws: seq<Window>, n: nat, block: int)
    requires 0 < n <= |ws| && AllAbove(turns, turn, TurnAfter(registry, aggregate, turn, ws, n), block)
    requires Undisturbed(base, Flushed(registry, aggregate, first, turns, turn, ws, n - 1), block,
               TurnLogs(turns, turn, TurnAfter(registry, aggregate, turn, ws, n - 1)))
    ensures Undisturbed(base, Flushed(registry, aggregate, first, turns, turn, ws, n), block,
              TurnLogs(turns, turn, TurnAfter(registry, aggregate, turn, ws, n)))
  {
    var before, a, b := FlushedNext(registry, aggregate, first, turns, turn, ws, n);
    WindowSince(base, before, turns, turn, a, b, block, Then(Meanwhile(before, turns, a, b), Finish(0)));
  }

  lemma {:induction false} AboveBefore(registry: seq<Aggregator>, aggregate: Aggregation, turns: seq<seq<Event>>,
        turn: nat, ws: seq<Window>, n: nat, block: int)
    requires 0 < n <= |ws| && AllAbove(turns, turn, TurnAfter(registry, aggregate, turn, ws, n), block)
    ensures AllAbove(turns, turn, TurnAfter(registry, aggregate, turn, ws, n - 1), block)
  {
    AllAboveSplit(turns, turn, TurnAfter(registry, aggregate, turn, ws, n - 1),
      TurnAfter(registry, aggregate, turn, ws, n), block);
  }

  lemma {:induction false} FlushedSince(registry: seq<Aggregator>, aggregate: Aggregation, base: Trail, first: Trail,
        turns: seq<seq<Event>>, turn: nat, ws: seq<Window>, n: nat, block: int)
    requires n <= |ws| && Undisturbed(base, first, block, [])
    requires AllAbove(turns, turn, TurnAfter(registry, aggregate, turn, ws, n), block)
    ensures Undisturbed(base, Flushed(registry, aggregate, first, turns, turn, ws, n), block,
              TurnLogs(turns, turn, TurnAfter(registry, aggregate, turn, ws, n)))
    decreases n
  {
    if n > 0 {
      AboveBefore(registry, aggregate, turns, turn, ws, n, block);
      FlushedSince(registry, aggregate, base, first, turns, turn, ws, n - 1, block);
      NextWindowSince(registry, aggregate, base, first, turns, turn, ws, n, block);
    }
  }

  /** A flush that gets through, with only events above its block meanwhile. */
  lemma {:induction false} FlushIsAtomic(registry: seq<Aggregator>, aggregate: Aggregation, start: Flow, base: Trail,
        turns: seq<seq<Event>>, turn: nat, ws: seq<Window>, block: int, trail: Trail, end: nat)
    requires ValidRegistry(registry) && Reached(registry, start, trail).Queue(0) == []
    requires trail == Flushed(registry, aggregate, Then(base, Begin(0, block)), turns, turn, ws, |ws|)
    requires end == TurnAfter(registry, aggregate, turn, ws, |ws|) && AllAbove(turns, turn, end, block)
    ensures var before, after := Reached(registry, start, base), Reached(registry, start, trail);
            Book(after.store, after.sent)
              == RunFrom(registry, Step(registry, Book(before.store, before.sent), Mark(block)),
                   TurnLogs(turns, turn, end))
  {
    var first := Then(base, Begin(0, block));
    assert Undisturbed(base, first, block, []);
    FlushedSince(registry, aggregate, base, first, turns, turn, ws, |ws|, block);
    AheadIsAtomic(registry, start, base, trail, 0, block, TurnLogs(turns, turn, end));
  }

  /** What a flush finds when it begins; `total` is what will have been emitted when the sink raises. */
  datatype Entry = Entry(flushed: seq<Window>, emitted: seq<Notification>, turn: nat, trail: Trail, total: nat)

  lemma {:induction false} Regroup<T>(a: seq<T>, b: seq<T>, c: seq<T>)
    ensures (a + b) + c == a + (b + c)
  {
  }

  lemma {:induction false} SentCovers(registry: seq<Aggregator>, aggregate: Aggregation, ws: seq<Window>, n: nat,
        w: Window, note: Notification)
    requires n <= |ws| && w in KnownFirst(registry, ws, n) && note in aggregate(w.group, w.events)
    ensures note in Sent(registry, aggregate, ws, n)
  {
    if w in KnownFirst(registry, ws, n - 1) {
      SentCovers(registry, aggregate, ws, n - 1, w, note);
    } else {
      assert w in KnownOnly(registry, [ws[n - 1]]);
      assert KnownOnly(registry, [ws[n - 1]][1..]) == [];
    }
  }

  /** Notifications that were all out stay so when more windows are sent. */
  lemma {:induction false} AllAnnounced(registry: seq<Aggregator>, aggregate: Aggregation, ready: seq<Window>,
          done: nat,
        b: Entry, flushed: seq<Window>, emitted: seq<Notification>)
    requires done <= |ready| && flushed == b.flushed + KnownFirst(registry, ready, done)
    requires b.emitted + Sent(registry, aggregate, ready, done) <= emitted
    requires forall w, n :: w in b.flushed && n in aggregate(w.group, w.events) ==> n in b.emitted
    ensures forall w, n :: w in flushed && n in aggregate(w.group, w.events) ==> n in emitted
  {
    var sent := b.emitted + Sent(registry, aggregate, ready, done);
    assert emitted == sent + emitted[|sent|..];
    forall w, n | w in flushed && n in aggregate(w.group, w.events) ensures n in emitted {
      if w !in b.flushed { SentCovers(registry, aggregate, ready, done, w, n); }
      assert n in sent;
    }
  }

  /** What went out since a flush began, window by window. */
  lemma {:induction false} FlushedReports(registry: seq<Aggregator>, aggregate: Aggregation, ready: seq<Window>,
          done: nat, b: Entry, flushed: seq<Window>, emitted: seq<Notification>)
    requires done <= |ready| && flushed == b.flushed + KnownFirst(registry, ready, done)
    requires b.emitted + Sent(registry, aggregate, ready, done) <= emitted
    ensures b.flushed <= flushed && flushed[|b.flushed|..] == KnownFirst(registry, ready, done)
    ensures b.emitted + Reports(aggregate, flushed[|b.flushed|..]) <= emitted
    ensures emitted == b.emitted + Sent(registry, aggregate, ready, done) ==>
      emitted == b.emitted + Reports(aggregate, flushed[|b.flushed|..])
    ensures forall w :: w in flushed[|b.flushed|..] <==> w in ready[..done] && Known(registry, w)
    ensures SortedBy(WindowLeq, ready) ==> SortedBy(WindowLeq, flushed[|b.flushed|..])
  {
    SentIsReports(registry, aggregate, ready, done);
    KnownFirstMembers(registry, ready, done);
    if SortedBy(WindowLeq, ready) { KnownFirstSorted(registry, ready, done); }
  }

  lemma {:induction false} SnapshotIs(store: seq<Window>, block: int, ready: seq<Window>)
    requires ready == Ready(store, block)
    ensures SortedBy(WindowLeq, ready) && forall w :: w in ready <==> w in store && w.end <= block
  {
    WindowLeqIsPreorder();
    SortSorts(WindowLeq, EndingBy(store, block));
    ReadyMembers(store, block);
  }

  // ---------------------------------------------------------------- what the trail remembers

  lemma {:induction false} HandledRemembers(trail: Trail, turn: seq<Event>, n: nat, e: Event)
    requires n <= |turn| && InTrail(trail, e)
    ensures InTrail(Handled(trail, turn, n), e)
  {
    if n > 0 { HandledRemembers(trail, turn, n - 1, e); }
  }

  lemma {:induction false} MeanwhileRemembers(trail: Trail, turns: seq<seq<Event>>, a: nat, b: nat, e: Event)
    requires InTrail(trail, e)
    ensures InTrail(Meanwhile(trail, turns, a, b), e)
    decreases b
  {
    if a < b {
      MeanwhileRemembers(trail, turns, a, b - 1, e);
      if b - 1 < |turns| { HandledRemembers(Meanwhile(trail, turns, a, b - 1), turns[b - 1], |turns[b - 1]|, e); }
    }
  }

  lemma {:induction false} FlushedRemembers(registry: seq<Aggregator>, aggregate: Aggregation, trail: Trail,
        turns: seq<seq<Event>>, turn: nat, ws: seq<Window>, n: nat, e: Event)
    requires n <= |ws| && InTrail(trail, e)
    ensures InTrail(Flushed(registry, aggregate, trail, turns, turn, ws, n), e)
  {
    if n > 0 {
      var before, a, b := FlushedNext(registry, aggregate, trail, turns, turn, ws, n);
      FlushedRemembers(registry, aggregate, trail, turns, turn, ws, n - 1, e);
      MeanwhileRemembers(before, turns, a, b, e);
    }
  }
}
