/** Logs handed over in any order at all: exactly when the windows that come out are still the ones the
    chain declares, as a check before each log is handed over
    (sentinel/services/aggregation.py, sentinel/modules/aggregation.py). */
module Placement {
  import opened Events
  import opened Sorting
  import opened Windows
  import opened Partition
  import opened Batching
  import opened Coverage
  import opened ChainWindows
  import opened Flows

  // ---------------------------------------------------------------- the check

  /** A log of that aggregator and key in that block was handed over. */
  ghost predicate Came(registry: seq<Aggregator>, p: seq<Item>, a: Aggregator, key: Key, block: int) {
    exists e :: Log(e) in p && Takes(registry, a, key, e) && e.block == block
  }

  /** Where the chain's window of the event starts. */
  function HomeOf(registry: seq<Aggregator>, chain: seq<Event>, base: int, e: Event): Option<int>
    requires Routed(registry, e)
  {
    var a := RouteOf(registry, e.name).value;
    LastOpen(registry, chain, a, a.KeyFor(e), base, e.block)
  }

  /** The check before a log is handed over: its window is not flushed yet, and it opens that window
      itself or a log of the window's first block came before it. */
  ghost predicate Placed(registry: seq<Aggregator>, chain: seq<Event>, base: int, p: seq<Item>, e: Event) {
    Routed(registry, e) ==>
      var a, home := RouteOf(registry, e.name).value, HomeOf(registry, chain, base, e);
      && home.Some? && home.value + a.windowBlocks - 1 > CheckpointFrom(base, p)
      && (home.value == e.block || Came(registry, p, a, a.KeyFor(e), home.value))
  }

  ghost predicate InPlace(registry: seq<Aggregator>, chain: seq<Event>, base: int, p: seq<Item>) {
    forall j :: 0 <= j < |p| && p[j].Log? ==> Placed(registry, chain, base, p[..j], p[j].event)
  }

  lemma {:induction false} InPlaceSnoc(registry: seq<Aggregator>, chain: seq<Event>, base: int, p: seq<Item>, x: Item)
    ensures InPlace(registry, chain, base, p + [x]) <==>
      InPlace(registry, chain, base, p) && (x.Log? ==> Placed(registry, chain, base, p, x.event))
  {
    var s := p + [x];
    assert forall j :: 0 <= j < |p| ==> s[j] == p[j] && s[..j] == p[..j];
    assert s[|p|] == x && s[..|p|] == p;
    if InPlace(registry, chain, base, s) {
      forall j | 0 <= j < |p| && p[j].Log? ensures Placed(registry, chain, base, p[..j], p[j].event) {
        assert Placed(registry, chain, base, s[..j], s[j].event);
      }
    }
  }

  // ---------------------------------------------------------------- the windows of a chain

  /** The window starts where the chain declares one of that aggregator. */
  ghost predicate StartsBy(registry: seq<Aggregator>, chain: seq<Event>, base: int, a: Aggregator, w: Window) {
    && w.group == a.group && w.end == w.start + a.windowBlocks - 1 && w.names == a.names
    && Opens(registry, chain, a, w.key, base, w.start)
  }

  /** A pending window: one the chain declares, not due yet, with exactly its logs that came. */
  ghost predicate PendingBy(registry: seq<Aggregator>, chain: seq<Event>, base: int, p: seq<Item>, a: Aggregator,
                            w: Window)
  {
    && StartsBy(registry, chain, base, a, w) && w.end > CheckpointFrom(base, p)
    && Came(registry, p, a, w.key, w.start)
    && forall e :: e in w.events <==> Log(e) in p && Takes(registry, a, w.key, e) && w.Contains(e.block)
  }

  ghost predicate Pending(registry: seq<Aggregator>, chain: seq<Event>, base: int, p: seq<Item>, w: Window) {
    exists a :: a in registry && PendingBy(registry, chain, base, p, a, w)
  }

  /** The store has exactly the windows that are open. */
  ghost predicate StoreIs(registry: seq<Aggregator>, chain: seq<Event>, base: int, p: seq<Item>, store: seq<Window>) {
    && Settled(registry, store) && (forall w :: w in store ==> Pending(registry, chain, base, p, w))
    && OpenListed(registry, chain, base, p, store)
  }

  ghost predicate OpenListed(registry: seq<Aggregator>, chain: seq<Event>, base: int, p: seq<Item>, store: seq<Window>)
  {
    forall a, key, s ::
      (a in registry && Opens(registry, chain, a, key, base, s) && Came(registry, p, a, key, s)
       && s + a.windowBlocks - 1 > CheckpointFrom(base, p))
      ==> Listed(store, a, key, s)
  }

  /** What was flushed is exactly the declared windows up to a block, each with exactly its logs, once, in
      flush order. */
  ghost predicate FlushedIs(registry: seq<Aggregator>, chain: seq<Event>, base: int, done: int, ws: seq<Window>) {
    && (forall w :: w in ws ==> w.end <= done && Declared(registry, chain, base, w))
    && (forall a, key, s :: a in registry && Opens(registry, chain, a, key, base, s) && s + a.windowBlocks - 1 <= done
         ==> Listed(ws, a, key, s))
    && InFlushOrder(ws)
  }

  ghost predicate InFlushOrder(ws: seq<Window>) {
    forall i, j :: 0 <= i < j < |ws| ==> WindowLeq(ws[i], ws[j]) && ws[i].Slot() != ws[j].Slot()
  }

  /** The logs handed over are the chain's, above the base, and marks come after the logs they claim. */
  ghost predicate Answered(chain: seq<Event>, base: int, p: seq<Item>) {
    FromChain(chain, base, p) && MarksCover(chain, base, p)
  }

  lemma {:induction false} AnsweredFront(chain: seq<Event>, base: int, p: seq<Item>, x: Item)
    requires Answered(chain, base, p + [x])
    ensures Answered(chain, base, p)
    ensures x.Log? ==> x.event in chain && x.event.block > base
    ensures x.Mark? ==> forall e :: e in chain && base < e.block <= x.number ==> Log(e) in p
  {
    var s := p + [x];
    MarksCoverPrefix(chain, base, p, s);
    assert forall j :: 0 <= j < |p| ==> s[j] == p[j];
    assert s[|p|] == x && s[..|p|] == p;
    if x.Mark? {
      forall e | e in chain && base < e.block <= x.number ensures Log(e) in p {
        assert Due(e, s[|p|]);
      }
    }
  }

  lemma {:induction false} CameIn(chain: seq<Event>, base: int, p: seq<Item>, e: Event)
    requires FromChain(chain, base, p) && Log(e) in p
    ensures e in chain && e.block > base
  {
    var j :| 0 <= j < |p| && p[j] == Log(e);
    assert p[j].event == e;
  }

  lemma {:induction false} CameSnoc(registry: seq<Aggregator>, p: seq<Item>, x: Item, a: Aggregator, key: Key,
        block: int)
    ensures Came(registry, p + [x], a, key, block) <==>
      Came(registry, p, a, key, block) || (x.Log? && Takes(registry, a, key, x.event) && x.event.block == block)
  {
    if e :| Log(e) in p && Takes(registry, a, key, e) && e.block == block { assert Log(e) in p + [x]; }
    if x.Log? { assert Log(x.event) in p + [x]; }
  }

  lemma {:induction false} CheckpointSnoc(base: int, p: seq<Item>, x: Item)
    ensures CheckpointFrom(base, p + [x]) ==
      if x.Mark? && x.number > CheckpointFrom(base, p) then x.number else CheckpointFrom(base, p)
  {
    assert (p + [x])[..|p|] == p;
  }

  /** The window of an event is the declared one that contains its block. */
  lemma {:induction false} HomeIs(registry: seq<Aggregator>, chain: seq<Event>, base: int, e: Event, s: int)
    requires ValidRegistry(registry) && Routed(registry, e) && e in chain && e.block > base
    ensures var a, home := RouteOf(registry, e.name).value, HomeOf(registry, chain, base, e);
            && home.Some? && base < home.value <= e.block < home.value + a.windowBlocks
            && Opens(registry, chain, a, a.KeyFor(e), base, home.value)
            && (s <= e.block < s + a.windowBlocks && Opens(registry, chain, a, a.KeyFor(e), base, s) ==>
              s == home.value)
  {
    var a := RouteOf(registry, e.name).value;
    var key := a.KeyFor(e);
    EventHasWindow(registry, chain, a, key, base, e);
    LastOpenOpens(registry, chain, a, key, base, e.block);
    var home := HomeOf(registry, chain, base, e).value;
    if Opens(registry, chain, a, key, base, s) && s <= e.block < s + a.windowBlocks {
      if s < home { WindowsApart(registry, chain, a, key, base, s, home); }
      if home < s { WindowsApart(registry, chain, a, key, base, home, s); }
    }
  }

  /** Of every log handed over, one of the first block of its window was. */
  lemma {:induction false} HomeCame(registry: seq<Aggregator>, chain: seq<Event>, base: int, p: seq<Item>, e: Event)
    requires InPlace(registry, chain, base, p) && Log(e) in p && Routed(registry, e)
    ensures var a, home := RouteOf(registry, e.name).value, HomeOf(registry, chain, base, e);
            home.Some? && Came(registry, p, a, a.KeyFor(e), home.value)
  {
    var j :| 0 <= j < |p| && p[j] == Log(e);
    assert Placed(registry, chain, base, p[..j], p[j].event);
    var a, home := RouteOf(registry, e.name).value, HomeOf(registry, chain, base, e);
    if home.value == e.block {
      assert Takes(registry, a, a.KeyFor(e), e);
    } else {
      var f :| Log(f) in p[..j] && Takes(registry, a, a.KeyFor(e), f) && f.block == home.value;
      assert Log(f) in p;
    }
  }

  // ---------------------------------------------------------------- a log

  /** A pending window that fits the event is the event's own. */
  lemma {:induction false} FitsHome(registry: seq<Aggregator>, chain: seq<Event>, base: int, p: seq<Item>, w: Window,
        e: Event)
    requires ValidRegistry(registry) && OnePerGroup(registry) && e in chain && e.block > base
    requires Pending(registry, chain, base, p, w) && Fits(registry, w, e)
    ensures var a := RouteOf(registry, e.name).value;
            && PendingBy(registry, chain, base, p, a, w) && Takes(registry, a, w.key, e)
            && HomeOf(registry, chain, base, e) == Some(w.start)
  {
    var a :| a in registry && PendingBy(registry, chain, base, p, a, w);
    FitsIsTakes(registry, a, w, e);
    HomeIs(registry, chain, base, e, w.start);
  }

  /** A window that does not take the event stays as it is. */
  lemma {:induction false} OthersStay(registry: seq<Aggregator>, chain: seq<Event>, base: int, p: seq<Item>, w: Window,
        e: Event)
    requires OnePerGroup(registry) && Pending(registry, chain, base, p, w) && !Fits(registry, w, e)
    ensures Pending(registry, chain, base, p + [Log(e)], w)
  {
    var a :| a in registry && PendingBy(registry, chain, base, p, a, w);
    FitsIsTakes(registry, a, w, e);
    CheckpointSnoc(base, p, Log(e));
    CameSnoc(registry, p, Log(e), a, w.key, w.start);
    assert PendingBy(registry, chain, base, p + [Log(e)], a, w);
  }

  /** The one that takes it holds it too, once. */
  lemma {:induction false} Joins(registry: seq<Aggregator>, chain: seq<Event>, base: int, p: seq<Item>, w: Window,
        e: Event)
    requires ValidRegistry(registry) && OnePerGroup(registry) && ChainOrdered(chain) && FromChain(chain, base, p)
    requires e in chain && e.block > base && Pending(registry, chain, base, p, w) && Fits(registry, w, e)
    ensures Pending(registry, chain, base, p + [Log(e)], w.WithEvent(e))
  {
    FitsHome(registry, chain, base, p, w, e);
    var a, v, q := RouteOf(registry, e.name).value, w.WithEvent(e), p + [Log(e)];
    CheckpointSnoc(base, p, Log(e));
    CameSnoc(registry, p, Log(e), a, w.key, w.start);
    if w.Has(e) {
      var i :| 0 <= i < |w.events| && w.events[i].Identity() == e.Identity();
      assert w.events[i] in w.events;
      CameIn(chain, base, p, w.events[i]);
      SameIdentity(chain, w.events[i], e);
    } else {
      assert v.events == w.events + [e];
    }
    assert PendingBy(registry, chain, base, q, a, v);
  }

  lemma {:induction false} SameIdentity(chain: seq<Event>, x: Event, y: Event)
    requires ChainOrdered(chain) && x in chain && y in chain && x.Identity() == y.Identity()
    ensures x == y
  {
    var i :| 0 <= i < |chain| && chain[i] == x;
    var j :| 0 <= j < |chain| && chain[j] == y;
    assert !(i < j) && !(j < i);
  }

  /** When nothing takes a log in its place, it opens its window. */
  lemma {:induction false} OpensHome(registry: seq<Aggregator>, chain: seq<Event>, base: int, p: seq<Item>,
        store: seq<Window>, e: Event)
    requires ValidRegistry(registry) && OnePerGroup(registry) && FromChain(chain, base, p)
    requires StoreIs(registry, chain, base, p, store) && InPlace(registry, chain, base, p)
    requires e in chain && e.block > base && Routed(registry, e) && Placed(registry, chain, base, p, e)
    requires forall i :: 0 <= i < |store| ==> !Fits(registry, store[i], e)
    ensures var a := RouteOf(registry, e.name).value;
            PendingBy(registry, chain, base, p + [Log(e)], a, a.Open(e).WithEvent(e))
    ensures HomeOf(registry, chain, base, e) == Some(e.block)
  {
    var a, q := RouteOf(registry, e.name).value, p + [Log(e)];
    var key, home := a.KeyFor(e), HomeOf(registry, chain, base, e).value;
    HomeIs(registry, chain, base, e, home);
    NotCame(registry, chain, base, p, store, e);
    assert home == e.block;
    CheckpointSnoc(base, p, Log(e));
    CameSnoc(registry, p, Log(e), a, key, home);
    var w := a.Open(e).WithEvent(e);
    assert w.events == [e];
    forall f | Log(f) in p && Takes(registry, a, key, f) && w.Contains(f.block) ensures false {
      CameIn(chain, base, p, f);
      HomeIs(registry, chain, base, f, home);
      HomeCame(registry, chain, base, p, f);
      assert Came(registry, p, a, key, home);
    }
  }

  /** When nothing takes a log whose window is not flushed, no log of the window's first block came. */
  lemma {:induction false} NotCame(registry: seq<Aggregator>, chain: seq<Event>, base: int, p: seq<Item>,
        store: seq<Window>, e: Event)
    requires ValidRegistry(registry) && OnePerGroup(registry) && StoreIs(registry, chain, base, p, store)
    requires e in chain && e.block > base && Routed(registry, e)
    requires forall i :: 0 <= i < |store| ==> !Fits(registry, store[i], e)
    ensures var a, home := RouteOf(registry, e.name).value, HomeOf(registry, chain, base, e);
            && home.Some?
            && (home.value + a.windowBlocks - 1 > CheckpointFrom(base, p) ==>
                 !Came(registry, p, a, a.KeyFor(e), home.value))
  {
    var a := RouteOf(registry, e.name).value;
    var key, home := a.KeyFor(e), HomeOf(registry, chain, base, e);
    HomeIs(registry, chain, base, e, e.block);
    if home.value + a.windowBlocks - 1 > CheckpointFrom(base, p) && Came(registry, p, a, key, home.value) {
      assert Listed(store, a, key, home.value);
      var i :| 0 <= i < |store| && store[i].group == a.group && store[i].key == key && store[i].start == home.value;
      assert store[i] in store;
      assert Pending(registry, chain, base, p, store[i]);
      FitsIsTakes(registry, a, store[i], e);
      assert Fits(registry, store[i], e);
    }
  }

  /** Only one pending window takes an event. */
  lemma {:induction false} OneFits(registry: seq<Aggregator>, chain: seq<Event>, base: int, p: seq<Item>,
        store: seq<Window>, e: Event, i: nat, k: nat)
    requires ValidRegistry(registry) && OnePerGroup(registry) && e in chain && e.block > base
    requires StoreIs(registry, chain, base, p, store) && i < |store| && k < |store|
    requires Fits(registry, store[i], e) && Fits(registry, store[k], e)
    ensures i == k
  {
    assert store[i] in store && store[k] in store;
    FitsHome(registry, chain, base, p, store[i], e);
    FitsHome(registry, chain, base, p, store[k], e);
    SlotsUnique(registry, store, i, k);
  }

  lemma {:induction false} LogStep(registry: seq<Aggregator>, chain: seq<Event>, base: int, p: seq<Item>,
        store: seq<Window>, e: Event)
    requires ValidRegistry(registry) && OnePerGroup(registry) && ChainOrdered(chain) && FromChain(chain, base, p)
    requires StoreIs(registry, chain, base, p, store) && InPlace(registry, chain, base, p)
    requires e in chain && e.block > base && Routed(registry, e) && Placed(registry, chain, base, p, e)
    ensures StoreIs(registry, chain, base, p + [Log(e)], OnEvent(registry, store, e))
  {
    OnEventIsAddTo(registry, store, e);
    AddToSettled(registry, store, e);
    var after := AddTo(registry, store, e);
    var k := AddToAt(registry, store, e);
    if k == |store| { OpensHome(registry, chain, base, p, store, e); }
    forall i | 0 <= i < |after| ensures Pending(registry, chain, base, p + [Log(e)], after[i]) {
      if i < |store| { PendingAfter(registry, chain, base, p, store, e, k, i); }
    }
    LogListed(registry, chain, base, p, store, e, k, after);
  }

  lemma {:induction false} PendingAfter(registry: seq<Aggregator>, chain: seq<Event>, base: int, p: seq<Item>,
        store: seq<Window>, e: Event, k: nat, i: nat)
    requires ValidRegistry(registry) && OnePerGroup(registry) && ChainOrdered(chain) && FromChain(chain, base, p)
    requires StoreIs(registry, chain, base, p, store) && e in chain && e.block > base && i < |store|
    requires k < |store| ==> Fits(registry, store[k], e)
    requires k >= |store| ==> !Fits(registry, store[i], e)
    ensures Pending(registry, chain, base, p + [Log(e)], if i == k then store[i].WithEvent(e) else store[i])
  {
    assert store[i] in store;
    if i == k {
      Joins(registry, chain, base, p, store[k], e);
    } else {
      if Fits(registry, store[i], e) { OneFits(registry, chain, base, p, store, e, i, k); }
      OthersStay(registry, chain, base, p, store[i], e);
    }
  }

  lemma {:induction false} LogListed(registry: seq<Aggregator>, chain: seq<Event>, base: int, p: seq<Item>,
        store: seq<Window>, e: Event, k: nat, after: seq<Window>)
    requires ValidRegistry(registry) && OnePerGroup(registry) && StoreIs(registry, chain, base, p, store)
    requires e in chain && e.block > base && Routed(registry, e)
    requires k < |store| ==> Fits(registry, store[k], e) && after == store[k := store[k].WithEvent(e)]
    requires k >= |store| ==>
      after == store + [RouteOf(registry, e.name).value.Open(e).WithEvent(e)]
      && HomeOf(registry, chain, base, e) == Some(e.block)
    ensures OpenListed(registry, chain, base, p + [Log(e)], after)
  {
    var q := p + [Log(e)];
    CheckpointSnoc(base, p, Log(e));
    forall b, key, s | b in registry && Opens(registry, chain, b, key, base, s) && Came(registry, q, b, key, s)
        && s + b.windowBlocks - 1 > CheckpointFrom(base, q)
      ensures Listed(after, b, key, s)
    {
      CameSnoc(registry, p, Log(e), b, key, s);
      if Came(registry, p, b, key, s) {
        ListedStays(store, after, b, key, s);
      } else {
        HomeIs(registry, chain, base, e, s);
        HomeListed(registry, chain, base, p, store, e, k, after);
      }
    }
  }

  /** The event's window is in the store once it is handed over. */
  lemma {:induction false} HomeListed(registry: seq<Aggregator>, chain: seq<Event>, base: int, p: seq<Item>,
        store: seq<Window>, e: Event, k: nat, after: seq<Window>)
    requires ValidRegistry(registry) && OnePerGroup(registry) && e in chain && e.block > base && Routed(registry, e)
    requires forall w :: w in store ==> Pending(registry, chain, base, p, w)
    requires k < |store| ==> Fits(registry, store[k], e) && after == store[k := store[k].WithEvent(e)]
    requires k >= |store| ==> after == store + [RouteOf(registry, e.name).value.Open(e).WithEvent(e)]
                              && HomeOf(registry, chain, base, e) == Some(e.block)
    ensures var a, home := RouteOf(registry, e.name).value, HomeOf(registry, chain, base, e);
            home.Some? && Listed(after, a, a.KeyFor(e), home.value)
  {
    var a := RouteOf(registry, e.name).value;
    if k < |store| {
      FitsHome(registry, chain, base, p, store[k], e);
      assert after[k].group == a.group;
    } else {
      assert after[|store|].group == a.group;
    }
  }

  // ---------------------------------------------------------------- a mark

  /** A window that was due is complete. */
  lemma {:induction false} DueIsDeclared(registry: seq<Aggregator>, chain: seq<Event>, base: int, p: seq<Item>,
        w: Window, n: int)
    requires FromChain(chain, base, p) && Pending(registry, chain, base, p, w) && w.end <= n
    requires forall e :: e in chain && base < e.block <= n ==> Log(e) in p
    ensures Declared(registry, chain, base, w)
  {
    var a :| a in registry && PendingBy(registry, chain, base, p, a, w);
    forall e ensures e in w.events <==> e in chain && Takes(registry, a, w.key, e) && w.Contains(e.block) {
      if Log(e) in p { CameIn(chain, base, p, e); }
    }
    assert DeclaredBy(registry, chain, base, a, w);
  }

  /** A declared window was opened once a mark claims its first block. */
  lemma {:induction false} OpenedByNow(registry: seq<Aggregator>, chain: seq<Event>, base: int, p: seq<Item>,
        a: Aggregator, key: Key, s: int, n: int)
    requires Opens(registry, chain, a, key, base, s) && s <= n
    requires forall e :: e in chain && base < e.block <= n ==> Log(e) in p
    ensures Came(registry, p, a, key, s)
  {
    var e :| e in chain && Takes(registry, a, key, e) && e.block == s;
  }

  lemma {:induction false} CutListed(store: seq<Window>, block: int, a: Aggregator, key: Key, s: int)
    requires Listed(store, a, key, s)
    requires forall w :: w in store && w.group == a.group ==> w.end == w.start + a.windowBlocks - 1
    ensures if s + a.windowBlocks - 1 > block then Listed(EndingAfter(store, block), a, key, s)
            else Listed(Ready(store, block), a, key, s)
  {
    var i :| 0 <= i < |store| && store[i].group == a.group && store[i].key == key && store[i].start == s;
    assert store[i] in store;
    ReadyMembers(store, block);
    var part := if s + a.windowBlocks - 1 > block then EndingAfter(store, block) else Ready(store, block);
    assert store[i] in part;
    var k :| 0 <= k < |part| && part[k] == store[i];
    assert part[k].group == a.group;
  }

  lemma {:induction false} PendingEnds(registry: seq<Aggregator>, chain: seq<Event>, base: int, p: seq<Item>,
        store: seq<Window>, a: Aggregator)
    requires OnePerGroup(registry) && a in registry && forall w :: w in store ==> Pending(registry, chain, base, p, w)
    ensures forall w :: w in store && w.group == a.group ==> w.end == w.start + a.windowBlocks - 1
  {
    forall w | w in store && w.group == a.group ensures w.end == w.start + a.windowBlocks - 1 {
      var b :| b in registry && PendingBy(registry, chain, base, p, b, w);
      assert b == a;
    }
  }

  lemma {:induction false} EndingAfterSettled(registry: seq<Aggregator>, store: seq<Window>, block: int)
    requires Settled(registry, store)
    ensures Settled(registry, EndingAfter(store, block)) && EventsIn(EndingAfter(store, block)) <= EventsIn(store)
  {
    if store != [] {
      EndingAfterSettled(registry, store[1..], block);
      if store[0].end > block {
        assert ([store[0]] + EndingAfter(store[1..], block))[1..] == EndingAfter(store[1..], block);
      }
    }
  }

  lemma {:induction false} MarkKeepsStore(registry: seq<Aggregator>, chain: seq<Event>, base: int, p: seq<Item>,
        store: seq<Window>, n: int)
    requires OnePerGroup(registry) && StoreIs(registry, chain, base, p, store)
    ensures StoreIs(registry, chain, base, p + [Mark(n)], EndingAfter(store, n))
  {
    var q, rest := p + [Mark(n)], EndingAfter(store, n);
    EndingAfterSettled(registry, store, n);
    CheckpointSnoc(base, p, Mark(n));
    forall w | w in rest ensures Pending(registry, chain, base, q, w) {
      var a :| a in registry && PendingBy(registry, chain, base, p, a, w);
      CameSnoc(registry, p, Mark(n), a, w.key, w.start);
      assert PendingBy(registry, chain, base, q, a, w);
    }
    forall a, key, s | a in registry && Opens(registry, chain, a, key, base, s) && Came(registry, q, a, key, s)
        && s + a.windowBlocks - 1 > CheckpointFrom(base, q)
      ensures Listed(rest, a, key, s)
    {
      CameSnoc(registry, p, Mark(n), a, key, s);
      PendingEnds(registry, chain, base, p, store, a);
      CutListed(store, n, a, key, s);
    }
  }

  lemma {:induction false} AllPendingKnown(registry: seq<Aggregator>, chain: seq<Event>, base: int, p: seq<Item>,
        ws: seq<Window>)
    requires forall w :: w in ws ==> Pending(registry, chain, base, p, w)
    ensures KnownOnly(registry, ws) == ws
  {
    forall w | w in ws ensures Known(registry, w) {
      var a :| a in registry && PendingBy(registry, chain, base, p, a, w);
      var i :| 0 <= i < |registry| && registry[i] == a;
      assert registry[i].group == w.group;
    }
    KnownOnlyAll(registry, ws);
  }

  /** What is flushed later ends later. */
  lemma {:induction false} MoreInOrder(earlier: seq<Window>, more: seq<Window>, done: int)
    requires InFlushOrder(earlier) && InFlushOrder(more)
    requires (forall w :: w in earlier ==> w.end <= done) && forall w :: w in more ==> w.end > done
    ensures InFlushOrder(earlier + more)
  {
    var all := earlier + more;
    forall i, j | 0 <= i < j < |all| ensures WindowLeq(all[i], all[j]) && all[i].Slot() != all[j].Slot() {
      if i < |earlier| <= j { assert all[i] in earlier && all[j] in more; }
    }
  }

  lemma {:induction false} ReadyInOrder(registry: seq<Aggregator>, store: seq<Window>, n: int)
    requires Settled(registry, store)
    ensures InFlushOrder(Ready(store, n))
  {
    ReadyApart(registry, store, n);
    WindowLeqIsPreorder();
    SortSorts(WindowLeq, EndingBy(store, n));
  }

  lemma {:induction false} MarkFlushes(registry: seq<Aggregator>, chain: seq<Event>, base: int, p: seq<Item>,
        b: Book, n: int)
    requires ValidRegistry(registry) && OnePerGroup(registry) && FromChain(chain, base, p)
    requires StoreIs(registry, chain, base, p, b.store)
    requires FlushedIs(registry, chain, base, CheckpointFrom(base, p), b.flushed)
    requires forall e :: e in chain && base < e.block <= n ==> Log(e) in p
    ensures FlushedIs(registry, chain, base, CheckpointFrom(base, p + [Mark(n)]), Step(registry, b, Mark(n)).flushed)
  {
    var ready, earlier, done := Ready(b.store, n), CheckpointFrom(base, p), CheckpointFrom(base, p + [Mark(n)]);
    ReadyMembers(b.store, n);
    AllPendingKnown(registry, chain, base, p, ready);
    CheckpointSnoc(base, p, Mark(n));
    var flushed := b.flushed + ready;
    forall w | w in ready ensures w.end <= done && w.end > earlier && Declared(registry, chain, base, w) {
      DueIsDeclared(registry, chain, base, p, w, n);
    }
    ReadyInOrder(registry, b.store, n);
    MoreInOrder(b.flushed, ready, earlier);
    forall a, key, s | a in registry && Opens(registry, chain, a, key, base, s) && s + a.windowBlocks - 1 <= done
      ensures Listed(flushed, a, key, s)
    {
      if s + a.windowBlocks - 1 <= earlier {
        ListedStays(b.flushed, flushed, a, key, s);
      } else {
        OpenedByNow(registry, chain, base, p, a, key, s, n);
        PendingEnds(registry, chain, base, p, b.store, a);
        CutListed(b.store, n, a, key, s);
        ListedLater(b.flushed, ready, a, key, s);
      }
    }
  }

  lemma {:induction false} ListedLater(earlier: seq<Window>, more: seq<Window>, a: Aggregator, key: Key, s: int)
    requires Listed(more, a, key, s)
    ensures Listed(earlier + more, a, key, s)
  {
    var i :| 0 <= i < |more| && more[i].group == a.group && more[i].key == key && more[i].start == s;
    assert (earlier + more)[|earlier| + i] == more[i];
  }

  // ---------------------------------------------------------------- the main results

  /** The book is what the chain declares: up to the checkpoint flushed, in order, once and complete; above
      it pending, with exactly what came. */
  ghost predicate BookIs(registry: seq<Aggregator>, chain: seq<Event>, base: int, p: seq<Item>, b: Book) {
    StoreIs(registry, chain, base, p, b.store) && FlushedIs(registry, chain, base, CheckpointFrom(base, p), b.flushed)
  }

  lemma {:induction false} NothingYet(registry: seq<Aggregator>, chain: seq<Event>, base: int)
    requires ValidRegistry(registry)
    ensures BookIs(registry, chain, base, [], Book([], []))
  {
  }

  /** Whatever order the logs come in: as long as each passes the check, the windows are the declared ones. */
  lemma {:induction false} InPlaceIsDeclared(registry: seq<Aggregator>, chain: seq<Event>, base: int, p: seq<Item>)
    requires ValidRegistry(registry) && OnePerGroup(registry) && ChainOrdered(chain)
    requires Answered(chain, base, p) && InPlace(registry, chain, base, p)
    ensures BookIs(registry, chain, base, p, Run(registry, p))
  {
    if p == [] {
      NothingYet(registry, chain, base);
    } else {
      var front, x := p[..|p| - 1], p[|p| - 1];
      assert p == front + [x];
      AnsweredFront(chain, base, front, x);
      InPlaceSnoc(registry, chain, base, front, x);
      InPlaceIsDeclared(registry, chain, base, front);
      NextItem(registry, chain, base, front, Run(registry, front), x);
      RunSnoc(registry, front, x);
    }
  }

  lemma {:induction false} NextItem(registry: seq<Aggregator>, chain: seq<Event>, base: int, p: seq<Item>, b: Book,
        x: Item)
    requires ValidRegistry(registry) && OnePerGroup(registry) && ChainOrdered(chain)
    requires Answered(chain, base, p + [x]) && InPlace(registry, chain, base, p + [x])
    requires BookIs(registry, chain, base, p, b)
    ensures BookIs(registry, chain, base, p + [x], Step(registry, b, x))
  {
    AnsweredFront(chain, base, p, x);
    InPlaceSnoc(registry, chain, base, p, x);
    match x {
      case Mark(n) =>
        MarkKeepsStore(registry, chain, base, p, b.store, n);
        MarkFlushes(registry, chain, base, p, b, n);
      case Log(e) =>
        CheckpointSnoc(base, p, x);
        if Routed(registry, e) {
          LogStep(registry, chain, base, p, b.store, e);
        } else {
          UnroutedStays(registry, chain, base, p, b.store, e);
        }
    }
  }

  lemma {:induction false} UnroutedStays(registry: seq<Aggregator>, chain: seq<Event>, base: int, p: seq<Item>,
        store: seq<Window>, e: Event)
    requires OnePerGroup(registry) && StoreIs(registry, chain, base, p, store) && !Routed(registry, e)
    ensures StoreIs(registry, chain, base, p + [Log(e)], store)
  {
    var q := p + [Log(e)];
    CheckpointSnoc(base, p, Log(e));
    forall w | w in store ensures Pending(registry, chain, base, q, w) {
      OthersStay(registry, chain, base, p, w, e);
    }
    forall a, key, s | a in registry && Opens(registry, chain, a, key, base, s) && Came(registry, q, a, key, s)
        && s + a.windowBlocks - 1 > CheckpointFrom(base, q)
      ensures Listed(store, a, key, s)
    {
      CameSnoc(registry, p, Log(e), a, key, s);
    }
  }

  // ---------------------------------------------------------------- exactly when

  /** Every window opened so far starts where the chain declares one, and none was opened twice. */
  ghost predicate Proper(registry: seq<Aggregator>, chain: seq<Event>, base: int, b: Book) {
    Apart(b.flushed + b.store) && forall w :: w in b.flushed + b.store ==> DueSlot(registry, chain, base, w.Slot())
  }

  ghost predicate DueSlot(registry: seq<Aggregator>, chain: seq<Event>, base: int, slot: Slot) {
    exists a :: a in registry && a.group == slot.0 && Opens(registry, chain, a, slot.1, base, slot.2)
  }

  function Count(ws: seq<Window>, slot: Slot): nat {
    if ws == [] then 0 else (if ws[0].Slot() == slot then 1 else 0) + Count(ws[1..], slot)
  }

  lemma {:induction false} CountConcat(a: seq<Window>, b: seq<Window>, slot: Slot)
    ensures Count(a + b, slot) == Count(a, slot) + Count(b, slot)
  {
    if a == [] {
      assert a + b == b;
    } else {
      assert (a + b)[1..] == a[1..] + b;
      CountConcat(a[1..], b, slot);
    }
  }

  lemma {:induction false} CountInsert(w: Window, ws: seq<Window>, slot: Slot)
    ensures Count(Insert(WindowLeq, w, ws), slot) == Count([w], slot) + Count(ws, slot)
  {
    if ws == [] || WindowLeq(w, ws[0]) {
      CountConcat([w], ws, slot);
    } else {
      CountInsert(w, ws[1..], slot);
      CountConcat([ws[0]], Insert(WindowLeq, w, ws[1..]), slot);
    }
  }

  lemma {:induction false} CountSort(ws: seq<Window>, slot: Slot)
    ensures Count(Sort(WindowLeq, ws), slot) == Count(ws, slot)
  {
    if ws != [] {
      CountSort(ws[1..], slot);
      CountInsert(ws[0], Sort(WindowLeq, ws[1..]), slot);
    }
  }

  lemma {:induction false} CountCut(ws: seq<Window>, block: int, slot: Slot)
    ensures Count(EndingBy(ws, block), slot) + Count(EndingAfter(ws, block), slot) == Count(ws, slot)
  {
    if ws != [] { CountCut(ws[1..], block, slot); }
  }

  lemma {:induction false} CountAddTo(registry: seq<Aggregator>, ws: seq<Window>, e: Event, slot: Slot)
    requires Routed(registry, e)
    ensures Count(AddTo(registry, ws, e), slot) >= Count(ws, slot)
  {
    if ws != [] && !Fits(registry, ws[0], e) { CountAddTo(registry, ws[1..], e, slot); }
  }

  lemma {:induction false} CountPositive(ws: seq<Window>, slot: Slot)
    ensures Count(ws, slot) > 0 <==> exists w :: w in ws && w.Slot() == slot
  {
    if ws != [] {
      CountPositive(ws[1..], slot);
      assert ws == [ws[0]] + ws[1..];
      assert ws[0] in ws;
    }
  }

  lemma {:induction false} ApartCounts(ws: seq<Window>, slot: Slot)
    requires Apart(ws)
    ensures Count(ws, slot) <= 1
  {
    if ws != [] {
      ApartCounts(ws[1..], slot);
      CountPositive(ws[1..], slot);
      if w :| w in ws[1..] && w.Slot() == slot {
        var k :| 0 <= k < |ws[1..]| && ws[1..][k] == w;
        assert ws[k + 1].Slot() == slot;
      }
    }
  }

  lemma {:induction false} CountsApart(ws: seq<Window>)
    requires forall slot :: Count(ws, slot) <= 1
    ensures Apart(ws)
  {
    forall i, j | 0 <= i < j < |ws| ensures ws[i].Slot() != ws[j].Slot() {
      var slot := ws[j].Slot();
      CountConcat(ws[..j], ws[j..], slot);
      assert ws == ws[..j] + ws[j..] && ws[j..][0] == ws[j];
      CountPositive(ws[..j], slot);
      assert ws[i] in ws[..j];
      assert Count(ws, slot) <= 1;
    }
  }

  /** No step takes a window back. */
  lemma {:induction false} StepCounts(registry: seq<Aggregator>, b: Book, x: Item, slot: Slot)
    requires ValidRegistry(registry) && AllKnown(registry, b.store)
    ensures var r := Step(registry, b, x); Count(r.flushed + r.store, slot) >= Count(b.flushed + b.store, slot)
  {
    var r := Step(registry, b, x);
    CountConcat(b.flushed, b.store, slot);
    CountConcat(r.flushed, r.store, slot);
    match x {
      case Log(e) =>
        if Routed(registry, e) {
          OnEventIsAddTo(registry, b.store, e);
          CountAddTo(registry, b.store, e, slot);
        }
      case Mark(n) =>
        ReadyMembers(b.store, n);
        KnownOnlyAll(registry, Ready(b.store, n));
        CountConcat(b.flushed, Ready(b.store, n), slot);
        CountSort(EndingBy(b.store, n), slot);
        CountCut(b.store, n, slot);
    }
  }

  lemma {:induction false} ImproperStays(registry: seq<Aggregator>, chain: seq<Event>, base: int, b: Book, x: Item)
    requires ValidRegistry(registry) && AllKnown(registry, b.store)
    requires Proper(registry, chain, base, Step(registry, b, x))
    ensures Proper(registry, chain, base, b)
  {
    var r := Step(registry, b, x);
    var now, after := b.flushed + b.store, r.flushed + r.store;
    forall slot ensures Count(now, slot) <= 1 {
      StepCounts(registry, b, x, slot);
      ApartCounts(after, slot);
    }
    CountsApart(now);
    forall w | w in now ensures DueSlot(registry, chain, base, w.Slot()) {
      CountPositive(now, w.Slot());
      CountPositive(after, w.Slot());
      StepCounts(registry, b, x, w.Slot());
    }
  }

  lemma {:induction false} RunKnown(registry: seq<Aggregator>, p: seq<Item>)
    requires ValidRegistry(registry)
    ensures AllKnown(registry, Run(registry, p).store)
  {
    if p != [] {
      var front := p[..|p| - 1];
      RunKnown(registry, front);
      match p[|p| - 1] {
        case Log(e) =>
          if Routed(registry, e) {
            OnEventIsAddTo(registry, Run(registry, front).store, e);
            AddToKnown(registry, Run(registry, front).store, e);
          }
        case Mark(_) =>
      }
    }
  }

  lemma {:induction false} BookIsProper(registry: seq<Aggregator>, chain: seq<Event>, base: int, p: seq<Item>, b: Book)
    requires BookIs(registry, chain, base, p, b)
    ensures Proper(registry, chain, base, b)
  {
    var all := b.flushed + b.store;
    SlotsApart(registry, b.store);
    forall w | w in all ensures DueSlot(registry, chain, base, w.Slot()) {
      if w in b.flushed {
        assert Declared(registry, chain, base, w);
      } else {
        assert Pending(registry, chain, base, p, w);
      }
    }
    forall i, j | 0 <= i < j < |all| ensures all[i].Slot() != all[j].Slot() {
      if i < |b.flushed| <= j {
        assert all[i] in b.flushed && all[j] in b.store;
        assert Pending(registry, chain, base, p, all[j]);
      }
    }
  }

  /** A log that fails the check opens a window where none is due, or once more. */
  lemma {:induction false} MisplacedOpens(registry: seq<Aggregator>, chain: seq<Event>, base: int, p: seq<Item>,
        b: Book, e: Event)
    requires ValidRegistry(registry) && OnePerGroup(registry) && BookIs(registry, chain, base, p, b)
    requires e in chain && e.block > base && !Placed(registry, chain, base, p, e)
    ensures !Proper(registry, chain, base, Step(registry, b, Log(e)))
  {
    OnEventIsAddTo(registry, b.store, e);
    var a := RouteOf(registry, e.name).value;
    var k := AddToAt(registry, b.store, e);
    HomeIs(registry, chain, base, e, e.block);
    if k < |b.store| {
      assert b.store[k] in b.store;
      FitsHome(registry, chain, base, p, b.store[k], e);
    } else {
      OpensAgain(registry, chain, base, CheckpointFrom(base, p), b, a, e, a.Open(e).WithEvent(e));
    }
  }

  lemma {:induction false} OpensAgain(registry: seq<Aggregator>, chain: seq<Event>, base: int, done: int, b: Book,
        a: Aggregator, e: Event, w: Window)
    requires OnePerGroup(registry) && a in registry && FlushedIs(registry, chain, base, done, b.flushed)
    requires w.Slot() == (a.group, a.KeyFor(e), e.block, e.block + a.windowBlocks - 1)
    requires Opens(registry, chain, a, a.KeyFor(e), base, e.block) ==> e.block + a.windowBlocks - 1 <= done
    ensures !Proper(registry, chain, base, Book(b.store + [w], b.flushed))
  {
    var all := b.flushed + (b.store + [w]);
    assert all[|b.flushed| + |b.store|] == w;
    if DueSlot(registry, chain, base, w.Slot()) {
      assert Listed(b.flushed, a, a.KeyFor(e), e.block);
      var i :| 0 <= i < |b.flushed| && b.flushed[i].group == a.group && b.flushed[i].key == a.KeyFor(e)
        && b.flushed[i].start == e.block;
      assert b.flushed[i] in b.flushed;
      assert Declared(registry, chain, base, b.flushed[i]);
      assert all[i].Slot() == w.Slot();
    } else {
      assert w in all;
    }
  }

  /** Exactly when: every window opened, in any order of the logs and at any marks, is one that the chain
      declares and none is opened twice, if and only if each log passed the check when it was handed over. */
  lemma {:induction false} ProperIffInPlace(registry: seq<Aggregator>, chain: seq<Event>, base: int, p: seq<Item>)
    requires ValidRegistry(registry) && OnePerGroup(registry) && ChainOrdered(chain) && Answered(chain, base, p)
    ensures Proper(registry, chain, base, Run(registry, p)) <==> InPlace(registry, chain, base, p)
  {
    if InPlace(registry, chain, base, p) {
      InPlaceIsDeclared(registry, chain, base, p);
      BookIsProper(registry, chain, base, p, Run(registry, p));
    } else {
      var front, x := p[..|p| - 1], p[|p| - 1];
      assert p == front + [x];
      AnsweredFront(chain, base, front, x);
      InPlaceSnoc(registry, chain, base, front, x);
      ProperIffInPlace(registry, chain, base, front);
      RunSnoc(registry, front, x);
      RunKnown(registry, front);
      if InPlace(registry, chain, base, front) {
        InPlaceIsDeclared(registry, chain, base, front);
        MisplacedOpens(registry, chain, base, front, Run(registry, front), x.event);
      } else if Proper(registry, chain, base, Run(registry, p)) {
        ImproperStays(registry, chain, base, Run(registry, front), x);
      }
    }
  }

  /** Windows of one block: only a log whose block is flushed already changes them, so above the checkpoint
      any order will do. */
  lemma {:induction false} OneBlockWindows(registry: seq<Aggregator>, chain: seq<Event>, base: int, p: seq<Item>)
    requires (forall a :: a in registry ==> a.windowBlocks == 1) && FromChain(chain, base, p)
    ensures InPlace(registry, chain, base, p) <==>
      forall j :: 0 <= j < |p| && p[j].Log? && Routed(registry, p[j].event)
        ==> p[j].event.block > CheckpointFrom(base, p[..j])
  {
    forall j | 0 <= j < |p| && p[j].Log? && Routed(registry, p[j].event)
      ensures Placed(registry, chain, base, p[..j], p[j].event) <==> p[j].event.block > CheckpointFrom(base, p[..j])
    {
      HomeIs(registry, chain, base, p[j].event, p[j].event.block);
    }
    if forall j :: 0 <= j < |p| && p[j].Log? && Routed(registry, p[j].event)
        ==> p[j].event.block > CheckpointFrom(base, p[..j])
    {
      forall j | 0 <= j < |p| && p[j].Log? ensures Placed(registry, chain, base, p[..j], p[j].event) {
      }
    }
  }
}
