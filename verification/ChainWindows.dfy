/** The windows a chain declares, told by block numbers alone: no order of delivery, no store, no mark
    and no flush; and that cutting the logs greedily in block order gives exactly these windows
    (sentinel/services/aggregation.py, sentinel/modules/aggregation.py). */
module ChainWindows {
  import opened Events
  import opened Windows
  import opened Partition
  import opened Batching

  /** `_aggregators_by_group` has one aggregator under each group name. */
  ghost predicate OnePerGroup(registry: seq<Aggregator>) {
    forall a, b :: a in registry && b in registry && a.group == b.group ==> a == b
  }

  /** The event is routed to that aggregator and has that key. */
  predicate Takes(registry: seq<Aggregator>, a: Aggregator, key: Key, e: Event) {
    RouteOf(registry, e.name) == Some(a) && a.KeyFor(e) == key
  }

  /** An event of that aggregator and key lies in the block. */
  predicate HasEvent(registry: seq<Aggregator>, es: seq<Event>, a: Aggregator, key: Key, block: int) {
    exists e :: e in es && Takes(registry, a, key, e) && e.block == block
  }

  /** Where the last window at or before a block starts, if there is one above `base`: a window opens at
      a block with an event of its key that the last window does not reach. */
  function LastOpen(registry: seq<Aggregator>, es: seq<Event>, a: Aggregator, key: Key, base: int, block: int)
    : (r: Option<int>)
    ensures r.Some? ==> base < r.value <= block && HasEvent(registry, es, a, key, r.value)
    decreases block - base
  {
    if block <= base then None else
    var last := LastOpen(registry, es, a, key, base, block - 1);
    if HasEvent(registry, es, a, key, block) && (last.None? || block >= last.value + a.windowBlocks) then Some(block)
    else last
  }

  /** A window of that aggregator, key and start is due. */
  predicate Opens(registry: seq<Aggregator>, es: seq<Event>, a: Aggregator, key: Key, base: int, start: int) {
    LastOpen(registry, es, a, key, base, start) == Some(start)
  }

  /** The window is one that the events above `base` declare, and holds exactly its events. */
  ghost predicate Declared(registry: seq<Aggregator>, es: seq<Event>, base: int, w: Window) {
    exists a :: a in registry && DeclaredBy(registry, es, base, a, w)
  }

  ghost predicate DeclaredBy(registry: seq<Aggregator>, es: seq<Event>, base: int, a: Aggregator, w: Window) {
    && w.group == a.group && w.end == w.start + a.windowBlocks - 1 && w.names == a.names
    && Opens(registry, es, a, w.key, base, w.start)
    && forall e :: e in w.events <==> e in es && Takes(registry, a, w.key, e) && w.Contains(e.block)
  }

  /** A window of that aggregator, key and start is in the list. */
  ghost predicate Listed(ws: seq<Window>, a: Aggregator, key: Key, start: int) {
    exists i :: 0 <= i < |ws| && ws[i].group == a.group && ws[i].key == key && ws[i].start == start
  }

  // ---------------------------------------------------------------- the scan over blocks

  /** The scan looks no further than the block. */
  lemma {:induction false} LastOpenLocal(registry: seq<Aggregator>, es: seq<Event>, fs: seq<Event>, a: Aggregator,
          key: Key,
        base: int, block: int)
    requires forall b :: base < b <= block ==> HasEvent(registry, es, a, key, b) == HasEvent(registry, fs, a, key, b)
    ensures LastOpen(registry, es, a, key, base, block) == LastOpen(registry, fs, a, key, base, block)
    decreases block - base
  {
    if block > base { LastOpenLocal(registry, es, fs, a, key, base, block - 1); }
  }

  lemma {:induction false} LastOpenGrows(registry: seq<Aggregator>, es: seq<Event>, a: Aggregator, key: Key, base: int,
        b: int, c: int)
    requires b <= c && LastOpen(registry, es, a, key, base, b).Some?
    ensures LastOpen(registry, es, a, key, base, c).Some?
    ensures LastOpen(registry, es, a, key, base, b).value <= LastOpen(registry, es, a, key, base, c).value
    decreases c - b
  {
    if b < c { LastOpenGrows(registry, es, a, key, base, b, c - 1); }
  }

  lemma {:induction false} LastOpenOpens(registry: seq<Aggregator>, es: seq<Event>, a: Aggregator, key: Key, base: int,
        block: int)
    requires LastOpen(registry, es, a, key, base, block).Some?
    ensures Opens(registry, es, a, key, base, LastOpen(registry, es, a, key, base, block).value)
    decreases block - base
  {
    if LastOpen(registry, es, a, key, base, block) != Some(block) {
      LastOpenOpens(registry, es, a, key, base, block - 1);
    }
  }

  /** Two windows of one key do not overlap. */
  lemma {:induction false} WindowsApart(registry: seq<Aggregator>, es: seq<Event>, a: Aggregator, key: Key, base: int,
        s: int, t: int)
    requires Opens(registry, es, a, key, base, s) && Opens(registry, es, a, key, base, t) && s < t
    ensures t >= s + a.windowBlocks
  {
    LastOpenGrows(registry, es, a, key, base, s, t - 1);
  }

  /** Every event above the base lies in a window of its key. */
  lemma {:induction false} EventHasWindow(registry: seq<Aggregator>, es: seq<Event>, a: Aggregator, key: Key, base: int,
        e: Event)
    requires a.windowBlocks >= 1 && e in es && Takes(registry, a, key, e) && e.block > base
    ensures LastOpen(registry, es, a, key, base, e.block).Some?
    ensures e.block < LastOpen(registry, es, a, key, base, e.block).value + a.windowBlocks
  {
    assert HasEvent(registry, es, a, key, e.block);
  }

  // ---------------------------------------------------------------- one more event

  /** The greedy cut of block-ordered events is the list of declared windows. */
  ghost predicate Exact(registry: seq<Aggregator>, es: seq<Event>, base: int, ws: seq<Window>) {
    && (forall i :: 0 <= i < |ws| ==> Declared(registry, es, base, ws[i]))
    && (forall a, key, s :: a in registry && Opens(registry, es, a, key, base, s) ==> Listed(ws, a, key, s))
  }

  lemma {:induction false} HasEventSnoc(registry: seq<Aggregator>, es: seq<Event>, e: Event, a: Aggregator, key: Key,
        b: int)
    ensures HasEvent(registry, es + [e], a, key, b) <==>
      HasEvent(registry, es, a, key, b) || (Takes(registry, a, key, e) && b == e.block)
  {
    if HasEvent(registry, es, a, key, b) {
      var f :| f in es && Takes(registry, a, key, f) && f.block == b;
      assert f in es + [e];
    }
    assert e in es + [e];
  }

  /** For another key, for another aggregator, and below its block, an event changes nothing. */
  lemma {:induction false} OpensElsewhere(registry: seq<Aggregator>, es: seq<Event>, e: Event, a: Aggregator, key: Key,
        base: int, s: int)
    requires !Takes(registry, a, key, e) || s < e.block || HasEvent(registry, es, a, key, e.block)
    ensures LastOpen(registry, es + [e], a, key, base, s) == LastOpen(registry, es, a, key, base, s)
  {
    forall b | base < b <= s ensures HasEvent(registry, es + [e], a, key, b) == HasEvent(registry, es, a, key, b) {
      HasEventSnoc(registry, es, e, a, key, b);
    }
    LastOpenLocal(registry, es + [e], es, a, key, base, s);
  }

  lemma {:induction false} FitsIsTakes(registry: seq<Aggregator>, a: Aggregator, w: Window, e: Event)
    requires OnePerGroup(registry) && a in registry && w.group == a.group
    ensures Fits(registry, w, e) <==> Takes(registry, a, w.key, e) && w.Contains(e.block)
  {
  }

  /** Either the first window that fits takes the event, or a new one is opened at the end. */
  lemma {:induction false} AddToAt(registry: seq<Aggregator>, ws: seq<Window>, e: Event) returns (k: nat)
    requires Routed(registry, e)
    ensures k <= |ws| && forall i :: 0 <= i < k ==> !Fits(registry, ws[i], e)
    ensures k < |ws| ==> Fits(registry, ws[k], e) && AddTo(registry, ws, e) == ws[k := ws[k].WithEvent(e)]
    ensures k == |ws| ==> AddTo(registry, ws, e) == ws + [RouteOf(registry, e.name).value.Open(e).WithEvent(e)]
  {
    if ws == [] || Fits(registry, ws[0], e) {
      k := 0;
    } else {
      var l := AddToAt(registry, ws[1..], e);
      k := l + 1;
      assert ws == [ws[0]] + ws[1..];
    }
  }

  /** No event of the list lies above the block. */
  ghost predicate UpTo(es: seq<Event>, block: int) {
    forall x :: x in es ==> x.block <= block
  }

  lemma {:induction false} StartHasEvent(registry: seq<Aggregator>, es: seq<Event>, e: Event, a: Aggregator, key: Key,
        base: int, s: int)
    requires UpTo(es, e.block) && Opens(registry, es, a, key, base, s)
    ensures LastOpen(registry, es + [e], a, key, base, s) == LastOpen(registry, es, a, key, base, s)
  {
    OpensElsewhere(registry, es, e, a, key, base, s);
  }

  /** A window that does not take the event is declared as before. */
  lemma {:induction false} DeclaredStays(registry: seq<Aggregator>, es: seq<Event>, e: Event, base: int, a: Aggregator,
        w: Window)
    requires DeclaredBy(registry, es, base, a, w) && UpTo(es, e.block)
    requires !(Takes(registry, a, w.key, e) && w.Contains(e.block))
    ensures DeclaredBy(registry, es + [e], base, a, w)
  {
    StartHasEvent(registry, es, e, a, w.key, base, w.start);
  }

  /** The window that takes the event stays declared with it. */
  lemma {:induction false} DeclaredJoins(registry: seq<Aggregator>, es: seq<Event>, e: Event, base: int, a: Aggregator,
        w: Window)
    requires DeclaredBy(registry, es, base, a, w) && Next(es, e)
    requires Takes(registry, a, w.key, e) && w.Contains(e.block)
    ensures DeclaredBy(registry, es + [e], base, a, w.WithEvent(e))
  {
    StartHasEvent(registry, es, e, a, w.key, base, w.start);
    assert forall i :: 0 <= i < |w.events| ==> w.events[i] in es;
    assert w.WithEvent(e).events == w.events + [e];
  }

  /** When no window takes the event, one is due at its block. */
  lemma {:induction false} DeclaredFresh(registry: seq<Aggregator>, es: seq<Event>, e: Event, base: int, a: Aggregator,
        key: Key, ws: seq<Window>)
    requires ValidRegistry(registry) && OnePerGroup(registry) && a in registry && Takes(registry, a, key, e)
    requires Exact(registry, es, base, ws) && Next(es, e) && e.block > base
    requires forall i :: 0 <= i < |ws| ==> !Fits(registry, ws[i], e)
    ensures DeclaredBy(registry, es + [e], base, a, a.Open(e).WithEvent(e))
  {
    NoWindowReaches(registry, es, e, base, a, key, ws, e.block);
    assert !HasEvent(registry, es, a, key, e.block);
    HasEventSnoc(registry, es, e, a, key, e.block);
    NoWindowReaches(registry, es, e, base, a, key, ws, e.block - 1);
    OpensElsewhere(registry, es, e, a, key, base, e.block - 1);
    var w := a.Open(e);
    assert w.WithEvent(e).events == [e];
    forall f | f in es && Takes(registry, a, key, f) && w.Contains(f.block) ensures false {
      assert HasEvent(registry, es, a, key, e.block);
    }
  }

  lemma {:induction false} NoWindowReaches(registry: seq<Aggregator>, es: seq<Event>, e: Event, base: int,
          a: Aggregator,
        key: Key, ws: seq<Window>, b: int)
    requires OnePerGroup(registry) && a in registry && Takes(registry, a, key, e)
    requires Exact(registry, es, base, ws) && b <= e.block
    requires forall i :: 0 <= i < |ws| ==> !Fits(registry, ws[i], e)
    ensures var last := LastOpen(registry, es, a, key, base, b);
            last.Some? ==> e.block >= last.value + a.windowBlocks
  {
    var last := LastOpen(registry, es, a, key, base, b);
    if last.Some? {
      LastOpenOpens(registry, es, a, key, base, b);
      var i :| 0 <= i < |ws| && ws[i].group == a.group && ws[i].key == key && ws[i].start == last.value;
      assert Declared(registry, es, base, ws[i]);
      assert !Fits(registry, ws[i], e);
      FitsIsTakes(registry, a, ws[i], e);
    }
  }

  lemma {:induction false} ListedStays(ws: seq<Window>, vs: seq<Window>, a: Aggregator, key: Key, s: int)
    requires Listed(ws, a, key, s) && |ws| <= |vs|
    requires forall i :: 0 <= i < |ws| ==>
      vs[i].group == ws[i].group && vs[i].key == ws[i].key && vs[i].start == ws[i].start
    ensures Listed(vs, a, key, s)
  {
    var i :| 0 <= i < |ws| && ws[i].group == a.group && ws[i].key == key && ws[i].start == s;
    assert vs[i].group == a.group;
  }

  /** A window due once the event is there was due before, or opens at the event because nothing takes it. */
  lemma {:induction false} DueIsListed(registry: seq<Aggregator>, es: seq<Event>, e: Event, base: int, ws: seq<Window>,
        k: nat, a: Aggregator, key: Key, s: int)
    requires OnePerGroup(registry) && a in registry && Exact(registry, es, base, ws) && UpTo(es, e.block)
    requires k < |ws| && Fits(registry, ws[k], e) && Opens(registry, es + [e], a, key, base, s)
    ensures Listed(ws, a, key, s)
  {
    if Takes(registry, a, key, e) && s >= e.block && !HasEvent(registry, es, a, key, e.block) {
      var f :| f in es + [e] && Takes(registry, a, key, f) && f.block == s;
      assert s == e.block;
      var w := ws[k];
      assert Declared(registry, es, base, w);
      var d :| d in registry && DeclaredBy(registry, es, base, d, w);
      assert d == a && w.key == key;
      assert w.start != s;
      LastOpenGrows(registry, es, a, key, base, w.start, s - 1);
      OpensElsewhere(registry, es, e, a, key, base, s - 1);
      assert false;
    } else {
      OpensElsewhere(registry, es, e, a, key, base, s);
    }
  }

  lemma {:induction false} SameStart(registry: seq<Aggregator>, es: seq<Event>, base: int, a: Aggregator, v: Window,
        w: Window, block: int)
    requires DeclaredBy(registry, es, base, a, v) && DeclaredBy(registry, es, base, a, w) && v.key == w.key
    requires v.Contains(block) && w.Contains(block)
    ensures v.Slot() == w.Slot()
  {
    if v.start < w.start { WindowsApart(registry, es, a, v.key, base, v.start, w.start); }
    if w.start < v.start { WindowsApart(registry, es, a, v.key, base, w.start, v.start); }
  }

  lemma {:induction false} Declarer(registry: seq<Aggregator>, es: seq<Event>, base: int, w: Window, e: Event)
    requires OnePerGroup(registry) && Declared(registry, es, base, w) && Fits(registry, w, e)
    ensures var a := RouteOf(registry, e.name).value;
            a in registry && DeclaredBy(registry, es, base, a, w) && Takes(registry, a, w.key, e)
  {
  }

  /** Only one window takes an event. */
  lemma {:induction false} OneTakes(registry: seq<Aggregator>, es: seq<Event>, e: Event, base: int, ws: seq<Window>,
        i: nat, k: nat)
    requires OnePerGroup(registry) && Exact(registry, es, base, ws) && Settled(registry, ws)
    requires i < |ws| && k < |ws| && Fits(registry, ws[i], e) && Fits(registry, ws[k], e)
    ensures i == k
  {
    Declarer(registry, es, base, ws[i], e);
    Declarer(registry, es, base, ws[k], e);
    SameStart(registry, es, base, RouteOf(registry, e.name).value, ws[i], ws[k], e.block);
    SlotsUnique(registry, ws, i, k);
  }

  lemma {:induction false} ExactJoins(registry: seq<Aggregator>, es: seq<Event>, e: Event, base: int, ws: seq<Window>,
        k: nat)
    requires OnePerGroup(registry) && Exact(registry, es, base, ws) && Settled(registry, ws)
    requires Next(es, e) && k < |ws| && Fits(registry, ws[k], e)
    ensures Exact(registry, es + [e], base, ws[k := ws[k].WithEvent(e)])
  {
    var vs := ws[k := ws[k].WithEvent(e)];
    forall i | 0 <= i < |vs| ensures Declared(registry, es + [e], base, vs[i]) {
      assert Declared(registry, es, base, ws[i]);
      var a :| a in registry && DeclaredBy(registry, es, base, a, ws[i]);
      FitsIsTakes(registry, a, ws[i], e);
      if i == k {
        DeclaredJoins(registry, es, e, base, a, ws[i]);
      } else {
        if Fits(registry, ws[i], e) { OneTakes(registry, es, e, base, ws, i, k); }
        DeclaredStays(registry, es, e, base, a, ws[i]);
      }
    }
    forall a, key, s | a in registry && Opens(registry, es + [e], a, key, base, s) ensures Listed(vs, a, key, s) {
      DueIsListed(registry, es, e, base, ws, k, a, key, s);
      ListedStays(ws, vs, a, key, s);
    }
  }

  lemma {:induction false} ExactOpens(registry: seq<Aggregator>, es: seq<Event>, e: Event, base: int, ws: seq<Window>,
        a: Aggregator)
    requires ValidRegistry(registry) && OnePerGroup(registry) && Exact(registry, es, base, ws)
    requires RouteOf(registry, e.name) == Some(a) && Next(es, e) && e.block > base
    requires forall i :: 0 <= i < |ws| ==> !Fits(registry, ws[i], e)
    ensures Exact(registry, es + [e], base, ws + [a.Open(e).WithEvent(e)])
  {
    var w := a.Open(e).WithEvent(e);
    var vs := ws + [w];
    DeclaredFresh(registry, es, e, base, a, a.KeyFor(e), ws);
    forall i | 0 <= i < |vs| ensures Declared(registry, es + [e], base, vs[i]) {
      if i < |ws| {
        assert Declared(registry, es, base, ws[i]);
        var b :| b in registry && DeclaredBy(registry, es, base, b, ws[i]);
        FitsIsTakes(registry, b, ws[i], e);
        assert !Fits(registry, ws[i], e);
        DeclaredStays(registry, es, e, base, b, ws[i]);
      }
    }
    forall b, key, s | b in registry && Opens(registry, es + [e], b, key, base, s) ensures Listed(vs, b, key, s) {
      if Takes(registry, b, key, e) && s == e.block {
        assert vs[|ws|] == w;
      } else {
        assert HasEvent(registry, es + [e], b, key, s);
        assert s <= e.block;
        OpensElsewhere(registry, es, e, b, key, base, s);
        ListedStays(ws, vs, b, key, s);
      }
    }
  }

  /** Each event comes next after those before it. */
  ghost predicate InTurn(es: seq<Event>) {
    forall n :: 0 <= n < |es| ==> Next(es[..n], es[n])
  }

  /** Cutting block-ordered events greedily gives exactly the declared windows, each with exactly its
      events. */
  lemma {:induction false} GreedyIsDeclared(registry: seq<Aggregator>, es: seq<Event>, base: int)
    requires ValidRegistry(registry) && OnePerGroup(registry) && AllRouted(registry, es)
    requires InTurn(es) && forall e :: e in es ==> e.block > base
    ensures Exact(registry, es, base, Greedy(registry, es))
  {
    if es == [] {
      NothingOpens(registry, base);
    } else {
      var front, e := es[..|es| - 1], es[|es| - 1];
      assert es == front + [e];
      assert InTurn(front) by { assert forall n :: 0 <= n < |front| ==> front[..n] == es[..n] && front[n] == es[n]; }
      GreedyIsDeclared(registry, front, base);
      var ws := Greedy(registry, front);
      GreedySettled(registry, front);
      GreedySnoc(registry, front, e);
      var k := AddToAt(registry, ws, e);
      if k < |ws| {
        ExactJoins(registry, front, e, base, ws, k);
      } else {
        ExactOpens(registry, front, e, base, ws, RouteOf(registry, e.name).value);
      }
    }
  }

  lemma {:induction false} NothingOpens(registry: seq<Aggregator>, base: int)
    ensures Exact(registry, [], base, [])
  {
    forall a, key, s ensures !Opens(registry, [], a, key, base, s) {
      assert !HasEvent(registry, [], a, key, s);
    }
  }
}
