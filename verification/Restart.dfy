/** Crashes and restarts. A notification that was sent stays sent, but the store and the checkpoint go back
    to the last snapshot; the next life reads the chain on from that checkpoint. What each life sends is
    counted over all it handed over, what it leaves only up to its last snapshot
    (sentinel/services/subscription.py, sentinel/services/aggregation.py, sentinel/app/storage.py). */
module Restart {
  import opened Events
  import opened Windows
  import opened Partition
  import opened Batching
  import opened Coverage
  import opened ChainWindows
  import opened Placement

  /** Chain logs above the base, marks after the logs they claim, and each log in its place. */
  ghost predicate Sound(registry: seq<Aggregator>, chain: seq<Event>, base: int, p: seq<Item>) {
    Answered(chain, base, p) && InPlace(registry, chain, base, p)
  }

  /** What one process handed over before it died, and how much of that its last snapshot has. */
  datatype Life = Life(trace: seq<Item>, kept: nat)
  {
    function Kept(): (k: nat)
      ensures k <= |trace|
    {
      if kept <= |trace| then kept else |trace|
    }
  }

  /** What the n-th life finds: what came before them all, and what the snapshots of the others have. */
  function History(before: seq<Item>, lives: seq<Life>, n: nat): seq<Item>
    requires n <= |lives|
  {
    if n == 0 then before else History(before, lives, n - 1) + lives[n - 1].trace[..lives[n - 1].Kept()]
  }

  /** Each life goes on soundly from what it finds. */
  ghost predicate Lives(registry: seq<Aggregator>, chain: seq<Event>, base: int, before: seq<Item>, lives: seq<Life>) {
    && Sound(registry, chain, base, before)
    && forall i :: 0 <= i < |lives| ==> GoesOn(registry, chain, base, before, lives, i)
  }

  ghost predicate GoesOn(registry: seq<Aggregator>, chain: seq<Event>, base: int, before: seq<Item>, lives: seq<Life>,
                         i: nat)
    requires i < |lives|
  {
    Sound(registry, chain, base, History(before, lives, i) + lives[i].trace)
  }

  /** The windows that a life sent by the time it had handed over k items. */
  function SentBy(registry: seq<Aggregator>, before: seq<Item>, lives: seq<Life>, i: nat, k: nat): seq<Window>
    requires i < |lives| && k <= |lives[i].trace|
  {
    RunFrom(registry, Book(Run(registry, History(before, lives, i)).store, []), lives[i].trace[..k]).flushed
  }

  function SentIn(registry: seq<Aggregator>, before: seq<Item>, lives: seq<Life>, i: nat): seq<Window>
    requires i < |lives|
  {
    SentBy(registry, before, lives, i, |lives[i].trace|)
  }

  /** The checkpoint that a life finds. */
  function Found(base: int, before: seq<Item>, lives: seq<Life>, i: nat): int
    requires i <= |lives|
  {
    CheckpointFrom(base, History(before, lives, i))
  }

  /** The checkpoint after k of its items. */
  function ReachedBy(base: int, before: seq<Item>, lives: seq<Life>, i: nat, k: nat): int
    requires i < |lives| && k <= |lives[i].trace|
  {
    CheckpointFrom(base, History(before, lives, i) + lives[i].trace[..k])
  }

  /** The highest checkpoint of a life. */
  function Reached(base: int, before: seq<Item>, lives: seq<Life>, i: nat): int
    requires i < |lives|
  {
    ReachedBy(base, before, lives, i, |lives[i].trace|)
  }

  // ---------------------------------------------------------------- runs in two parts

  lemma {:induction false} SoundPrefix(registry: seq<Aggregator>, chain: seq<Event>, base: int, p: seq<Item>,
        q: seq<Item>)
    requires p <= q && Sound(registry, chain, base, q)
    ensures Sound(registry, chain, base, p)
  {
    MarksCoverPrefix(chain, base, p, q);
    forall j | 0 <= j < |p| && p[j].Log? ensures Placed(registry, chain, base, p[..j], p[j].event) {
      assert q[j] == p[j] && q[..j] == p[..j];
    }
  }

  lemma {:induction false} RunSplits(registry: seq<Aggregator>, b: Book, p: seq<Item>, t: seq<Item>)
    ensures RunFrom(registry, b, p + t) == RunFrom(registry, RunFrom(registry, b, p), t)
  {
    if t == [] {
      assert p + t == p;
    } else {
      assert (p + t)[..|p + t| - 1] == p + t[..|t| - 1];
      RunSplits(registry, b, p, t[..|t| - 1]);
    }
  }

  lemma {:induction false} FlushedAdds(registry: seq<Aggregator>, b: Book, t: seq<Item>)
    ensures var r := RunFrom(registry, Book(b.store, []), t);
            RunFrom(registry, b, t) == Book(r.store, b.flushed + r.flushed)
  {
    if t == [] {
      assert b.flushed + [] == b.flushed;
    } else {
      FlushedAdds(registry, b, t[..|t| - 1]);
      StepAdds(registry, b.flushed, RunFrom(registry, Book(b.store, []), t[..|t| - 1]), t[|t| - 1]);
    }
  }

  lemma {:induction false} StepAdds(registry: seq<Aggregator>, flushed: seq<Window>, r: Book, x: Item)
    ensures var n := Step(registry, r, x);
            Step(registry, Book(r.store, flushed + r.flushed), x) == Book(n.store, flushed + n.flushed)
  {
    if x.Mark? {
      var more := KnownOnly(registry, Ready(r.store, x.number));
      assert flushed + r.flushed + more == flushed + (r.flushed + more);
    }
  }

  /** What a stretch sends is what is due after it and was not before. */
  lemma {:induction false} StretchSends(registry: seq<Aggregator>, chain: seq<Event>, base: int, p: seq<Item>,
        t: seq<Item>)
    requires ValidRegistry(registry) && OnePerGroup(registry) && ChainOrdered(chain)
    requires Sound(registry, chain, base, p + t)
    ensures var sent := RunFrom(registry, Book(Run(registry, p).store, []), t).flushed;
            var lo, hi := CheckpointFrom(base, p), CheckpointFrom(base, p + t);
            && (forall w :: w in sent ==> lo < w.end <= hi && Declared(registry, chain, base, w))
            && InFlushOrder(sent)
            && (forall a, key, s :: a in registry && Opens(registry, chain, a, key, base, s) ==>
                 (Listed(sent, a, key, s) <==> lo < s + a.windowBlocks - 1 <= hi))
  {
    SoundPrefix(registry, chain, base, p, p + t);
    InPlaceIsDeclared(registry, chain, base, p);
    InPlaceIsDeclared(registry, chain, base, p + t);
    RunSplits(registry, Book([], []), p, t);
    FlushedAdds(registry, Run(registry, p), t);
    SecondPart(registry, chain, base, CheckpointFrom(base, p), CheckpointFrom(base, p + t), Run(registry, p).flushed,
      RunFrom(registry, Book(Run(registry, p).store, []), t).flushed);
  }

  lemma {:induction false} SecondPart(registry: seq<Aggregator>, chain: seq<Event>, base: int, lo: int, hi: int,
        first: seq<Window>, second: seq<Window>)
    requires OnePerGroup(registry)
    requires FlushedIs(registry, chain, base, lo, first) && FlushedIs(registry, chain, base, hi, first + second)
    ensures forall w :: w in second ==> lo < w.end <= hi && Declared(registry, chain, base, w)
    ensures InFlushOrder(second)
    ensures forall a, key, s :: a in registry && Opens(registry, chain, a, key, base, s) ==>
      (Listed(second, a, key, s) <==> lo < s + a.windowBlocks - 1 <= hi)
  {
    var all := first + second;
    forall i | 0 <= i < |second|
      ensures lo < second[i].end <= hi && Declared(registry, chain, base, second[i])
    {
      assert all[|first| + i] == second[i];
      assert second[i] in all;
      NotSentBefore(registry, chain, base, lo, first, second, i);
    }
    forall i, j | 0 <= i < j < |second|
      ensures WindowLeq(second[i], second[j]) && second[i].Slot() != second[j].Slot()
    {
      assert all[|first| + i] == second[i] && all[|first| + j] == second[j];
    }
    forall a, key, s | a in registry && Opens(registry, chain, a, key, base, s)
      ensures Listed(second, a, key, s) <==> lo < s + a.windowBlocks - 1 <= hi
    {
      ListedInSecond(registry, chain, base, lo, hi, first, second, a, key, s);
    }
  }

  lemma {:induction false} NotSentBefore(registry: seq<Aggregator>, chain: seq<Event>, base: int, lo: int,
        first: seq<Window>, second: seq<Window>, i: nat)
    requires OnePerGroup(registry) && i < |second|
    requires FlushedIs(registry, chain, base, lo, first) && InFlushOrder(first + second)
    requires Declared(registry, chain, base, second[i])
    ensures second[i].end > lo
  {
    SlotsDiffer(first, second);
    if second[i].end <= lo {
      var k := SlotSent(registry, chain, base, lo, first, second[i]);
    }
  }

  lemma {:induction false} SlotsDiffer(first: seq<Window>, second: seq<Window>)
    requires InFlushOrder(first + second)
    ensures forall k, i :: 0 <= k < |first| && 0 <= i < |second| ==> first[k].Slot() != second[i].Slot()
  {
    var all := first + second;
    forall k, i | 0 <= k < |first| && 0 <= i < |second| ensures first[k].Slot() != second[i].Slot() {
      assert all[k] == first[k] && all[|first| + i] == second[i];
    }
  }

  lemma {:induction false} SlotSent(registry: seq<Aggregator>, chain: seq<Event>, base: int, lo: int,
        first: seq<Window>, w: Window) returns (k: nat)
    requires OnePerGroup(registry) && FlushedIs(registry, chain, base, lo, first)
    requires Declared(registry, chain, base, w) && w.end <= lo
    ensures k < |first| && first[k].Slot() == w.Slot()
  {
    var a :| a in registry && DeclaredBy(registry, chain, base, a, w);
    assert Listed(first, a, w.key, w.start);
    k :| 0 <= k < |first| && first[k].group == a.group && first[k].key == w.key && first[k].start == w.start;
    assert first[k] in first;
    SameGroupEnds(registry, chain, base, first[k], w);
  }

  /** Declared windows of one group are equally long. */
  lemma {:induction false} SameGroupEnds(registry: seq<Aggregator>, chain: seq<Event>, base: int, v: Window, w: Window)
    requires Declared(registry, chain, base, v) && Declared(registry, chain, base, w)
    requires OnePerGroup(registry) && v.group == w.group && v.start == w.start
    ensures v.end == w.end
  {
  }

  lemma {:induction false} ListedInSecond(registry: seq<Aggregator>, chain: seq<Event>, base: int, lo: int, hi: int,
        first: seq<Window>, second: seq<Window>, a: Aggregator, key: Key, s: int)
    requires OnePerGroup(registry) && a in registry && Opens(registry, chain, a, key, base, s)
    requires FlushedIs(registry, chain, base, lo, first) && FlushedIs(registry, chain, base, hi, first + second)
    requires forall w :: w in second ==> lo < w.end <= hi
    ensures Listed(second, a, key, s) <==> lo < s + a.windowBlocks - 1 <= hi
  {
    var all := first + second;
    if Listed(second, a, key, s) {
      var i :| 0 <= i < |second| && second[i].group == a.group && second[i].key == key && second[i].start == s;
      assert second[i] in second && second[i] in all;
      assert Declared(registry, chain, base, second[i]);
    }
    if lo < s + a.windowBlocks - 1 <= hi {
      assert Listed(all, a, key, s);
      var i :| 0 <= i < |all| && all[i].group == a.group && all[i].key == key && all[i].start == s;
      assert all[i] in all;
      assert Declared(registry, chain, base, all[i]);
      FirstEnds(first, second, lo);
      assert all[i] == second[i - |first|];
    }
  }

  lemma {:induction false} FirstEnds(first: seq<Window>, second: seq<Window>, lo: int)
    requires forall w :: w in first ==> w.end <= lo
    ensures forall i :: 0 <= i < |first| ==> (first + second)[i].end <= lo
  {
    forall i | 0 <= i < |first| ensures (first + second)[i].end <= lo {
      assert first[i] in first;
    }
  }

  // ---------------------------------------------------------------- what each life sends

  lemma {:induction false} LifePart(registry: seq<Aggregator>, chain: seq<Event>, base: int, before: seq<Item>,
        lives: seq<Life>, i: nat, k: nat)
    requires Lives(registry, chain, base, before, lives) && i < |lives| && k <= |lives[i].trace|
    ensures Sound(registry, chain, base, History(before, lives, i) + lives[i].trace[..k])
  {
    var h, t := History(before, lives, i), lives[i].trace;
    assert GoesOn(registry, chain, base, before, lives, i);
    assert h + t[..k] <= h + t;
    SoundPrefix(registry, chain, base, h + t[..k], h + t);
  }

  /** Every snapshot is sound. */
  lemma {:induction false} SnapshotSound(registry: seq<Aggregator>, chain: seq<Event>, base: int, before: seq<Item>,
        lives: seq<Life>, n: nat)
    requires Lives(registry, chain, base, before, lives) && n <= |lives|
    ensures Sound(registry, chain, base, History(before, lives, n))
  {
    if n > 0 {
      LifePart(registry, chain, base, before, lives, n - 1, lives[n - 1].Kept());
      assert History(before, lives, n)
        == History(before, lives, n - 1) + lives[n - 1].trace[..lives[n - 1].Kept()];
    }
  }

  /** Whatever a life sends, it sends once, in flush order, and it is a window that the chain declares with
      exactly its logs. */
  lemma {:induction false} SentIsDeclared(registry: seq<Aggregator>, chain: seq<Event>, base: int, before: seq<Item>,
        lives: seq<Life>, i: nat, k: nat)
    requires ValidRegistry(registry) && OnePerGroup(registry) && ChainOrdered(chain)
    requires Lives(registry, chain, base, before, lives) && i < |lives| && k <= |lives[i].trace|
    ensures forall w :: w in SentBy(registry, before, lives, i, k) ==> Declared(registry, chain, base, w)
    ensures InFlushOrder(SentBy(registry, before, lives, i, k))
  {
    LifePart(registry, chain, base, before, lives, i, k);
    StretchSends(registry, chain, base, History(before, lives, i), lives[i].trace[..k]);
  }

  /** At any moment a life has sent exactly those declared windows that end above the checkpoint it found
      and at or below the one it has. */
  lemma {:induction false} SendsExactly(registry: seq<Aggregator>, chain: seq<Event>, base: int, before: seq<Item>,
        lives: seq<Life>, i: nat, k: nat, a: Aggregator, key: Key, s: int)
    requires ValidRegistry(registry) && OnePerGroup(registry) && ChainOrdered(chain)
    requires Lives(registry, chain, base, before, lives) && i < |lives| && k <= |lives[i].trace|
    requires a in registry && Opens(registry, chain, a, key, base, s)
    ensures Listed(SentBy(registry, before, lives, i, k), a, key, s) <==>
      Found(base, before, lives, i) < s + a.windowBlocks - 1 <= ReachedBy(base, before, lives, i, k)
  {
    LifePart(registry, chain, base, before, lives, i, k);
    StretchSends(registry, chain, base, History(before, lives, i), lives[i].trace[..k]);
  }

  /** Checkpoints found never go back, and none lies above what the life before reached. */
  lemma {:induction false} FoundGrows(base: int, before: seq<Item>, lives: seq<Life>, i: nat, j: nat)
    requires i <= j <= |lives|
    ensures Found(base, before, lives, i) <= Found(base, before, lives, j)
    ensures i < j ==> Found(base, before, lives, j) <= Reached(base, before, lives, j - 1)
    ensures i < j ==> Found(base, before, lives, j) == ReachedBy(base, before, lives, j - 1, lives[j - 1].Kept())
    decreases j
  {
    if i < j {
      FoundGrows(base, before, lives, i, j - 1);
      var h, t, k := History(before, lives, j - 1), lives[j - 1].trace, lives[j - 1].Kept();
      CheckpointAdds(base, h, t[..k]);
      assert h + t[..|t|] == (h + t[..k]) + t[k..];
      CheckpointAdds(base, h + t[..k], t[k..]);
    }
  }

  /** The first life from i on that gets as far as a block. */
  lemma {:induction false} FirstToReach(base: int, before: seq<Item>, lives: seq<Life>, i: nat, n: nat, block: int)
    returns (j: nat)
    requires i <= n < |lives| && Found(base, before, lives, i) < block <= Reached(base, before, lives, n)
    ensures i <= j <= n && Found(base, before, lives, j) < block <= Reached(base, before, lives, j)
    decreases n - i
  {
    if block <= Reached(base, before, lives, i) {
      j := i;
    } else {
      FoundGrows(base, before, lives, i, i + 1);
      j := FirstToReach(base, before, lives, i + 1, n, block);
    }
  }

  /** Nothing that the chain declares is left out: once any life has got as far as its end, a window was
      sent, if not before. */
  lemma {:induction false} DeclaredIsSent(registry: seq<Aggregator>, chain: seq<Event>, base: int, before: seq<Item>,
        lives: seq<Life>, n: nat, a: Aggregator, key: Key, s: int)
    requires ValidRegistry(registry) && OnePerGroup(registry) && ChainOrdered(chain)
    requires Lives(registry, chain, base, before, lives) && n < |lives|
    requires a in registry && Opens(registry, chain, a, key, base, s)
    requires s + a.windowBlocks - 1 <= Reached(base, before, lives, n)
    ensures Listed(Run(registry, before).flushed, a, key, s)
            || exists j :: 0 <= j <= n && Listed(SentIn(registry, before, lives, j), a, key, s)
  {
    InPlaceIsDeclared(registry, chain, base, before);
    var end := s + a.windowBlocks - 1;
    if end > CheckpointFrom(base, before) {
      assert Found(base, before, lives, 0) == CheckpointFrom(base, before);
      var j := FirstToReach(base, before, lives, 0, n, end);
      SendsExactly(registry, chain, base, before, lives, j, |lives[j].trace|, a, key, s);
      assert Listed(SentIn(registry, before, lives, j), a, key, s);
    }
  }

  /** A window that a life sent is sent again exactly when its mark came after the life's last snapshot and
      a later life gets as far again. */
  lemma {:induction false} SentAgainIff(registry: seq<Aggregator>, chain: seq<Event>, base: int, before: seq<Item>,
        lives: seq<Life>, i: nat, a: Aggregator, key: Key, s: int)
    requires ValidRegistry(registry) && OnePerGroup(registry) && ChainOrdered(chain)
    requires Lives(registry, chain, base, before, lives) && i < |lives|
    requires a in registry && Opens(registry, chain, a, key, base, s)
    requires Listed(SentIn(registry, before, lives, i), a, key, s)
    ensures (exists j :: i < j < |lives| && Listed(SentIn(registry, before, lives, j), a, key, s)) <==>
      && !Listed(SentBy(registry, before, lives, i, lives[i].Kept()), a, key, s)
      && exists j :: i < j < |lives| && s + a.windowBlocks - 1 <= Reached(base, before, lives, j)
  {
    if j :| i < j < |lives| && Listed(SentIn(registry, before, lives, j), a, key, s) {
      SentAgain(registry, chain, base, before, lives, i, j, a, key, s);
    }
    if !Listed(SentBy(registry, before, lives, i, lives[i].Kept()), a, key, s) {
      if n :| i < n < |lives| && s + a.windowBlocks - 1 <= Reached(base, before, lives, n) {
        var j := WillSendAgain(registry, chain, base, before, lives, i, n, a, key, s);
      }
    }
  }

  lemma {:induction false} SentAgain(registry: seq<Aggregator>, chain: seq<Event>, base: int, before: seq<Item>,
        lives: seq<Life>, i: nat, j: nat, a: Aggregator, key: Key, s: int)
    requires ValidRegistry(registry) && OnePerGroup(registry) && ChainOrdered(chain)
    requires Lives(registry, chain, base, before, lives) && i < j < |lives|
    requires a in registry && Opens(registry, chain, a, key, base, s)
    requires Listed(SentIn(registry, before, lives, j), a, key, s)
    ensures !Listed(SentBy(registry, before, lives, i, lives[i].Kept()), a, key, s)
    ensures s + a.windowBlocks - 1 <= Reached(base, before, lives, j)
  {
    SendsExactly(registry, chain, base, before, lives, i, lives[i].Kept(), a, key, s);
    SendsExactly(registry, chain, base, before, lives, j, |lives[j].trace|, a, key, s);
    FoundGrows(base, before, lives, i, i + 1);
    FoundGrows(base, before, lives, i + 1, j);
  }

  lemma {:induction false} WillSendAgain(registry: seq<Aggregator>, chain: seq<Event>, base: int, before: seq<Item>,
        lives: seq<Life>, i: nat, n: nat, a: Aggregator, key: Key, s: int) returns (j: nat)
    requires ValidRegistry(registry) && OnePerGroup(registry) && ChainOrdered(chain)
    requires Lives(registry, chain, base, before, lives) && i < n < |lives|
    requires a in registry && Opens(registry, chain, a, key, base, s)
    requires Listed(SentIn(registry, before, lives, i), a, key, s)
    requires !Listed(SentBy(registry, before, lives, i, lives[i].Kept()), a, key, s)
    requires s + a.windowBlocks - 1 <= Reached(base, before, lives, n)
    ensures i < j < |lives| && Listed(SentIn(registry, before, lives, j), a, key, s)
  {
    SendsExactly(registry, chain, base, before, lives, i, |lives[i].trace|, a, key, s);
    SendsExactly(registry, chain, base, before, lives, i, lives[i].Kept(), a, key, s);
    FoundGrows(base, before, lives, i, i + 1);
    j := FirstToReach(base, before, lives, i + 1, n, s + a.windowBlocks - 1);
    SendsExactly(registry, chain, base, before, lives, j, |lives[j].trace|, a, key, s);
  }

  // ---------------------------------------------------------------- what a snapshot still has

  /** No window of a snapshot is due, so the flush with which each process begins sends nothing. */
  lemma {:induction false} NothingToResume(registry: seq<Aggregator>, chain: seq<Event>, base: int, p: seq<Item>)
    requires ValidRegistry(registry) && OnePerGroup(registry) && ChainOrdered(chain)
    requires Sound(registry, chain, base, p)
    ensures Ready(Run(registry, p).store, CheckpointFrom(base, p)) == []
  {
    InPlaceIsDeclared(registry, chain, base, p);
    NoneDue(Run(registry, p).store, CheckpointFrom(base, p));
  }

  lemma {:induction false} NoneDue(ws: seq<Window>, block: int)
    requires forall w :: w in ws ==> w.end > block
    ensures EndingBy(ws, block) == []
  {
    if ws != [] { NoneDue(ws[1..], block); }
  }

  /** Every aggregated log that came by a snapshot is in one of its windows, or in one sent before it. */
  lemma {:induction false} RestIsPending(registry: seq<Aggregator>, chain: seq<Event>, base: int, p: seq<Item>,
          e: Event)
    requires ValidRegistry(registry) && OnePerGroup(registry) && ChainOrdered(chain)
    requires Sound(registry, chain, base, p) && Log(e) in p && Routed(registry, e)
    ensures e in EventsIn(Run(registry, p).store) || exists w :: w in Run(registry, p).flushed && e in w.events
  {
    InPlaceIsDeclared(registry, chain, base, p);
    CameIn(chain, base, p, e);
    HomeCame(registry, chain, base, p, e);
    var a, home := RouteOf(registry, e.name).value, HomeOf(registry, chain, base, e).value;
    HomeIs(registry, chain, base, e, home);
    var b, key := Run(registry, p), a.KeyFor(e);
    if home + a.windowBlocks - 1 > CheckpointFrom(base, p) {
      assert Listed(b.store, a, key, home);
      InItsWindow(registry, chain, base, p, b.store, a, e);
    } else {
      assert Listed(b.flushed, a, key, home);
      InItsFlushed(registry, chain, base, b.flushed, a, e);
    }
  }

  lemma {:induction false} InItsWindow(registry: seq<Aggregator>, chain: seq<Event>, base: int, p: seq<Item>,
        store: seq<Window>, a: Aggregator, e: Event)
    requires ValidRegistry(registry) && OnePerGroup(registry) && e in chain && e.block > base && Log(e) in p
    requires RouteOf(registry, e.name) == Some(a) && HomeOf(registry, chain, base, e).Some?
    requires forall w :: w in store ==> Pending(registry, chain, base, p, w)
    requires Listed(store, a, a.KeyFor(e), HomeOf(registry, chain, base, e).value)
    ensures e in EventsIn(store)
  {
    var home := HomeOf(registry, chain, base, e).value;
    HomeIs(registry, chain, base, e, home);
    var i :| 0 <= i < |store| && store[i].group == a.group && store[i].key == a.KeyFor(e) && store[i].start == home;
    assert store[i] in store;
    assert Pending(registry, chain, base, p, store[i]);
  }

  lemma {:induction false} InItsFlushed(registry: seq<Aggregator>, chain: seq<Event>, base: int, flushed: seq<Window>,
        a: Aggregator, e: Event)
    requires ValidRegistry(registry) && OnePerGroup(registry) && e in chain && e.block > base
    requires RouteOf(registry, e.name) == Some(a) && HomeOf(registry, chain, base, e).Some?
    requires forall w :: w in flushed ==> Declared(registry, chain, base, w)
    requires Listed(flushed, a, a.KeyFor(e), HomeOf(registry, chain, base, e).value)
    ensures exists w :: w in flushed && e in w.events
  {
    var home := HomeOf(registry, chain, base, e).value;
    HomeIs(registry, chain, base, e, home);
    var i :| 0 <= i < |flushed| && flushed[i].group == a.group && flushed[i].key == a.KeyFor(e)
      && flushed[i].start == home;
    assert flushed[i] in flushed;
    assert Declared(registry, chain, base, flushed[i]);
  }

  lemma {:induction false} FlushedParts(registry: seq<Aggregator>, h: seq<Item>, t: seq<Item>)
    ensures Run(registry, h + t).flushed
      == Run(registry, h).flushed + RunFrom(registry, Book(Run(registry, h).store, []), t).flushed
  {
    RunSplits(registry, Book([], []), h, t);
    FlushedAdds(registry, Run(registry, h), t);
  }

  /** A snapshot's flushed windows were really sent, by one of the lives unless before all. */
  lemma {:induction false} FlushedWasSent(registry: seq<Aggregator>, before: seq<Item>, lives: seq<Life>, n: nat,
        w: Window) returns (j: nat)
    requires n <= |lives| && w in Run(registry, History(before, lives, n)).flushed
    requires w !in Run(registry, before).flushed
    ensures j < n && w in SentBy(registry, before, lives, j, lives[j].Kept())
  {
    j := n - 1;
    FlushedParts(registry, History(before, lives, j), lives[j].trace[..lives[j].Kept()]);
    if w !in SentBy(registry, before, lives, j, lives[j].Kept()) {
      j := FlushedWasSent(registry, before, lives, j, w);
    }
  }
}
