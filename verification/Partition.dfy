/** The simple thing the coordinator refines: every key's events, cut greedily into windows,
    and flushed in one global order. Block marks, batch sizes, redelivery and restarts do not
    change the windows that come out (sentinel/services/aggregation.py). */
module Partition {
  import opened Events
  import opened Sorting
  import opened Windows

  // ---------------------------------------------------------------- one store step

  /** The store after an event, told by recursion: join the first window that fits, or open one. */
  function AddTo(registry: seq<Aggregator>, store: seq<Window>, e: Event): seq<Window>
    requires Routed(registry, e)
  {
    if store == [] then [RouteOf(registry, e.name).value.Open(e).WithEvent(e)]
    else if Fits(registry, store[0], e) then [store[0].WithEvent(e)] + store[1..]
    else [store[0]] + AddTo(registry, store[1..], e)
  }

  /** Lookup followed by upsert is that join: no event ever overwrites a window it does not fit,
      and a fresh window never lands on an existing record. */
  lemma {:induction false} OnEventIsAddTo(registry: seq<Aggregator>, store: seq<Window>, e: Event)
    requires ValidRegistry(registry) && Routed(registry, e)
    ensures OnEvent(registry, store, e) == AddTo(registry, store, e)
  {
    if store == [] || Fits(registry, store[0], e) {
    } else {
      OnEventIsAddTo(registry, store[1..], e);
    }
  }

  function EventsIn(ws: seq<Window>): (r: set<Event>)
    ensures forall w, e :: w in ws && e in w.events ==> e in r
  {
    if ws == [] then {} else (set e | e in ws[0].events) + EventsIn(ws[1..])
  }

  /** Each event sits in the first window, in store order, that fits it; no window is empty. */
  ghost predicate Settled(registry: seq<Aggregator>, store: seq<Window>) {
    store == [] ||
    (&& store[0].events != []
     && (forall e :: e in store[0].events ==> Fits(registry, store[0], e))
     && (forall e :: e in EventsIn(store[1..]) ==> !Fits(registry, store[0], e))
     && Settled(registry, store[1..]))
  }

  lemma {:induction false} AddToEvents(registry: seq<Aggregator>, store: seq<Window>, e: Event)
    requires Routed(registry, e)
    ensures EventsIn(AddTo(registry, store, e)) <= EventsIn(store) + {e}
    ensures EventsIn(store) <= EventsIn(AddTo(registry, store, e))
  {
    if store == [] || Fits(registry, store[0], e) {
    } else {
      AddToEvents(registry, store[1..], e);
    }
  }

  lemma {:induction false} AddToSettled(registry: seq<Aggregator>, store: seq<Window>, e: Event)
    requires ValidRegistry(registry) && Routed(registry, e) && Settled(registry, store)
    ensures Settled(registry, AddTo(registry, store, e))
  {
    if store == [] {
    } else if Fits(registry, store[0], e) {
    } else {
      AddToSettled(registry, store[1..], e);
      AddToEvents(registry, store[1..], e);
      var r := AddTo(registry, store, e);
      assert r[1..] == AddTo(registry, store[1..], e);
    }
  }

  /** The same log, decoded again: same identity, block, aggregator and key; the rest may differ. */
  predicate SameLog(registry: seq<Aggregator>, e: Event, f: Event) {
    && e.Identity() == f.Identity() && e.block == f.block
    && RouteOf(registry, e.name) == RouteOf(registry, f.name)
    && forall a :: a in registry && RouteOf(registry, e.name) == Some(a) ==> a.KeyFor(e) == a.KeyFor(f)
  }

  /** Handing over a log again, while its window is pending, leaves the store as it was. */
  lemma {:induction false} RedeliveryIsNoOp(registry: seq<Aggregator>, store: seq<Window>, e: Event, f: Event)
    requires Routed(registry, e) && SameLog(registry, e, f) && Settled(registry, store) && e in EventsIn(store)
    ensures AddTo(registry, store, f) == store
  {
    if e in store[0].events {
      var i :| 0 <= i < |store[0].events| && store[0].events[i] == e;
      assert store[0].events[i].Identity() == f.Identity();
    } else {
      RedeliveryIsNoOp(registry, store[1..], e, f);
    }
  }

  lemma {:induction false} EventsInMember(ws: seq<Window>, e: Event) returns (i: nat)
    requires e in EventsIn(ws)
    ensures i < |ws| && e in ws[i].events
  {
    if e in ws[0].events {
      i := 0;
    } else {
      i := EventsInMember(ws[1..], e);
      i := i + 1;
    }
  }

  lemma {:induction false} SettledAt(registry: seq<Aggregator>, store: seq<Window>, i: nat, j: nat)
    requires Settled(registry, store) && i <= j < |store|
    ensures store[j].events != []
    ensures forall e :: e in store[j].events ==> (Fits(registry, store[i], e) <==> i == j)
  {
    if i == 0 {
      if j != 0 { assert store[1..][j - 1] == store[j]; SettledAt(registry, store[1..], 0, j - 1); }
    } else {
      SettledAt(registry, store[1..], i - 1, j - 1);
    }
  }

  /** Two pending windows never share an event, even when late events made them overlap. */
  lemma {:induction false} WindowsShareNoEvent(registry: seq<Aggregator>, store: seq<Window>, i: nat, j: nat, e: Event)
    requires Settled(registry, store) && i < |store| && j < |store|
    requires e in store[i].events && e in store[j].events
    ensures i == j
  {
    if i < j {
      SettledAt(registry, store, i, i);
      SettledAt(registry, store, i, j);
    } else if j < i {
      SettledAt(registry, store, j, j);
      SettledAt(registry, store, j, i);
    }
  }

  /** Storage keys are unique, so a dictionary holds exactly these records. */
  lemma {:induction false} SlotsUnique(registry: seq<Aggregator>, store: seq<Window>, i: nat, j: nat)
    requires Settled(registry, store) && i < |store| && j < |store|
    requires store[i].Slot() == store[j].Slot()
    ensures i == j
  {
    var a, b := if i < j then i else j, if i < j then j else i;
    SettledAt(registry, store, a, b);
    SettledAt(registry, store, b, b);
    var e := store[b].events[0];
    assert e in store[b].events;
    assert Fits(registry, store[b], e);
    assert Fits(registry, store[a], e);
  }

  ghost predicate Apart(ws: seq<Window>) {
    forall i, j :: 0 <= i < j < |ws| ==> ws[i].Slot() != ws[j].Slot()
  }

  lemma {:induction false} SlotsApart(registry: seq<Aggregator>, ws: seq<Window>)
    requires Settled(registry, ws)
    ensures Apart(ws)
  {
    forall i, j | 0 <= i < j < |ws| ensures ws[i].Slot() != ws[j].Slot() {
      if ws[i].Slot() == ws[j].Slot() { SlotsUnique(registry, ws, i, j); }
    }
  }

  lemma {:induction false} EndingByApart(ws: seq<Window>, block: int)
    requires Apart(ws)
    ensures Apart(EndingBy(ws, block))
  {
    if ws != [] {
      var rest := EndingBy(ws[1..], block);
      EndingByApart(ws[1..], block);
      forall i | 0 <= i < |rest| ensures ws[0].Slot() != rest[i].Slot() {
        assert rest[i] in ws[1..];
      }
    }
  }

  lemma {:induction false} ApartSorted(a: seq<Window>, b: seq<Window>)
    requires Apart(a) && multiset(a) == multiset(b)
    ensures Apart(b)
  {
    assert NoRepeats(a);
    PermutationNoRepeats(a, b);
    SameElements(a, b);
    forall i, j | 0 <= i < j < |b| ensures b[i].Slot() != b[j].Slot() {
      assert b[i] in a && b[j] in a;
      var k :| 0 <= k < |a| && a[k] == b[i];
      var l :| 0 <= l < |a| && a[l] == b[j];
      assert k < l || l < k;
    }
  }

  /** No two windows of a flush have the same storage key. */
  lemma {:induction false} ReadyApart(registry: seq<Aggregator>, store: seq<Window>, block: int)
    requires Settled(registry, store)
    ensures Apart(Ready(store, block))
  {
    SlotsApart(registry, store);
    EndingByApart(store, block);
    ApartSorted(EndingBy(store, block), Ready(store, block));
  }

  // ---------------------------------------------------------------- cutting by block

  lemma {:induction false} CutAddTo(registry: seq<Aggregator>, ws: seq<Window>, e: Event, m: int)
    requires ValidRegistry(registry) && Routed(registry, e) && e.block > m
    ensures EndingAfter(AddTo(registry, ws, e), m) == AddTo(registry, EndingAfter(ws, m), e)
    ensures EndingBy(AddTo(registry, ws, e), m) == EndingBy(ws, m)
  {
    if ws == [] || Fits(registry, ws[0], e) {
    } else {
      CutAddTo(registry, ws[1..], e, m);
    }
  }

  lemma {:induction false} CutTwice(ws: seq<Window>, m: int, b: int)
    ensures EndingAfter(EndingAfter(ws, m), b) == EndingAfter(ws, if m < b then b else m)
    ensures b <= m ==> EndingBy(EndingAfter(ws, m), b) == []
  {
    if ws == [] {
    } else {
      CutTwice(ws[1..], m, b);
    }
  }

  lemma {:induction false} CutSplits(ws: seq<Window>, m: int, b: int)
    requires m <= b
    ensures multiset(EndingBy(ws, m)) + multiset(EndingBy(EndingAfter(ws, m), b)) == multiset(EndingBy(ws, b))
  {
    if ws == [] {
    } else {
      CutSplits(ws[1..], m, b);
      var x, y, z := EndingBy(ws[1..], m), EndingBy(EndingAfter(ws[1..], m), b), EndingBy(ws[1..], b);
      var w := [ws[0]];
      assert multiset(w + x) == multiset(w) + multiset(x);
      assert multiset(w + y) == multiset(w) + multiset(y);
      assert multiset(w + z) == multiset(w) + multiset(z);
    }
  }

  /** Flushing up to m and then up to b gives, in order, what one flush up to b would have given. */
  lemma {:induction false} FlushInSteps(registry: seq<Aggregator>, ws: seq<Window>, m: int, b: int)
    requires Settled(registry, ws) && m <= b
    ensures Ready(ws, m) + Ready(EndingAfter(ws, m), b) == Ready(ws, b)
  {
    var x, y, z := EndingBy(ws, m), EndingBy(EndingAfter(ws, m), b), EndingBy(ws, b);
    forall u, v | u in x && v in y ensures WindowLeq(u, v) {
    }
    SortConcat(WindowLeq, x, y);
    CutSplits(ws, m, b);
    assert multiset(x + y) == multiset(x) + multiset(y);
    WindowLeqIsPreorder();
    SortSorts(WindowLeq, x + y);
    SortSorts(WindowLeq, z);
    var s := Sort(WindowLeq, z);
    forall i, j | 0 <= i < |s| && 0 <= j < |s| && WindowLeq(s[i], s[j]) && WindowLeq(s[j], s[i])
      ensures s[i] == s[j]
    {
      WindowLeqTies(s[i], s[j]);
      assert s[i] in multiset(s) && s[j] in multiset(s);
      assert s[i] in z && s[j] in z;
      var k :| 0 <= k < |ws| && ws[k] == s[i];
      var l :| 0 <= l < |ws| && ws[l] == s[j];
      SlotsUnique(registry, ws, k, l);
    }
    SortedUnique(WindowLeq, s, Sort(WindowLeq, x + y));
  }
}
