/** What of a live feed is enough for every log it brings to pass the check: no log after a mark that
    claims it, and within the groups whose windows span several blocks each key in block order
    (sentinel/rpc.py, sentinel/modules/aggregation.py). */
module Arrivals {
  import opened Events
  import opened Sorting
  import opened Windows
  import opened Feed
  import opened Coverage
  import opened ChainWindows
  import opened Placement

  // ---------------------------------------------------------------- no log after a mark that claims it

  ghost predicate Timely(items: seq<Item>) {
    forall i, j :: 0 <= i < j < |items| && items[i].Mark? && items[j].Log? ==> items[j].event.block > items[i].number
  }

  lemma {:induction false} TimelyConcat(a: seq<Item>, b: seq<Item>)
    ensures Timely(a + b) <==>
      Timely(a) && Timely(b) && forall n, e :: Mark(n) in a && Log(e) in b ==> e.block > n
  {
    var s := a + b;
    if Timely(s) {
      forall i, j | 0 <= i < j < |a| && a[i].Mark? && a[j].Log? ensures a[j].event.block > a[i].number {
        assert s[i] == a[i] && s[j] == a[j];
      }
      forall i, j | 0 <= i < j < |b| && b[i].Mark? && b[j].Log? ensures b[j].event.block > b[i].number {
        assert s[|a| + i] == b[i] && s[|a| + j] == b[j];
      }
      forall n, e | Mark(n) in a && Log(e) in b ensures e.block > n {
        var i :| 0 <= i < |a| && a[i] == Mark(n);
        var j :| 0 <= j < |b| && b[j] == Log(e);
        assert s[i] == Mark(n) && s[|a| + j] == Log(e);
      }
    }
    if Timely(a) && Timely(b) && forall n, e :: Mark(n) in a && Log(e) in b ==> e.block > n {
      forall i, j | 0 <= i < j < |s| && s[i].Mark? && s[j].Log? ensures s[j].event.block > s[i].number {
        if i < |a| <= j { assert Mark(s[i].number) in a && Log(s[j].event) in b; }
      }
    }
  }

  lemma {:induction false} TimelyPrefix(p: seq<Item>, items: seq<Item>)
    requires p <= items && Timely(items)
    ensures Timely(p)
  {
    assert forall i :: 0 <= i < |p| ==> p[i] == items[i];
  }

  lemma {:induction false} NothingLateTimely(items: seq<Item>)
    requires NothingLate(items)
    ensures Timely(items)
  {
    forall i, j | 0 <= i < j < |items| && items[i].Mark? && items[j].Log?
      ensures items[j].event.block > items[i].number
    {
      assert !Due(items[j].event, items[i]);
    }
  }

  /** Draining puts no log after a mark that claims it and came before it. */
  lemma {:induction false} DrainedTimely(out: seq<Item>, items: seq<Item>)
    requires Drained(out, items) && Timely(items)
    ensures Timely(out)
    decreases |items|
  {
    if items != [] {
      var done, a, b := LastRound(out, items);
      TimelyConcat(a, b);
      DrainedTimely(done, a);
      DrainedMembers(done, a);
      SameElements(Sort(ItemLeq, b), b);
      SortedNothingLate(b);
      NothingLateTimely(Sort(ItemLeq, b));
      TimelyConcat(done, Sort(ItemLeq, b));
    }
  }

  lemma {:induction false} LiveTimely(out: seq<Item>, items: seq<Item>, later: seq<Item>)
    requires Drained(out, items) && Timely(items + later)
    ensures Timely(out + later)
  {
    TimelyConcat(items, later);
    TimelyConcat(out, later);
    DrainedTimely(out, items);
    DrainedMembers(out, items);
  }

  // ---------------------------------------------------------------- each key in block order

  /** The earlier log has the key of the later one, in a group whose windows span several blocks. */
  predicate Concerns(registry: seq<Aggregator>, x: Event, y: Event) {
    && Routed(registry, y) && RouteOf(registry, y.name).value.windowBlocks > 1 && x.block < y.block
    && Takes(registry, RouteOf(registry, y.name).value, RouteOf(registry, y.name).value.KeyFor(y), x)
  }

  /** Every chain log above `from` comes before the logs it concerns. */
  ghost predicate KeysInOrder(registry: seq<Aggregator>, chain: seq<Event>, from: int, items: seq<Item>) {
    forall x, y :: x in chain && x.block > from && Log(y) in items && Concerns(registry, x, y)
      ==> Before(items, x, Log(y))
  }

  lemma {:induction false} GaplessInOrder(registry: seq<Aggregator>, chain: seq<Event>, from: int, items: seq<Item>)
    requires Gapless(chain, from, items)
    ensures KeysInOrder(registry, chain, from, items)
  {
    forall x, y | x in chain && x.block > from && Log(y) in items && Concerns(registry, x, y)
      ensures Before(items, x, Log(y))
    {
      forall k | 0 <= k < |items| && items[k] == Log(y) ensures Log(x) in items[..k] {
        assert Due(x, items[k]);
      }
    }
  }

  lemma {:induction false} KeysInOrderPrefix(registry: seq<Aggregator>, chain: seq<Event>, from: int, p: seq<Item>,
        items: seq<Item>)
    requires p <= items && KeysInOrder(registry, chain, from, items)
    ensures KeysInOrder(registry, chain, from, p)
  {
    forall x, y | x in chain && x.block > from && Log(y) in p && Concerns(registry, x, y)
      ensures Before(p, x, Log(y))
    {
      assert items == p + items[|p|..];
      BeforeFirst(p, items[|p|..], x, Log(y));
    }
  }

  /** After a stretch that covers the blocks up to `m`. */
  lemma {:induction false} KeysInOrderConcat(registry: seq<Aggregator>, chain: seq<Event>, from: int, a: seq<Item>,
        m: int, b: seq<Item>)
    requires KeysInOrder(registry, chain, from, a) && KeysInOrder(registry, chain, m, b)
    requires Covers(chain, from + 1, m, a)
    ensures KeysInOrder(registry, chain, from, a + b)
  {
    forall x, y | x in chain && x.block > from && Log(y) in a + b && Concerns(registry, x, y)
      ensures Before(a + b, x, Log(y))
    {
      if Log(y) !in a { assert Before(a, x, Log(y)); }
      BeforeConcat(a, b, x, Log(y));
    }
  }

  /** The buffer keeps the order of each key. */
  lemma {:induction false} LiveInOrder(registry: seq<Aggregator>, chain: seq<Event>, from: int, out: seq<Item>,
        items: seq<Item>, later: seq<Item>)
    requires Drained(out, items) && KeysInOrder(registry, chain, from, items + later)
    ensures KeysInOrder(registry, chain, from, out + later)
  {
    DrainedMembers(out, items);
    forall x, y | x in chain && x.block > from && Log(y) in out + later && Concerns(registry, x, y)
      ensures Before(out + later, x, Log(y))
    {
      assert Log(y) in items + later;
      BeforeFirst(items, later, x, Log(y));
      DrainsBefore(out, items, x, Log(y));
      LaterBefore(out, items, later, x, Log(y));
    }
  }

  lemma {:induction false} LaterBefore(out: seq<Item>, items: seq<Item>, later: seq<Item>, x: Event, y: Item)
    requires |out| == |items| && (forall z :: z in out <==> z in items)
    requires Before(items + later, x, y) && Before(out, x, y)
    ensures Before(out + later, x, y)
  {
    var s, t := items + later, out + later;
    forall k | 0 <= k < |t| && t[k] == y ensures Log(x) in t[..k] {
      if k < |out| {
        assert t[..k] == out[..k];
      } else {
        assert s[k] == y && s[..k] == items + later[..k - |items|] && t[..k] == out + later[..k - |out|];
      }
    }
  }

  // ---------------------------------------------------------------- enough for the check

  /** Handed over after `p`, a stretch that keeps these orders passes the check log by log. */
  lemma {:induction false} OrderlyInPlace(registry: seq<Aggregator>, chain: seq<Event>, base: int, p: seq<Item>,
        from: int, r: seq<Item>)
    requires ValidRegistry(registry) && base <= from == CheckpointFrom(base, p) && Covers(chain, base + 1, from, p)
    requires InPlace(registry, chain, base, p)
    requires FromChain(chain, from, r) && Timely(r) && KeysInOrder(registry, chain, from, r)
    ensures InPlace(registry, chain, base, p + r)
  {
    var s := p + r;
    forall j | 0 <= j < |s| && s[j].Log? ensures Placed(registry, chain, base, s[..j], s[j].event) {
      if j < |p| {
        assert s[..j] == p[..j] && s[j] == p[j];
      } else {
        assert s[..j] == p + r[..j - |p|] && s[j] == r[j - |p|];
        OrderlyPlaced(registry, chain, base, p, from, r, j - |p|);
      }
    }
  }

  lemma {:induction false} OrderlyPlaced(registry: seq<Aggregator>, chain: seq<Event>, base: int, p: seq<Item>,
        from: int, r: seq<Item>, j: nat)
    requires ValidRegistry(registry) && base <= from == CheckpointFrom(base, p) && Covers(chain, base + 1, from, p)
    requires FromChain(chain, from, r) && Timely(r) && KeysInOrder(registry, chain, from, r)
    requires j < |r| && r[j].Log?
    ensures Placed(registry, chain, base, p + r[..j], r[j].event)
  {
    var e, q := r[j].event, p + r[..j];
    if Routed(registry, e) {
      HomeIs(registry, chain, base, e, e.block);
      CheckpointAdds(base, p, r[..j]);
      CheckpointIsHighest(from, r[..j]);
      var top := CheckpointFrom(base, q);
      if top != from { var i :| 0 <= i < j && r[..j][i] == Mark(top); }
      var a, home := RouteOf(registry, e.name).value, HomeOf(registry, chain, base, e).value;
      if home < e.block {
        var f :| f in chain && Takes(registry, a, a.KeyFor(e), f) && f.block == home;
        if f.block > from {
          assert Log(e) in r && Concerns(registry, f, e);
          assert Before(r, f, Log(e));
        } else {
          assert Log(f) in p;
        }
        assert Log(f) in q;
      }
    }
  }
}
