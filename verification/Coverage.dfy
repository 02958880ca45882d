/** What a delivery trace says about the chain: which logs a mark claims, in which order logs and marks
    may come, and what draining the live buffer and replaying a block range keep of it
    (sentinel/rpc.py, sentinel/services/subscription.py). */
module Coverage {
  import opened Events
  import opened Sorting
  import opened Feed

  /** The chain: block by block, every log its own identity. */
  ghost predicate ChainOrdered(chain: seq<Event>) {
    forall i, j :: 0 <= i < j < |chain| ==>
      chain[i].block <= chain[j].block && chain[i].Identity() != chain[j].Identity()
  }

  /** Every chain log in the block range was handed over. */
  ghost predicate Covers(chain: seq<Event>, lo: int, hi: int, trace: seq<Item>) {
    forall x :: x in chain && lo <= x.block <= hi ==> Log(x) in trace
  }

  /** The log has to come before the item: a mark completes its block, and logs come block by block. */
  predicate Due(x: Event, item: Item) {
    match item
    case Log(e) => x.block < e.block
    case Mark(b) => x.block <= b
  }

  /** No mark comes before a chain log above `from` that it claims. */
  ghost predicate MarksCover(chain: seq<Event>, from: int, items: seq<Item>) {
    forall j, x :: 0 <= j < |items| && items[j].Mark? && x in chain && x.block > from && Due(x, items[j])
      ==> Log(x) in items[..j]
  }

  /** Nothing comes after something it was due before. */
  ghost predicate NothingLate(items: seq<Item>) {
    forall i, j :: 0 <= i < j < |items| && items[j].Log? ==> !Due(items[j].event, items[i])
  }

  /** Every chain log above `from` comes before the items it is due before. */
  ghost predicate NothingMissing(chain: seq<Event>, from: int, items: seq<Item>) {
    forall j, x :: 0 <= j < |items| && x in chain && x.block > from && Due(x, items[j]) ==> Log(x) in items[..j]
  }

  ghost predicate FromChain(chain: seq<Event>, from: int, items: seq<Item>) {
    forall i :: 0 <= i < |items| && items[i].Log? ==> items[i].event in chain && items[i].event.block > from
  }

  /** The chain above `from`, block by block and without a gap; within a block in any order. */
  ghost predicate Gapless(chain: seq<Event>, from: int, items: seq<Item>) {
    NothingLate(items) && FromChain(chain, from, items) && NothingMissing(chain, from, items)
  }

  lemma {:induction false} GaplessMarksCover(chain: seq<Event>, from: int, items: seq<Item>)
    requires Gapless(chain, from, items)
    ensures MarksCover(chain, from, items)
  {
  }

  /** In a feed without late logs it is enough that what a mark claims comes at all. */
  lemma {:induction false} NothingLateMarksCover(chain: seq<Event>, from: int, items: seq<Item>)
    requires NothingLate(items)
    requires forall b, x :: Mark(b) in items && x in chain && from < x.block <= b ==> Log(x) in items
    ensures MarksCover(chain, from, items)
  {
    forall j, x | 0 <= j < |items| && items[j].Mark? && x in chain && x.block > from && Due(x, items[j])
      ensures Log(x) in items[..j]
    {
      assert Mark(items[j].number) in items;
      var i :| 0 <= i < |items| && items[i] == Log(x);
      assert i < j;
      assert items[..j][i] == Log(x);
    }
  }

  // ---------------------------------------------------------------- stretches of a trace

  lemma {:induction false} MarksCoverPrefix(chain: seq<Event>, from: int, p: seq<Item>, items: seq<Item>)
    requires p <= items && MarksCover(chain, from, items)
    ensures MarksCover(chain, from, p)
  {
    forall j, x | 0 <= j < |p| && p[j].Mark? && x in chain && x.block > from && Due(x, p[j]) ensures Log(x) in p[..j] {
      assert p[j] == items[j] && items[..j] == p[..j];
    }
  }

  lemma {:induction false} GaplessPrefix(chain: seq<Event>, from: int, p: seq<Item>, items: seq<Item>)
    requires p <= items && Gapless(chain, from, items)
    ensures Gapless(chain, from, p)
  {
    forall j, x | 0 <= j < |p| && x in chain && x.block > from && Due(x, p[j]) ensures Log(x) in p[..j] {
      assert p[j] == items[j] && items[..j] == p[..j];
    }
  }

  /** After a stretch that covers the blocks up to `m`, the rest has to answer only for what lies above. */
  lemma {:induction false} MarksCoverConcat(chain: seq<Event>, from: int, a: seq<Item>, m: int, b: seq<Item>)
    requires MarksCover(chain, from, a) && MarksCover(chain, m, b) && Covers(chain, from + 1, m, a)
    ensures MarksCover(chain, from, a + b)
  {
    var s := a + b;
    forall j, x | 0 <= j < |s| && s[j].Mark? && x in chain && x.block > from && Due(x, s[j]) ensures Log(x) in s[..j] {
      if j < |a| {
        assert s[..j] == a[..j];
      } else {
        assert s[..j] == a + b[..j - |a|];
        if x.block > m { assert b[j - |a|] == s[j]; }
      }
    }
  }

  lemma {:induction false} GaplessConcat(chain: seq<Event>, from: int, a: seq<Item>, m: int, b: seq<Item>)
    requires Gapless(chain, from, a) && Gapless(chain, m, b) && Covers(chain, from + 1, m, a)
    requires from <= m && forall x :: x in a ==> Number(x) <= m
    ensures Gapless(chain, from, a + b)
  {
    var s := a + b;
    forall j, x | 0 <= j < |s| && x in chain && x.block > from && Due(x, s[j]) ensures Log(x) in s[..j] {
      if j < |a| {
        assert s[..j] == a[..j];
      } else {
        assert s[..j] == a + b[..j - |a|];
        if x.block > m { assert b[j - |a|] == s[j]; }
      }
    }
    forall i, j | 0 <= i < j < |s| && s[j].Log? ensures !Due(s[j].event, s[i]) {
      if i < |a| <= j {
        assert s[i] in a && b[j - |a|] == s[j];
      }
    }
  }

  // ---------------------------------------------------------------- what the checkpoint claims

  lemma {:induction false} CheckpointAdds(start: int, a: seq<Item>, b: seq<Item>)
    ensures CheckpointFrom(start, a + b) == CheckpointFrom(CheckpointFrom(start, a), b)
  {
    if b == [] {
      assert a + b == a;
    } else {
      assert (a + b)[..|a + b| - 1] == a + b[..|b| - 1];
      CheckpointAdds(start, a, b[..|b| - 1]);
    }
  }

  /** The checkpoint is the start or the highest mark. */
  lemma {:induction false} CheckpointIsHighest(start: int, items: seq<Item>)
    ensures CheckpointFrom(start, items) == start || Mark(CheckpointFrom(start, items)) in items
    ensures CheckpointFrom(start, items) >= start
    ensures forall b :: Mark(b) in items ==> b <= CheckpointFrom(start, items)
  {
    if items == [] {
    } else {
      var front, last := items[..|items| - 1], items[|items| - 1];
      assert items == front + [last];
      CheckpointIsHighest(start, front);
    }
  }

  lemma {:induction false} CheckpointWithin(start: int, items: seq<Item>, top: int)
    requires start <= top && forall b :: Mark(b) in items ==> b <= top
    ensures start <= CheckpointFrom(start, items) <= top
  {
    CheckpointIsHighest(start, items);
  }

  /** What the checkpoint claims above the start was handed over. */
  lemma {:induction false} CheckpointClaims(chain: seq<Event>, from: int, items: seq<Item>)
    requires MarksCover(chain, from, items)
    ensures Covers(chain, from + 1, CheckpointFrom(from, items), items)
  {
    CheckpointIsHighest(from, items);
    var top := CheckpointFrom(from, items);
    if top != from {
      var j :| 0 <= j < |items| && items[j] == Mark(top);
      assert forall x :: x in items[..j] ==> x in items;
    }
  }

  ghost predicate NoHeads(items: seq<Item>) {
    forall x :: x in items ==> x.Log?
  }

  lemma {:induction false} CheckpointOfLogs(start: int, items: seq<Item>)
    requires NoHeads(items)
    ensures CheckpointFrom(start, items) == start
  {
    CheckpointIsHighest(start, items);
  }

  // ---------------------------------------------------------------- draining

  lemma {:induction false} LastRound(out: seq<Item>, items: seq<Item>)
    returns (done: seq<Item>, a: seq<Item>, b: seq<Item>)
    requires Drained(out, items) && items != []
    ensures items == a + b && b != [] && out == done + Sort(ItemLeq, b) && Drained(done, a)
  {
    var k :| Round(out, items, k);
    done, a, b := out[..k], items[..k], items[k..];
    assert out == out[..k] + out[k..];
  }

  /** Draining hands over every buffered item exactly once. */
  lemma {:induction false} DrainedIsPermutation(out: seq<Item>, items: seq<Item>)
    requires Drained(out, items)
    ensures multiset(out) == multiset(items)
    decreases |items|
  {
    if items == [] {
    } else {
      var done, a, b := LastRound(out, items);
      DrainedIsPermutation(done, a);
      assert multiset(done + Sort(ItemLeq, b)) == multiset(done) + multiset(Sort(ItemLeq, b));
      assert multiset(a + b) == multiset(a) + multiset(b);
    }
  }

  lemma {:induction false} DrainedMembers(out: seq<Item>, items: seq<Item>)
    requires Drained(out, items)
    ensures forall x :: x in out <==> x in items
  {
    DrainedIsPermutation(out, items);
    SameElements(out, items);
  }

  /** Every copy of y has the log x before it. */
  ghost predicate Before(items: seq<Item>, x: Event, y: Item) {
    forall k :: 0 <= k < |items| && items[k] == y ==> Log(x) in items[..k]
  }

  lemma {:induction false} BeforeFirst(a: seq<Item>, b: seq<Item>, x: Event, y: Item)
    requires Before(a + b, x, y)
    ensures Before(a, x, y)
    ensures y in b ==> Log(x) in a || Log(x) in b
  {
    forall k | 0 <= k < |a| && a[k] == y ensures Log(x) in a[..k] {
      assert (a + b)[k] == y && (a + b)[..k] == a[..k];
    }
    if y in b {
      var k :| 0 <= k < |b| && b[k] == y;
      assert (a + b)[|a| + k] == y && (a + b)[..|a| + k] == a + b[..k];
    }
  }

  lemma {:induction false} BeforeConcat(a: seq<Item>, b: seq<Item>, x: Event, y: Item)
    requires Before(a, x, y) && (y in b ==> Log(x) in a || Before(b, x, y))
    ensures Before(a + b, x, y)
  {
    forall k | 0 <= k < |a + b| && (a + b)[k] == y ensures Log(x) in (a + b)[..k] {
      if k < |a| {
        assert (a + b)[..k] == a[..k];
      } else {
        assert b[k - |a|] == y && (a + b)[..k] == a + b[..k - |a|];
      }
    }
  }

  /** The sort puts a log before everything it is due before. */
  lemma {:induction false} SortPutsBefore(b: seq<Item>, x: Event, y: Item)
    requires Log(x) in b && Due(x, y)
    ensures Before(Sort(ItemLeq, b), x, y)
  {
    var s := Sort(ItemLeq, b);
    ItemLeqIsPreorder();
    SortSorts(ItemLeq, b);
    SameElements(s, b);
    var i :| 0 <= i < |s| && s[i] == Log(x);
    forall k | 0 <= k < |s| && s[k] == y ensures Log(x) in s[..k] {
      assert !ItemLeq(s[k], s[i]);
      assert s[..k][i] == Log(x);
    }
  }

  /** A log that arrives before every copy of an item it is due before is also handed over before it. */
  lemma {:induction false} DrainsBefore(out: seq<Item>, items: seq<Item>, x: Event, y: Item)
    requires Drained(out, items) && Due(x, y) && Before(items, x, y)
    ensures Before(out, x, y)
    decreases |items|
  {
    if items == [] {
    } else {
      var done, a, b := LastRound(out, items);
      BeforeFirst(a, b, x, y);
      DrainsBefore(done, a, x, y);
      LastBefore(done, a, b, x, y);
    }
  }

  lemma {:induction false} LastBefore(done: seq<Item>, a: seq<Item>, b: seq<Item>, x: Event, y: Item)
    requires Drained(done, a) && Due(x, y) && Before(done, x, y) && (y in b ==> Log(x) in a || Log(x) in b)
    ensures Before(done + Sort(ItemLeq, b), x, y)
  {
    DrainedMembers(done, a);
    SameElements(Sort(ItemLeq, b), b);
    if Log(x) in b { SortPutsBefore(b, x, y); }
    BeforeConcat(done, Sort(ItemLeq, b), x, y);
  }

  /** Draining in rounds, while more arrives, never hands over a mark before a log it claims that came
      before it, whatever the order of the logs. */
  lemma {:induction false} DrainedMarksCover(chain: seq<Event>, from: int, out: seq<Item>, items: seq<Item>)
    requires Drained(out, items) && MarksCover(chain, from, items)
    ensures MarksCover(chain, from, out)
  {
    forall j, x | 0 <= j < |out| && out[j].Mark? && x in chain && x.block > from && Due(x, out[j])
      ensures Log(x) in out[..j]
    {
      assert Before(items, x, out[j]);
      DrainsBefore(out, items, x, out[j]);
    }
  }

  lemma {:induction false} NothingLateConcat(a: seq<Item>, b: seq<Item>)
    ensures NothingLate(a + b) <==>
      NothingLate(a) && NothingLate(b) && forall x, y :: x in a && y in b && y.Log? ==> !Due(y.event, x)
  {
    var s := a + b;
    if NothingLate(s) {
      forall i, j | 0 <= i < j < |a| && a[j].Log? ensures !Due(a[j].event, a[i]) {
        assert s[i] == a[i] && s[j] == a[j];
      }
      forall i, j | 0 <= i < j < |b| && b[j].Log? ensures !Due(b[j].event, b[i]) {
        assert s[|a| + i] == b[i] && s[|a| + j] == b[j];
      }
      forall x, y | x in a && y in b && y.Log? ensures !Due(y.event, x) {
        var i :| 0 <= i < |a| && a[i] == x;
        var j :| 0 <= j < |b| && b[j] == y;
        assert s[i] == x && s[|a| + j] == y;
      }
    }
    if NothingLate(a) && NothingLate(b) && forall x, y :: x in a && y in b && y.Log? ==> !Due(y.event, x) {
      forall i, j | 0 <= i < j < |s| && s[j].Log? ensures !Due(s[j].event, s[i]) {
        if j < |a| {
          assert s[i] == a[i] && s[j] == a[j];
        } else if i < |a| {
          assert s[i] in a && s[j] in b;
        } else {
          assert s[i] == b[i - |a|] && s[j] == b[j - |a|];
        }
      }
    }
  }

  /** Draining makes nothing late. */
  lemma {:induction false} DrainedNothingLate(out: seq<Item>, items: seq<Item>)
    requires Drained(out, items) && NothingLate(items)
    ensures NothingLate(out)
    decreases |items|
  {
    if items == [] {
    } else {
      var done, a, b := LastRound(out, items);
      NothingLateConcat(a, b);
      DrainedNothingLate(done, a);
      DrainedMembers(done, a);
      SameElements(Sort(ItemLeq, b), b);
      SortedNothingLate(b);
      NothingLateConcat(done, Sort(ItemLeq, b));
    }
  }

  lemma {:induction false} SortedNothingLate(items: seq<Item>)
    ensures NothingLate(Sort(ItemLeq, items))
  {
    var s := Sort(ItemLeq, items);
    ItemLeqIsPreorder();
    SortSorts(ItemLeq, items);
    forall i, j | 0 <= i < j < |s| && s[j].Log? ensures !Due(s[j].event, s[i]) {
      assert ItemLeq(s[i], s[j]);
    }
  }

  /** A feed that is gapless stays so through the buffer. */
  lemma {:induction false} DrainedGapless(chain: seq<Event>, from: int, out: seq<Item>, items: seq<Item>)
    requires Drained(out, items) && Gapless(chain, from, items)
    ensures Gapless(chain, from, out)
  {
    DrainedNothingLate(out, items);
    DrainedMembers(out, items);
    forall i | 0 <= i < |out| && out[i].Log? ensures out[i].event in chain && out[i].event.block > from {
      assert out[i] in items;
    }
    forall j, x | 0 <= j < |out| && x in chain && x.block > from && Due(x, out[j]) ensures Log(x) in out[..j] {
      assert Before(items, x, out[j]);
      DrainsBefore(out, items, x, out[j]);
    }
  }

  /** What the sort is for: logs that arrive in any order at all come out gapless, once everything due
      before an item is in the buffer with it. */
  lemma {:induction false} SortRepairsOrder(chain: seq<Event>, from: int, items: seq<Item>)
    requires forall x :: x in items && x.Log? ==> x.event in chain && x.event.block > from
    requires forall x, y :: y in items && x in chain && x.block > from && Due(x, y) ==> Log(x) in items
    ensures Gapless(chain, from, Sort(ItemLeq, items))
  {
    var s := Sort(ItemLeq, items);
    SameElements(s, items);
    SortedNothingLate(items);
    forall i | 0 <= i < |s| && s[i].Log? ensures s[i].event in chain && s[i].event.block > from {
      assert s[i] in items;
    }
    forall j, x | 0 <= j < |s| && x in chain && x.block > from && Due(x, s[j]) ensures Log(x) in s[..j] {
      assert s[j] in items;
      SortPutsBefore(items, x, s[j]);
    }
  }

  /** Live items handed over at once, after the drained ones, keep the feed's claim. */
  lemma {:induction false} LiveMarksCover(chain: seq<Event>, from: int, out: seq<Item>, items: seq<Item>,
          later: seq<Item>)
    requires Drained(out, items) && MarksCover(chain, from, items + later)
    ensures MarksCover(chain, from, out + later)
  {
    var s, t := items + later, out + later;
    MarksCoverPrefix(chain, from, items, s);
    DrainedMarksCover(chain, from, out, items);
    DrainedMembers(out, items);
    forall j, x | 0 <= j < |t| && t[j].Mark? && x in chain && x.block > from && Due(x, t[j]) ensures Log(x) in t[..j] {
      if j < |out| {
        assert t[..j] == out[..j];
      } else {
        assert s[j] == t[j] && s[..j] == items + later[..j - |items|] && t[..j] == out + later[..j - |out|];
      }
    }
  }

  lemma {:induction false} LiveNothingMissing(chain: seq<Event>, from: int, out: seq<Item>, items: seq<Item>,
        later: seq<Item>)
    requires |out| == |items| && (forall x :: x in out <==> x in items)
    requires NothingMissing(chain, from, out) && NothingMissing(chain, from, items + later)
    ensures NothingMissing(chain, from, out + later)
  {
    var s, t := items + later, out + later;
    forall j, x | 0 <= j < |t| && x in chain && x.block > from && Due(x, t[j]) ensures Log(x) in t[..j] {
      if j < |out| {
        assert t[..j] == out[..j];
      } else {
        assert s[j] == t[j] && s[..j] == items + later[..j - |items|] && t[..j] == out + later[..j - |out|];
      }
    }
  }

  lemma {:induction false} LiveGapless(chain: seq<Event>, from: int, out: seq<Item>, items: seq<Item>, later: seq<Item>)
    requires Drained(out, items) && Gapless(chain, from, items + later)
    ensures Gapless(chain, from, out + later)
  {
    var s, t := items + later, out + later;
    GaplessPrefix(chain, from, items, s);
    DrainedGapless(chain, from, out, items);
    DrainedMembers(out, items);
    NothingLateConcat(items, later);
    NothingLateConcat(out, later);
    LiveNothingMissing(chain, from, out, items, later);
    forall i | 0 <= i < |t| && t[i].Log? ensures t[i].event in chain && t[i].event.block > from {
      if i >= |out| { assert s[i] == t[i]; }
    }
  }

  // ---------------------------------------------------------------- a replay

  lemma {:induction false} LogsMembers(es: seq<Event>)
    ensures |Logs(es)| == |es| && forall i :: 0 <= i < |es| ==> Logs(es)[i] == Log(es[i])
  {
    if es != [] { LogsMembers(es[1..]); }
  }

  lemma {:induction false} InRangeMembers(chain: seq<Event>, lo: int, hi: int)
    ensures forall x :: x in InRange(chain, lo, hi) <==> x in chain && lo <= x.block <= hi
  {
    if chain != [] {
      InRangeMembers(chain[1..], lo, hi);
      assert chain == [chain[0]] + chain[1..];
    }
  }

  lemma {:induction false} InRangeOrdered(chain: seq<Event>, lo: int, hi: int)
    requires ChainOrdered(chain)
    ensures ChainOrdered(InRange(chain, lo, hi))
  {
    if chain == [] {
    } else {
      var rest := InRange(chain[1..], lo, hi);
      InRangeOrdered(chain[1..], lo, hi);
      InRangeMembers(chain[1..], lo, hi);
      forall i | 0 <= i < |rest| ensures chain[0].block <= rest[i].block && chain[0].Identity() != rest[i].Identity() {
        assert rest[i] in chain[1..];
      }
    }
  }

  lemma {:induction false} LogsInOrder(es: seq<Event>, x: Event, j: nat)
    requires ChainOrdered(es) && x in es && j < |es| && x.block < es[j].block
    ensures j < |Logs(es)| && Log(x) in Logs(es)[..j]
  {
    LogsMembers(es);
    var i :| 0 <= i < |es| && es[i] == x;
    assert i < j;
    assert Logs(es)[..j][i] == Log(x);
  }

  lemma {:induction false} LogsIn(es: seq<Event>, x: Item)
    ensures x in Logs(es) <==> x.Log? && x.event in es
  {
    LogsMembers(es);
    if x.Log? && x.event in es {
      var i :| 0 <= i < |es| && es[i] == x.event;
      assert Logs(es)[i] == x;
    }
  }

  lemma {:induction false} LogsGapless(chain: seq<Event>, lo: int, hi: int)
    requires ChainOrdered(chain)
    ensures var logs := Logs(InRange(chain, lo, hi));
            Gapless(chain, lo - 1, logs) && Covers(chain, lo, hi, logs) && forall x :: x in logs ==> Number(x) <= hi
  {
    var es := InRange(chain, lo, hi);
    var logs := Logs(es);
    InRangeMembers(chain, lo, hi);
    InRangeOrdered(chain, lo, hi);
    LogsMembers(es);
    assert forall i :: 0 <= i < |es| ==> es[i] in es;
    assert NothingLate(logs);
    forall x | x in chain && lo <= x.block <= hi ensures Log(x) in logs { LogsIn(es, Log(x)); }
    forall x | x in logs ensures Number(x) <= hi { LogsIn(es, x); }
    forall j, x | 0 <= j < |logs| && x in chain && lo <= x.block && Due(x, logs[j]) ensures Log(x) in logs[..j] {
      LogsInOrder(es, x, j);
    }
  }

  lemma {:induction false} GaplessMark(chain: seq<Event>, from: int, logs: seq<Item>, b: int)
    requires Gapless(chain, from, logs) && Covers(chain, from + 1, b, logs)
    ensures Gapless(chain, from, logs + [Mark(b)])
  {
    var s := logs + [Mark(b)];
    assert s[..|logs|] == logs;
    assert forall j :: 0 <= j < |logs| ==> s[j] == logs[j] && s[..j] == logs[..j];
  }

  lemma {:induction false} CoversConcat(chain: seq<Event>, lo: int, m: int, hi: int, a: seq<Item>, b: seq<Item>)
    requires Covers(chain, lo, m, a) && Covers(chain, m + 1, hi, b)
    ensures Covers(chain, lo, hi, a + b)
  {
    forall x | x in chain && lo <= x.block <= hi ensures Log(x) in a + b {
      assert x.block <= m || m + 1 <= x.block;
    }
  }

  /** A replay covers its range, without a gap and whatever the batch size, and marks no block before
      its logs. */
  lemma {:induction false} ReplayedGapless(chain: seq<Event>, start: int, end: int, batch: int)
    requires ChainOrdered(chain) && batch >= 1
    ensures Gapless(chain, start - 1, Replayed(chain, start, end, batch))
    ensures Covers(chain, start, end, Replayed(chain, start, end, batch))
    ensures forall x :: x in Replayed(chain, start, end, batch) ==> Number(x) <= end
    decreases end - start
  {
    if start <= end {
      var hi := if start + batch - 1 < end then start + batch - 1 else end;
      var rest := Replayed(chain, hi + 1, end, batch);
      ReplayedGapless(chain, hi + 1, end, batch);
      assert hi + 1 - 1 == hi;
      BatchThenRest(chain, start, hi, end, rest);
      assert Replayed(chain, start, end, batch) == Logs(InRange(chain, start, hi)) + [Mark(hi)] + rest;
    }
  }

  lemma {:induction false} BatchThenRest(chain: seq<Event>, start: int, hi: int, end: int, rest: seq<Item>)
    requires ChainOrdered(chain) && start <= hi <= end
    requires Gapless(chain, hi, rest) && Covers(chain, hi + 1, end, rest) && forall x :: x in rest ==> Number(x) <= end
    ensures var all := Logs(InRange(chain, start, hi)) + [Mark(hi)] + rest;
            && Gapless(chain, start - 1, all) && Covers(chain, start, end, all)
            && forall x :: x in all ==> Number(x) <= end
  {
    var logs := Logs(InRange(chain, start, hi));
    LogsGapless(chain, start, hi);
    GaplessMark(chain, start - 1, logs, hi);
    GaplessConcat(chain, start - 1, logs + [Mark(hi)], hi, rest);
    CoversConcat(chain, start, hi, end, logs + [Mark(hi)], rest);
  }

  /** A replay that stopped anywhere has handed over everything up to its last mark. */
  lemma {:induction false} PartialReplay(chain: seq<Event>, start: int, end: int, batch: int, handed: seq<Item>)
    requires ChainOrdered(chain) && batch >= 1 && handed <= Replayed(chain, start, end, batch)
    ensures Covers(chain, start, CheckpointFrom(start - 1, handed), handed)
  {
    ReplayedGapless(chain, start, end, batch);
    GaplessPrefix(chain, start - 1, handed, Replayed(chain, start, end, batch));
    GaplessMarksCover(chain, start - 1, handed);
    CheckpointClaims(chain, start - 1, handed);
  }
}
