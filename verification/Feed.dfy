/** The vocabulary of ingestion: live items and the threshold that drops them, what a replay of a
    block range hands over, and what draining a live buffer hands over (sentinel/rpc.py). */
module Feed {
  import opened Events
  import opened Sorting
  import opened Windows

  function Number(item: Item): int {
    match item
    case Log(e) => e.block
    case Mark(n) => n
  }

  /** `_ignore_subscription_events_until_block` drops a live item at or below it. */
  predicate Accepts(threshold: Option<int>, item: Item) {
    threshold.None? || Number(item) > threshold.value
  }

  function Passing(threshold: Option<int>, items: seq<Item>): seq<Item> {
    if items == [] then [] else
    var last := |items| - 1;
    Passing(threshold, items[..last]) + (if Accepts(threshold, items[last]) then [items[last]] else [])
  }

  lemma {:induction false} PassingSnoc(threshold: Option<int>, items: seq<Item>, x: Item)
    ensures Passing(threshold, items + [x]) == Passing(threshold, items) + (if Accepts(threshold, x) then [x] else [])
  {
    assert (items + [x])[..|items|] == items;
  }

  lemma {:induction false} PassingMembers(threshold: Option<int>, items: seq<Item>)
    ensures forall x :: x in Passing(threshold, items) <==> x in items && Accepts(threshold, x)
    ensures forall e :: Log(e) in Passing(threshold, items) <==>
      Log(e) in items && (threshold.Some? ==> e.block > threshold.value)
    ensures forall b :: Mark(b) in Passing(threshold, items) <==>
      Mark(b) in items && (threshold.Some? ==> b > threshold.value)
  {
    if items == [] {
    } else {
      assert items == items[..|items| - 1] + [items[|items| - 1]];
      PassingMembers(threshold, items[..|items| - 1]);
    }
  }

  lemma {:induction false} PassingConcat(threshold: Option<int>, a: seq<Item>, b: seq<Item>)
    ensures Passing(threshold, a + b) == Passing(threshold, a) + Passing(threshold, b)
  {
    if b == [] {
      assert a + b == a;
    } else {
      assert (a + b)[..|a + b| - 1] == a + b[..|b| - 1];
      PassingConcat(threshold, a, b[..|b| - 1]);
    }
  }

  // ---------------------------------------------------------------- what the environment does

  datatype EnvStep = Arrive(item: Item) | RequestShutdown

  /** What happens at one await. */
  type Turn = seq<EnvStep>

  /** A shutdown is requested among the first n steps. */
  predicate StopsIn(turn: Turn, n: nat)
    requires n <= |turn|
  {
    n > 0 && (turn[n - 1].RequestShutdown? || StopsIn(turn, n - 1))
  }

  /** The live items among the first n steps that get past the threshold before any shutdown request. */
  function PassedIn(threshold: Option<int>, turn: Turn, n: nat): seq<Item>
    requires n <= |turn|
  {
    if n == 0 then []
    else if turn[n - 1].Arrive? && Accepts(threshold, turn[n - 1].item) && !StopsIn(turn, n - 1)
    then PassedIn(threshold, turn, n - 1) + [turn[n - 1].item]
    else PassedIn(threshold, turn, n - 1)
  }

  /** A shutdown is requested in the turns from a up to b. */
  predicate Stopped(plan: seq<Turn>, a: nat, b: nat)
    requires a <= b <= |plan|
    decreases b
  {
    a < b && (StopsIn(plan[b - 1], |plan[b - 1]|) || Stopped(plan, a, b - 1))
  }

  /** The live items of the turns from a up to b that get past the threshold before any shutdown
      request. */
  function Passed(threshold: Option<int>, plan: seq<Turn>, a: nat, b: nat): seq<Item>
    requires a <= b <= |plan|
    decreases b
  {
    if a == b then []
    else if Stopped(plan, a, b - 1) then Passed(threshold, plan, a, b - 1)
    else Passed(threshold, plan, a, b - 1) + PassedIn(threshold, plan[b - 1], |plan[b - 1]|)
  }

  lemma {:induction false} StoppedSplits(plan: seq<Turn>, a: nat, b: nat, c: nat)
    requires a <= b <= c <= |plan|
    ensures Stopped(plan, a, c) == (Stopped(plan, a, b) || Stopped(plan, b, c))
    decreases c
  {
    if b < c { StoppedSplits(plan, a, b, c - 1); }
  }

  lemma {:induction false} PassedAfterStop(threshold: Option<int>, plan: seq<Turn>, a: nat, b: nat, c: nat)
    requires a <= b <= c <= |plan| && Stopped(plan, a, b)
    ensures Passed(threshold, plan, a, c) == Passed(threshold, plan, a, b)
    decreases c
  {
    if b < c {
      PassedAfterStop(threshold, plan, a, b, c - 1);
      StoppedSplits(plan, a, b, c - 1);
    }
  }

  lemma {:induction false} PassedNext(threshold: Option<int>, plan: seq<Turn>, a: nat, b: nat)
    requires a < b <= |plan|
    ensures Stopped(plan, a, b - 1) ==> Passed(threshold, plan, a, b) == Passed(threshold, plan, a, b - 1)
    ensures !Stopped(plan, a, b - 1) ==>
      Passed(threshold, plan, a, b)
        == Passed(threshold, plan, a, b - 1) + PassedIn(threshold, plan[b - 1], |plan[b - 1]|)
  {
  }

  lemma {:induction false} PassedSplits(threshold: Option<int>, plan: seq<Turn>, a: nat, b: nat, c: nat)
    requires a <= b <= c <= |plan| && !Stopped(plan, a, b)
    ensures Passed(threshold, plan, a, c) == Passed(threshold, plan, a, b) + Passed(threshold, plan, b, c)
    decreases c
  {
    if b == c {
      assert Passed(threshold, plan, a, b) + [] == Passed(threshold, plan, a, b);
    } else {
      PassedSplits(threshold, plan, a, b, c - 1);
      StoppedSplits(plan, a, b, c - 1);
      PassedNext(threshold, plan, a, c);
      PassedNext(threshold, plan, b, c);
      SplitNext(Passed(threshold, plan, a, b), Passed(threshold, plan, b, c - 1),
        PassedIn(threshold, plan[c - 1], |plan[c - 1]|), Passed(threshold, plan, a, c - 1), Stopped(plan, a, c - 1),
        Passed(threshold, plan, a, c), Passed(threshold, plan, b, c));
    }
  }

  lemma {:induction false} SplitNext(x: seq<Item>, y: seq<Item>, z: seq<Item>, front: seq<Item>, stopped: bool,
        all: seq<Item>, rest: seq<Item>)
    requires front == x + y && all == (if stopped then front else front + z) && rest == if stopped then y else y + z
    ensures all == x + rest
  {
  }

  lemma {:induction false} PassedInIsPassing(threshold: Option<int>, turn: Turn, n: nat)
    requires n <= |turn|
    ensures PassedIn(threshold, turn, n) == Passing(threshold, PassedIn(None, turn, n))
  {
    if n > 0 {
      PassedInIsPassing(threshold, turn, n - 1);
      if turn[n - 1].Arrive? { PassingSnoc(threshold, PassedIn(None, turn, n - 1), turn[n - 1].item); }
    }
  }

  /** A threshold drops items and changes nothing else: what passes is what passes of all that comes. */
  lemma {:induction false} PassedIsPassing(threshold: Option<int>, plan: seq<Turn>, a: nat, b: nat)
    requires a <= b <= |plan|
    ensures Passed(threshold, plan, a, b) == Passing(threshold, Passed(None, plan, a, b))
    decreases b
  {
    if a < b {
      PassedIsPassing(threshold, plan, a, b - 1);
      PassedInIsPassing(threshold, plan[b - 1], |plan[b - 1]|);
      PassingConcat(threshold, Passed(None, plan, a, b - 1), PassedIn(None, plan[b - 1], |plan[b - 1]|));
    }
  }

  lemma {:induction false} Regroup<T>(a: seq<T>, b: seq<T>, c: seq<T>)
    ensures a + (b + c) == a + b + c
  {
  }

  // ---------------------------------------------------------------- historical replay

  /** The chain's logs in a block range, in chain order. */
  function InRange(chain: seq<Event>, lo: int, hi: int): seq<Event> {
    if chain == [] then []
    else if lo <= chain[0].block <= hi then [chain[0]] + InRange(chain[1..], lo, hi)
    else InRange(chain[1..], lo, hi)
  }

  function Logs(es: seq<Event>): seq<Item> {
    if es == [] then [] else [Log(es[0])] + Logs(es[1..])
  }

  lemma {:induction false} LogsConcat(a: seq<Event>, b: seq<Event>)
    ensures Logs(a + b) == Logs(a) + Logs(b)
  {
    if a == [] {
      assert a + b == b;
    } else {
      assert (a + b)[1..] == a[1..] + b;
      LogsConcat(a[1..], b);
    }
  }

  lemma {:induction false} LogsSnoc(events: seq<Event>, i: nat)
    requires i < |events|
    ensures Logs(events[..i + 1]) == Logs(events[..i]) + [Log(events[i])]
  {
    LogsConcat(events[..i], [events[i]]);
    assert events[..i] + [events[i]] == events[..i + 1];
  }

  lemma {:induction false} LogsPrefix(events: seq<Event>, i: nat)
    requires i <= |events|
    ensures Logs(events[..i]) <= Logs(events)
  {
    LogsConcat(events[..i], events[i..]);
    assert events[..i] + events[i..] == events;
  }

  /** A replay of start..end: for each batch its logs, then the mark of its last block. */
  function Replayed(chain: seq<Event>, start: int, end: int, batch: int): seq<Item>
    requires batch >= 1
    decreases end - start
  {
    if start > end then [] else
    var hi := if start + batch - 1 < end then start + batch - 1 else end;
    Logs(InRange(chain, start, hi)) + [Mark(hi)] + Replayed(chain, hi + 1, end, batch)
  }

  /** Its first k batches. */
  function FirstBatches(chain: seq<Event>, start: int, end: int, batch: int, k: int): seq<Item>
    requires batch >= 1
    decreases end - start
  {
    if start > end || k <= 0 then [] else
    var hi := if start + batch - 1 < end then start + batch - 1 else end;
    Logs(InRange(chain, start, hi)) + [Mark(hi)] + FirstBatches(chain, hi + 1, end, batch, k - 1)
  }

  /** How many batches a replay has. */
  function BatchCount(start: int, end: int, batch: int): nat
    requires batch >= 1
    decreases end - start
  {
    if start > end then 0 else
    1 + BatchCount((if start + batch - 1 < end then start + batch - 1 else end) + 1, end, batch)
  }

  /** So many provider calls in a row succeed. */
  predicate Enough(rpc: seq<nat>, calls: int) {
    rpc == [] || rpc[0] >= calls
  }

  /** The failures to come after so many successful calls. */
  function Spent(rpc: seq<nat>, calls: nat): seq<nat>
    requires Enough(rpc, calls)
  {
    if rpc == [] then [] else [rpc[0] - calls] + rpc[1..]
  }

  /** What a replay with one call for each batch hands over before a call fails, if one does. */
  function BeforeFailure(chain: seq<Event>, start: int, end: int, batch: int, rpc: seq<nat>): seq<Item>
    requires batch >= 1
  {
    if rpc == [] then Replayed(chain, start, end, batch) else FirstBatches(chain, start, end, batch, rpc[0])
  }

  lemma {:induction false} AllBatches(chain: seq<Event>, start: int, end: int, batch: int, k: int)
    requires batch >= 1
    ensures FirstBatches(chain, start, end, batch, k) <= Replayed(chain, start, end, batch)
    ensures k >= BatchCount(start, end, batch) ==>
      FirstBatches(chain, start, end, batch, k) == Replayed(chain, start, end, batch)
    decreases end - start
  {
    if start <= end {
      AllBatches(chain, (if start + batch - 1 < end then start + batch - 1 else end) + 1, end, batch, k - 1);
    }
  }

  // ---------------------------------------------------------------- draining the live buffer

  /** `_subscription_item_sort_key`: block, logs before the mark, then transaction and log index. */
  predicate ItemLeq(a: Item, b: Item) {
    || Number(a) < Number(b)
    || (Number(a) == Number(b) && (b.Mark? || (a.Log? && EventLeq(a.event, b.event))))
  }

  /** A lower block comes strictly first, and within a block the logs, in chain order, before the mark. */
  lemma {:induction false} ItemLeqMeans(e: Event, f: Event, m: int, n: int)
    ensures e.block < f.block ==> ItemLeq(Log(e), Log(f)) && !ItemLeq(Log(f), Log(e))
    ensures e.block == f.block ==> (ItemLeq(Log(e), Log(f)) <==> EventLeq(e, f))
    ensures e.block <= m <==> ItemLeq(Log(e), Mark(m))
    ensures e.block > m <==> ItemLeq(Mark(m), Log(e))
    ensures m <= n <==> ItemLeq(Mark(m), Mark(n))
  {
  }

  lemma {:induction false} ItemLeqIsPreorder()
    ensures TotalPreorder(ItemLeq)
  {
  }

  /** `out` is what draining hands over when `items` arrived in that order: rounds, each the sorted
      run of items that had arrived by its start and were not handed over before. */
  ghost predicate Drained(out: seq<Item>, items: seq<Item>)
    decreases |items|
  {
    && |out| == |items|
    && (items == [] || exists k :: Round(out, items, k))
  }

  ghost predicate Round(out: seq<Item>, items: seq<Item>, k: int)
    decreases |items|, 0
    requires |out| == |items|
  {
    0 <= k < |items| && Drained(out[..k], items[..k]) && out[k..] == Sort(ItemLeq, items[k..])
  }
}
