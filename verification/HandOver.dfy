/** One connection from subscribing to its loss: live items before the replay, a head, the replay up to it,
    the drained buffer, live items after; and how often each log reaches the consumers
    (sentinel/app/bootstrap.py, sentinel/services/subscription.py, sentinel/rpc.py). */
module HandOver {
  import opened Events
  import opened Sorting
  import opened Windows
  import opened Feed
  import opened Coverage
  import opened Subscriptions

  // ---------------------------------------------------------------- one connection

  /** What the environment has in store for one connection: its turns at awaits outside and within the
      replay, the provider's failures, how many awaits pass before a head is known, and that head. A
      runtime rebuilt during a catch-up ignores live items up to the block the catch-up had read. */
  datatype Plan = Plan(ignored: Option<int>, loose: seq<Turn>, held: seq<Turn>, rpc: seq<nat>, waits: nat, head: nat)
  {
    /** Live items up to here are ignored from the replay on. */
    function Top(): int {
      if ignored.Some? && ignored.value > head then ignored.value else head
    }

    function Waited(): (n: nat)
      ensures n <= |loose|
    {
      if waits <= |loose| then waits else |loose|
    }

    /** What comes in before the replay begins. */
    function Early(): seq<Item> {
      Passed(ignored, loose, 0, Waited())
    }

    /** What comes in from then on. */
    function Rest(): seq<Item> {
      Passed(None, held, 0, |held|) + Passed(None, loose, Waited(), |loose|)
    }

    /** What of it lies above the head, and above what is ignored. */
    function Stream(): seq<Item> {
      Passed(Some(Top()), held, 0, |held|) + Passed(Some(Top()), loose, Waited(), |loose|)
    }

    /** All that comes in, ignored or not. */
    function Coming(): seq<Item> {
      Passed(None, loose, 0, Waited()) + Rest()
    }

    /** Nobody asks for a shutdown. */
    ghost predicate Unstopped() {
      !Stopped(held, 0, |held|) && !Stopped(loose, 0, |loose|)
    }

    /** The provider answers as often as reading the head and the replay from `start` take. */
    predicate GetsThrough(start: int, batch: int)
      requires batch >= 1
    {
      Enough(rpc, 1 + CallsFor(start, Some(head), head, batch))
    }

    /** What is replayed until the provider fails, if it does. */
    function Handed(chain: seq<Event>, start: int, batch: int): seq<Item>
      requires batch >= 1
    {
      if Enough(rpc, 1) then HandedBy(chain, start, head, batch, FindCalls(Some(head)), Spent(rpc, 1)) else []
    }
  }

  /** What one connection handed over: live items before the replay, the replay as far as it got, the
      rounds of the drained buffer (`full`, of the items `settled`) as far as they got, live items after. */
  datatype Contact = Contact(early: seq<Item>, handed: seq<Item>, settled: seq<Item>, full: seq<Item>,
    live: seq<Item>, later: seq<Item>)
  {
    function Trace(): seq<Item> {
      early + (handed + live + later)
    }
  }

  /** Wherever the connection ended. */
  ghost predicate Follows(chain: seq<Event>, batch: int, start: int, plan: Plan, c: Contact)
    requires batch >= 1
  {
    && c.early == plan.Early()
    && c.handed <= Replayed(chain, start, plan.head, batch)
    && c.live <= c.full && Drained(c.full, c.settled) && c.settled + c.later <= plan.Stream()
    && (c.live != [] || c.full != [] || c.later != [] ==> c.handed == Replayed(chain, start, plan.head, batch))
    && (c.later != [] ==> c.live == c.full)
  }

  /** It got through the replay and lasted as long as the environment brought items. */
  ghost predicate Completed(chain: seq<Event>, batch: int, start: int, plan: Plan, c: Contact)
    requires batch >= 1
  {
    && Follows(chain, batch, start, plan, c)
    && c.handed == Replayed(chain, start, plan.head, batch)
    && c.live == c.full && c.settled + c.later == plan.Stream()
  }

  /** Without a shutdown it gets through exactly when the provider does, and otherwise ends with the last
      batch the provider returned. */
  ghost predicate EndsAs(chain: seq<Event>, batch: int, start: int, plan: Plan, c: Contact)
    requires batch >= 1
  {
    plan.Unstopped() ==>
      if plan.GetsThrough(start, batch) then Completed(chain, batch, start, plan, c)
      else c.Trace() == plan.Early() + plan.Handed(chain, start, batch)
  }

  /** Awaits at which live items go straight to the consumers. */
  method Wait(sub: Subscription, waits: nat)
    requires sub.Valid() && sub.buffer == None && !sub.shutdown
    requires sub.caughtUp ==> sub.heldPos == |sub.heldPlan|
    modifies sub`trace, sub`buffer, sub`shutdown, sub`loosePos
    ensures sub.Valid() && sub.buffer == None
    ensures var end := old(sub.loosePos) + waits;
            && sub.loosePos == (if end <= |sub.loosePlan| then end else |sub.loosePlan|) >= old(sub.loosePos)
            && sub.trace == old(sub.trace) + Passed(sub.threshold, sub.loosePlan, old(sub.loosePos), sub.loosePos)
            && sub.shutdown == Stopped(sub.loosePlan, old(sub.loosePos), sub.loosePos)
  {
    ghost var a, before := sub.loosePos, sub.trace;
    for i := 0 to waits
      invariant TakenLoose(sub, a, before)
      invariant sub.loosePos == if a + i <= |sub.loosePlan| then a + i else |sub.loosePlan|
    {
      if sub.loosePos < |sub.loosePlan| { TakeNextLoose(sub, a, before); }
    }
  }

  ghost predicate TakenLoose(sub: Subscription, a: nat, before: seq<Item>)
    reads sub
  {
    && sub.Valid() && sub.buffer == None && (sub.caughtUp ==> sub.heldPos == |sub.heldPlan|) && a <= sub.loosePos
    && sub.trace == before + Passed(sub.threshold, sub.loosePlan, a, sub.loosePos)
    && sub.shutdown == Stopped(sub.loosePlan, a, sub.loosePos)
  }

  method TakeNextLoose(sub: Subscription, ghost a: nat, ghost before: seq<Item>)
    requires TakenLoose(sub, a, before) && sub.loosePos < |sub.loosePlan|
    modifies sub`trace, sub`buffer, sub`shutdown, sub`loosePos
    ensures TakenLoose(sub, a, before) && sub.loosePos == old(sub.loosePos) + 1
  {
    ghost var l, trace, stopped := sub.loosePos, sub.trace, sub.shutdown;
    sub.TakeLooseTurn();
    TakenMore(sub.threshold, sub.loosePlan, a, l, before, trace, stopped, sub.trace, sub.shutdown);
  }

  lemma {:induction false} NextTurn(threshold: Option<int>, plan: seq<Turn>, a: nat, b: nat)
    requires a <= b < |plan| && !Stopped(plan, a, b)
    ensures Stopped(plan, a, b + 1) == Stopped(plan, b, b + 1)
    ensures Passed(threshold, plan, a, b + 1) == Passed(threshold, plan, a, b) + Passed(threshold, plan, b, b + 1)
  {
    StoppedSplits(plan, a, b, b + 1);
    PassedSplits(threshold, plan, a, b, b + 1);
  }

  lemma {:induction false} TakenMore(threshold: Option<int>, plan: seq<Turn>, a: nat, b: nat, before: seq<Item>,
        trace: seq<Item>, stopped: bool, trace': seq<Item>, stopped': bool)
    requires a <= b < |plan| && trace == before + Passed(threshold, plan, a, b) && stopped == Stopped(plan, a, b)
    requires trace' == if stopped then trace else trace + Passed(threshold, plan, b, b + 1)
    requires stopped' == (stopped || Stopped(plan, b, b + 1))
    ensures trace' == before + Passed(threshold, plan, a, b + 1) && stopped' == Stopped(plan, a, b + 1)
  {
    if stopped {
      TurnAfterStop(threshold, plan, a, b);
    } else {
      NextTurn(threshold, plan, a, b);
      Regroup(before, Passed(threshold, plan, a, b), Passed(threshold, plan, b, b + 1));
    }
  }

  lemma {:induction false} TurnAfterStop(threshold: Option<int>, plan: seq<Turn>, a: nat, b: nat)
    requires a <= b < |plan| && Stopped(plan, a, b)
    ensures Stopped(plan, a, b + 1) && Passed(threshold, plan, a, b + 1) == Passed(threshold, plan, a, b)
  {
    StoppedSplits(plan, a, b, b + 1);
    PassedAfterStop(threshold, plan, a, b, b + 1);
  }

  /** The turns that a completed replay did not need: their items go straight to the consumers too. */
  method TakeHeld(sub: Subscription)
    requires sub.Valid() && sub.buffer == None && sub.caughtUp && !sub.shutdown
    modifies sub`trace, sub`buffer, sub`shutdown, sub`heldPos
    ensures sub.Valid() && sub.buffer == None && sub.heldPos == |sub.heldPlan|
    ensures sub.trace == old(sub.trace) + Passed(sub.threshold, sub.heldPlan, old(sub.heldPos), |sub.heldPlan|)
    ensures sub.shutdown == Stopped(sub.heldPlan, old(sub.heldPos), |sub.heldPlan|)
  {
    ghost var a, before := sub.heldPos, sub.trace;
    while sub.heldPos < |sub.heldPlan|
      invariant TakenHeld(sub, a, before)
      decreases |sub.heldPlan| - sub.heldPos
    {
      TakeNextHeld(sub, a, before);
    }
  }

  method TakeNextHeld(sub: Subscription, ghost a: nat, ghost before: seq<Item>)
    requires TakenHeld(sub, a, before) && sub.heldPos < |sub.heldPlan|
    modifies sub`trace, sub`buffer, sub`shutdown, sub`heldPos
    ensures TakenHeld(sub, a, before) && sub.heldPos == old(sub.heldPos) + 1
  {
    ghost var h, trace, stopped := sub.heldPos, sub.trace, sub.shutdown;
    sub.TakeHeldTurn();
    TakenMore(sub.threshold, sub.heldPlan, a, h, before, trace, stopped, sub.trace, sub.shutdown);
  }

  ghost predicate TakenHeld(sub: Subscription, a: nat, before: seq<Item>)
    reads sub
  {
    && sub.Valid() && sub.buffer == None && sub.caughtUp && a <= sub.heldPos
    && sub.trace == before + Passed(sub.threshold, sub.heldPlan, a, sub.heldPos)
    && sub.shutdown == Stopped(sub.heldPlan, a, sub.heldPos)
  }

  /** After the replay live items go straight to the consumers, those of turns the replay did not need
      first, until the connection is lost. */
  method StayLive(sub: Subscription) returns (ghost later: seq<Item>)
    requires sub.Valid() && sub.buffer == None && sub.caughtUp && !sub.shutdown
    modifies sub`trace, sub`buffer, sub`shutdown, sub`heldPos, sub`loosePos
    ensures sub.trace == old(sub.trace) + later
    ensures later == LiveOn(sub.threshold, sub.heldPlan, old(sub.heldPos), sub.loosePlan, old(sub.loosePos))
    ensures sub.shutdown == (Stopped(sub.heldPlan, old(sub.heldPos), |sub.heldPlan|)
                             || Stopped(sub.loosePlan, old(sub.loosePos), |sub.loosePlan|))
  {
    ghost var l := sub.loosePos;
    later := Passed(sub.threshold, sub.heldPlan, sub.heldPos, |sub.heldPlan|);
    TakeHeld(sub);
    if !sub.shutdown {
      Wait(sub, |sub.loosePlan| - sub.loosePos);
      Regroup(old(sub.trace), later, Passed(sub.threshold, sub.loosePlan, l, |sub.loosePlan|));
      later := later + Passed(sub.threshold, sub.loosePlan, l, |sub.loosePlan|);
    }
  }

  /** What comes through after a completed replay, from the turns of both plans still to be taken. */
  function LiveOn(threshold: Option<int>, held: seq<Turn>, h: nat, loose: seq<Turn>, l: nat): seq<Item>
    requires h <= |held| && l <= |loose|
  {
    Passed(threshold, held, h, |held|)
    + (if Stopped(held, h, |held|) then [] else Passed(threshold, loose, l, |loose|))
  }

  /** Subscribing, reading a head, replaying from `start` up to it, and going on live. */
  method Connect(chain: seq<Event>, batch: int, start: int, plan: Plan)
    returns (complete: bool, trace: seq<Item>, ghost c: Contact)
    requires batch >= 1
    ensures Follows(chain, batch, start, plan, c) && trace == c.Trace()
    ensures complete ==> Completed(chain, batch, start, plan, c)
    ensures EndsAs(chain, batch, start, plan, c)
    ensures plan.Unstopped() ==> (complete <==> plan.GetsThrough(start, batch))
  {
    var sub := new Subscription(chain, batch, plan.ignored, plan.loose, plan.held, plan.rpc);
    Wait(sub, plan.waits);
    assert [] + plan.Early() == plan.Early();
    ghost var early := sub.trace;
    StoppedSplits(plan.loose, 0, plan.Waited(), |plan.loose|);
    var ok := sub.Answer();
    if !ok || sub.shutdown {
      c := Contact(early, [], [], [], [], []);
      assert early + ([] + [] + []) == early;
      return false, sub.trace, c;
    }
    complete, c := ReplayAndStay(sub, start, plan, early);
    trace := sub.trace;
  }

  /** The connection from the replay on. */
  method ReplayAndStay(sub: Subscription, start: int, plan: Plan, ghost early: seq<Item>)
    returns (complete: bool, ghost c: Contact)
    requires sub.Valid() && sub.buffer == None && !sub.shutdown && !sub.caughtUp && sub.threshold == plan.ignored
    requires sub.loosePlan == plan.loose && sub.heldPlan == plan.held
    requires Enough(plan.rpc, 1) && sub.rpc == Spent(plan.rpc, 1)
    requires sub.heldPos == 0 && sub.loosePos == plan.Waited() && early == sub.trace == plan.Early()
    requires plan.Unstopped() ==> !Stopped(plan.loose, plan.Waited(), |plan.loose|)
    modifies sub
    ensures Follows(sub.chain, sub.batchSize, start, plan, c) && sub.trace == c.Trace()
    ensures complete ==> Completed(sub.chain, sub.batchSize, start, plan, c)
    ensures EndsAs(sub.chain, sub.batchSize, start, plan, c)
    ensures plan.Unstopped() ==> (complete <==> plan.GetsThrough(start, sub.batchSize))
  {
    c := ReplayFirst(sub, start, plan, early);
    if !sub.caughtUp {
      return false, c;
    }
    ghost var reached := sub.heldPos;
    ghost var later := StayLive(sub);
    StayedLive(sub.chain, sub.batchSize, start, plan, reached, c, later, sub.shutdown);
    complete := !sub.shutdown;
    c := c.(later := later);
  }

  /** A replay that got through, and what came after it. */
  lemma {:induction false} StayedLive(chain: seq<Event>, batch: int, start: int, plan: Plan, reached: nat, c: Contact,
        later: seq<Item>, shutdown: bool)
    requires batch >= 1 && reached <= |plan.held| && !Stopped(plan.held, 0, reached) && plan.GetsThrough(start, batch)
    requires c.early == plan.Early() && c.handed == Replayed(chain, start, plan.head, batch)
    requires c.live == c.full && Drained(c.full, c.settled) && c.later == []
    requires c.settled == Passed(Some(plan.Top()), plan.held, 0, reached)
    requires later == LiveOn(Some(plan.Top()), plan.held, reached, plan.loose, plan.Waited())
    requires shutdown == (Stopped(plan.held, reached, |plan.held|)
                          || Stopped(plan.loose, plan.Waited(), |plan.loose|))
    ensures var all := c.(later := later);
            && Follows(chain, batch, start, plan, all) && all.Trace() == c.Trace() + later
            && (!shutdown ==> Completed(chain, batch, start, plan, all)) && EndsAs(chain, batch, start, plan, all)
    ensures plan.Unstopped() ==> !shutdown
  {
    LivedOn(plan, reached, later);
    StoppedSplits(plan.loose, 0, plan.Waited(), |plan.loose|);
    Grouped(c.early, c.handed, c.live, later);
    Grouped(c.early, c.handed, c.live, []);
    assert c.Trace() == c.early + c.handed + c.live;
  }

  /** The replay is through, and so far nothing came after it. */
  ghost predicate CaughtUp(sub: Subscription, start: int, plan: Plan, c: Contact)
    reads sub
  {
    && sub.Valid() && !sub.shutdown && sub.threshold == Some(plan.Top()) && sub.loosePos == plan.Waited()
    && sub.loosePlan == plan.loose && sub.heldPlan == plan.held && !Stopped(plan.held, 0, sub.heldPos)
    && c.early == plan.Early() && c.handed == Replayed(sub.chain, start, plan.head, sub.batchSize)
    && c.live == c.full && Drained(c.full, c.settled) && c.later == []
    && c.settled == Passed(Some(plan.Top()), plan.held, 0, sub.heldPos) && plan.GetsThrough(start, sub.batchSize)
  }

  method ReplayFirst(sub: Subscription, start: int, plan: Plan, ghost early: seq<Item>) returns (ghost c: Contact)
    requires sub.Valid() && sub.buffer == None && !sub.shutdown && !sub.caughtUp && sub.threshold == plan.ignored
    requires sub.loosePlan == plan.loose && sub.heldPlan == plan.held
    requires Enough(plan.rpc, 1) && sub.rpc == Spent(plan.rpc, 1)
    requires sub.heldPos == 0 && sub.loosePos == plan.Waited() && early == sub.trace == plan.Early()
    modifies sub
    ensures sub.buffer == None && sub.trace == c.Trace()
    ensures sub.caughtUp ==> CaughtUp(sub, start, plan, c)
    ensures !sub.caughtUp ==>
      && Follows(sub.chain, sub.batchSize, start, plan, c) && EndsAs(sub.chain, sub.batchSize, start, plan, c)
      && (plan.Unstopped() ==> !plan.GetsThrough(start, sub.batchSize))
  {
    var r;
    ghost var handed, live, full;
    r, handed, live, full := sub.ReplayBlocks(start, Some(plan.head), Some(plan.head), plan.head);
    assert RaisedThreshold(plan.ignored, Some(plan.head)) == Some(plan.Top());
    c := Contact(early, handed, sub.settled, full, live, []);
    Grouped(early, handed, live, []);
    if !sub.caughtUp {
      DiedEarly(sub.chain, sub.batchSize, start, plan, sub.heldPos, c, r == Raised, sub.shutdown);
    }
  }

  lemma {:induction false} LivedOn(plan: Plan, reached: nat, later: seq<Item>)
    requires reached <= |plan.held| && !Stopped(plan.held, 0, reached)
    requires later == LiveOn(Some(plan.Top()), plan.held, reached, plan.loose, plan.Waited())
    ensures Passed(Some(plan.Top()), plan.held, 0, reached) + later <= plan.Stream()
    ensures !Stopped(plan.held, reached, |plan.held|) ==>
      Passed(Some(plan.Top()), plan.held, 0, reached) + later == plan.Stream()
    ensures plan.Unstopped() ==> !Stopped(plan.held, reached, |plan.held|)
  {
    StoppedSplits(plan.held, 0, reached, |plan.held|);
    PassedSplits(Some(plan.Top()), plan.held, 0, reached, |plan.held|);
    Regroup(Passed(Some(plan.Top()), plan.held, 0, reached),
      Passed(Some(plan.Top()), plan.held, reached, |plan.held|),
      Passed(Some(plan.Top()), plan.loose, plan.Waited(), |plan.loose|));
  }

  /** A replay that failed, or was cut short by a shutdown. */
  lemma {:induction false} DiedEarly(chain: seq<Event>, batch: int, start: int, plan: Plan, reached: nat, c: Contact,
        raised: bool, shutdown: bool)
    requires batch >= 1 && reached <= |plan.held| && c.later == [] && c.early == plan.Early()
    requires c.settled <= Passed(Some(plan.Top()), plan.held, 0, reached) && Drained(c.full, c.settled)
    requires c.handed <= Replayed(chain, start, plan.head, batch) && c.live <= c.full
    requires c.live != [] || c.full != [] ==> c.handed == Replayed(chain, start, plan.head, batch)
    requires Enough(plan.rpc, 1) && shutdown == Stopped(plan.held, 0, reached)
    requires raised ==> c.live == []
    requires !raised ==> shutdown
    requires !shutdown ==>
      c.handed == plan.Handed(chain, start, batch) && !plan.GetsThrough(start, batch)
    ensures Follows(chain, batch, start, plan, c) && EndsAs(chain, batch, start, plan, c)
    ensures plan.Unstopped() ==> !plan.GetsThrough(start, batch)
  {
    PassedPrefix(Some(plan.Top()), plan.held, 0, reached, |plan.held|);
    StoppedSplits(plan.held, 0, reached, |plan.held|);
    assert c.settled + [] == c.settled;
    if !shutdown { TraceOfFailed(c); }
  }

  lemma {:induction false} TraceOfFailed(c: Contact)
    requires c.live == c.later == []
    ensures c.Trace() == c.early + c.handed
  {
  }

  lemma {:induction false} PassedPrefix(threshold: Option<int>, plan: seq<Turn>, a: nat, b: nat, c: nat)
    requires a <= b <= c <= |plan|
    ensures Passed(threshold, plan, a, b) <= Passed(threshold, plan, a, c)
  {
    if Stopped(plan, a, b) {
      PassedAfterStop(threshold, plan, a, b, c);
    } else {
      PassedSplits(threshold, plan, a, b, c);
    }
  }

  lemma {:induction false} Grouped(a: seq<Item>, b: seq<Item>, c: seq<Item>, d: seq<Item>)
    ensures a + b + c + d == a + (b + c + d)
  {
  }

  // ---------------------------------------------------------------- how often

  /** How many times a log was handed over. */
  function Times(trace: seq<Item>, e: Event): nat {
    if trace == [] then 0 else (if trace[0] == Log(e) then 1 else 0) + Times(trace[1..], e)
  }

  function Copies(es: seq<Event>, e: Event): nat {
    if es == [] then 0 else (if es[0] == e then 1 else 0) + Copies(es[1..], e)
  }

  lemma {:induction false} TimesConcat(a: seq<Item>, b: seq<Item>, e: Event)
    ensures Times(a + b, e) == Times(a, e) + Times(b, e)
  {
    if a == [] {
      assert a + b == b;
    } else {
      assert (a + b)[1..] == a[1..] + b;
      TimesConcat(a[1..], b, e);
    }
  }

  lemma {:induction false} TimesIsMultiplicity(trace: seq<Item>, e: Event)
    ensures Times(trace, e) == multiset(trace)[Log(e)]
  {
    if trace != [] {
      assert trace == [trace[0]] + trace[1..];
      TimesIsMultiplicity(trace[1..], e);
    }
  }

  lemma {:induction false} TimesInLogs(es: seq<Event>, e: Event)
    ensures Times(Logs(es), e) == Copies(es, e)
  {
    if es != [] {
      assert Logs(es)[1..] == Logs(es[1..]);
      TimesInLogs(es[1..], e);
    }
  }

  lemma {:induction false} TimesInRange(chain: seq<Event>, lo: int, hi: int, e: Event)
    ensures Copies(InRange(chain, lo, hi), e) == if lo <= e.block <= hi then Copies(chain, e) else 0
  {
    if chain != [] {
      TimesInRange(chain[1..], lo, hi, e);
      var rest := InRange(chain[1..], lo, hi);
      assert ([chain[0]] + rest)[1..] == rest;
    }
  }

  lemma {:induction false} TimesBatch(chain: seq<Event>, lo: int, hi: int, e: Event)
    ensures Times(Logs(InRange(chain, lo, hi)) + [Mark(hi)], e) == if lo <= e.block <= hi then Copies(chain, e) else 0
  {
    TimesInLogs(InRange(chain, lo, hi), e);
    TimesInRange(chain, lo, hi, e);
    TimesConcat(Logs(InRange(chain, lo, hi)), [Mark(hi)], e);
  }

  /** A replay hands over each log of its range as often as the chain has it, whatever the batch. */
  lemma {:induction false} TimesReplayed(chain: seq<Event>, start: int, end: int, batch: int, e: Event)
    requires batch >= 1
    ensures Times(Replayed(chain, start, end, batch), e) == if start <= e.block <= end then Copies(chain, e) else 0
    decreases end - start
  {
    if start <= end {
      var hi := if start + batch - 1 < end then start + batch - 1 else end;
      TimesReplayed(chain, hi + 1, end, batch, e);
      TimesBatch(chain, start, hi, e);
      TimesConcat(Logs(InRange(chain, start, hi)) + [Mark(hi)], Replayed(chain, hi + 1, end, batch), e);
    }
  }

  lemma {:induction false} TimesPassing(threshold: Option<int>, items: seq<Item>, e: Event)
    ensures Times(Passing(threshold, items), e) == if Accepts(threshold, Log(e)) then Times(items, e) else 0
  {
    if items == [] {
    } else {
      var last := |items| - 1;
      assert items == items[..last] + [items[last]];
      TimesPassing(threshold, items[..last], e);
      TimesConcat(items[..last], [items[last]], e);
      TimesConcat(Passing(threshold, items[..last]), if Accepts(threshold, items[last]) then [items[last]] else [], e);
    }
  }

  /** The exact number of times each log is handed over, for every interleaving. */
  lemma {:induction false} HandOverCounts(chain: seq<Event>, batch: int, start: int, plan: Plan, c: Contact, e: Event)
    requires batch >= 1 && Completed(chain, batch, start, plan, c)
    ensures Times(c.Trace(), e) ==
      Times(plan.Early(), e)
      + (if start <= e.block <= plan.head then Copies(chain, e) else 0)
      + (if e.block > plan.head && (plan.ignored.Some? ==> e.block > plan.ignored.value) then Times(plan.Rest(), e)
         else 0)
  {
    TimesConcat(c.early, c.handed + c.live + c.later, e);
    TimesConcat(c.handed + c.live, c.later, e);
    TimesConcat(c.handed, c.live, e);
    TimesReplayed(chain, start, plan.head, batch, e);
    StreamIsPassing(plan);
    TimesPassing(Some(plan.Top()), plan.Rest(), e);
    TimesConcat(c.settled, c.later, e);
    DrainedIsPermutation(c.full, c.settled);
    TimesIsMultiplicity(c.full, e);
    TimesIsMultiplicity(c.settled, e);
  }

  lemma {:induction false} StreamIsPassing(plan: Plan)
    ensures plan.Stream() == Passing(Some(plan.Top()), plan.Rest())
  {
    PassedIsPassing(Some(plan.Top()), plan.held, 0, |plan.held|);
    PassedIsPassing(Some(plan.Top()), plan.loose, plan.Waited(), |plan.loose|);
    PassingConcat(Some(plan.Top()), Passed(None, plan.held, 0, |plan.held|),
      Passed(None, plan.loose, plan.Waited(), |plan.loose|));
  }

  /** The feed, once subscribed at `subscribedAt`, brings each later chain log once, and no log twice. */
  ghost predicate CompleteFeed(chain: seq<Event>, subscribedAt: int, arrivals: seq<Item>) {
    && (forall e :: Times(arrivals, e) <= 1)
    && (forall e :: e in chain && e.block > subscribedAt ==> Times(arrivals, e) == 1)
  }

  /** No gap, and duplicates only where they are unavoidable: replaying up to a head read after
      subscribing hands over every log from the start block on; logs above that head come exactly
      once, and a log at or below it comes twice exactly when it slipped in live before the
      threshold was set. The one exception is a head below the block that an earlier catch-up had read:
      the logs between the two are ignored live and not replayed. */
  lemma {:induction false} GapFreeHandOver(chain: seq<Event>, batch: int, start: int, subscribedAt: int, plan: Plan,
                                           c: Contact, e: Event)
    requires batch >= 1 && Completed(chain, batch, start, plan, c)
    requires subscribedAt <= plan.head && start <= plan.head + 1 && Copies(chain, e) == 1 && e.block >= start
    requires CompleteFeed(chain, subscribedAt, plan.Coming())
    ensures Times(c.Trace(), e) >= 1 <==>
      e.block <= plan.head || plan.ignored.None? || e.block > plan.ignored.value
    ensures e.block > plan.head ==> Times(c.Trace(), e) <= 1
    ensures e.block <= plan.head ==> Times(c.Trace(), e) <= 2
    ensures e.block <= plan.head ==> (Times(c.Trace(), e) == 2 <==> Log(e) in plan.Early())
  {
    HandOverCounts(chain, batch, start, plan, c, e);
    var coming := Passed(None, plan.loose, 0, plan.Waited());
    TimesConcat(coming, plan.Rest(), e);
    PassedIsPassing(plan.ignored, plan.loose, 0, plan.Waited());
    TimesPassing(plan.ignored, coming, e);
    CopiesPositive(chain, e);
    TimesIsMultiplicity(plan.Early(), e);
    assert Log(e) in multiset(plan.Early()) <==> Log(e) in plan.Early();
  }

  lemma {:induction false} CopiesPositive(es: seq<Event>, e: Event)
    requires Copies(es, e) > 0
    ensures e in es
  {
    if es[0] != e { CopiesPositive(es[1..], e); }
  }
}
