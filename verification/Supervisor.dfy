/** Catch-up with retries and the first checkpoint (sentinel/services/subscription.py,
    sentinel/app/bootstrap.py): what a retry from checkpoint + 1 covers, exactly when it covers
    everything, and the methods themselves. */
module Supervisor {
  import opened Events
  import opened Windows
  import opened Feed
  import opened Coverage
  import opened Subscriptions

  lemma {:induction false} NotReplayed(chain: seq<Event>, lo: int, hi: int, batch: int, e: Event)
    requires ChainOrdered(chain) && batch >= 1 && !(lo <= e.block <= hi)
    ensures Log(e) !in Replayed(chain, lo, hi, batch)
  {
    var items := Replayed(chain, lo, hi, batch);
    ReplayedGapless(chain, lo, hi, batch);
    forall i | 0 <= i < |items| ensures items[i] != Log(e) {
      assert items[i] in items;
    }
  }

  /** Where a retry starts: never before the failed attempt's own start. */
  function RetryStart(start: int, checkpoint: int): int {
    if checkpoint + 1 > start then checkpoint + 1 else start
  }

  /** An attempt from `start` completed the blocks up to `reached` and then a fetch failed; the retry
      runs to `head` without failing. */
  function TwoAttempts(chain: seq<Event>, start: int, reached: int, checkpoint: int, head: int, batch: int): seq<Item>
    requires batch >= 1
  {
    Replayed(chain, start, reached, batch) + Replayed(chain, RetryStart(start, checkpoint), head, batch)
  }

  lemma {:induction false} RetryCoversWhen(chain: seq<Event>, start: int, reached: int, checkpoint: int, head: int,
        batch: int)
    requires ChainOrdered(chain) && batch >= 1 && start - 1 <= reached && checkpoint <= reached
    ensures Covers(chain, start, head, TwoAttempts(chain, start, reached, checkpoint, head, batch))
  {
    ReplayedGapless(chain, start, reached, batch);
    ReplayedGapless(chain, RetryStart(start, checkpoint), head, batch);
  }

  /** One log in the first block after the completed ones. */
  function NextBlockLog(reached: int): Event {
    Event("Deposited", 0, 0, "", reached + 1, 0, 0, "0x01", "0x02")
  }

  /** A retry covers the range, whatever the chain holds, exactly when the checkpoint has not moved
      past the last block the failed attempt completed. A live head handed over unbuffered before
      the failure moves it so, and so does a start block below an older persisted checkpoint. */
  lemma {:induction false} RetryCoversIff(start: int, reached: int, checkpoint: int, head: int, batch: int)
    requires batch >= 1 && start - 1 <= reached < head
    ensures (forall chain: seq<Event> :: ChainOrdered(chain) ==>
              Covers(chain, start, head, TwoAttempts(chain, start, reached, checkpoint, head, batch)))
            <==> checkpoint <= reached
  {
    if checkpoint <= reached {
      forall chain: seq<Event> | ChainOrdered(chain)
        ensures Covers(chain, start, head, TwoAttempts(chain, start, reached, checkpoint, head, batch))
      {
        RetryCoversWhen(chain, start, reached, checkpoint, head, batch);
      }
    } else {
      RetryMisses(start, reached, checkpoint, head, batch);
    }
  }

  lemma {:induction false} RetryMisses(start: int, reached: int, checkpoint: int, head: int, batch: int)
    requires batch >= 1 && start - 1 <= reached < head && checkpoint > reached
    ensures var chain := [NextBlockLog(reached)];
            && ChainOrdered(chain)
            && !Covers(chain, start, head, TwoAttempts(chain, start, reached, checkpoint, head, batch))
  {
    var e := NextBlockLog(reached);
    var chain := [e];
    NotReplayed(chain, start, reached, batch, e);
    NotReplayed(chain, RetryStart(start, checkpoint), head, batch, e);
    assert e in chain && Log(e) !in TwoAttempts(chain, start, reached, checkpoint, head, batch);
  }

  /** `_resolve_backfill_start_block`; zero means that nothing is replayed. */
  function BackfillStart(configured: Option<int>, persisted: Option<int>): int {
    if configured.Some? then configured.value
    else if persisted.Some? && persisted.value > 0 then persisted.value + 1
    else 0
  }

  /** Without a configured block the backfill begins right above the stored checkpoint, skipping no block and
      repeating none; without a checkpoint there is none, and a configured block is taken as it is. */
  lemma {:induction false} BackfillResumes(configured: Option<int>, persisted: Option<int>, block: int)
    ensures var start := BackfillStart(configured, persisted);
            && (configured.None? && persisted.Some? && persisted.value > 0 ==>
                  (block >= start <==> block > persisted.value))
            && (configured.None? && (persisted.None? || persisted.value <= 0) ==> start == 0)
            && (configured.Some? ==> (block >= start <==> block >= configured.value))
  {
    if configured.None? && persisted.Some? && persisted.value > 0 && block > persisted.value {
      assert block >= persisted.value + 1;
    }
  }

  function StoredCheckpoint(persisted: Option<int>): int {
    if persisted.Some? then persisted.value else 0
  }

  /** A catch-up whose first attempt fails after the blocks up to `reached`, with nothing live in between. */
  function FailedOnce(chain: seq<Event>, start: int, reached: int, checkpoint: int, head: int, batch: int): seq<Item>
    requires batch >= 1
  {
    TwoAttempts(chain, start, reached, CheckpointFrom(checkpoint, Replayed(chain, start, reached, batch)), head, batch)
  }

  /** The catch-up at the start of the process covers its range wherever its first attempt fails, and
      whatever the chain holds, exactly when no start block is configured or the configured one lies
      above the stored checkpoint. */
  lemma {:induction false} CatchUpSurvivesFailuresIff(configured: Option<int>, persisted: Option<int>, head: int,
        batch: int)
    requires batch >= 1 && BackfillStart(configured, persisted) != 0 && BackfillStart(configured, persisted) <= head
    ensures var start, checkpoint := BackfillStart(configured, persisted), StoredCheckpoint(persisted);
            (forall chain: seq<Event>, reached :: ChainOrdered(chain) && start - 1 <= reached < head ==>
              Covers(chain, start, head, FailedOnce(chain, start, reached, checkpoint, head, batch)))
            <==> configured.None? || checkpoint < configured.value
  {
    var start, checkpoint := BackfillStart(configured, persisted), StoredCheckpoint(persisted);
    if checkpoint < start {
      forall chain: seq<Event>, reached | ChainOrdered(chain) && start - 1 <= reached < head
        ensures Covers(chain, start, head, FailedOnce(chain, start, reached, checkpoint, head, batch))
      {
        ReplayedGapless(chain, start, reached, batch);
        CheckpointWithin(checkpoint, Replayed(chain, start, reached, batch), reached);
        RetryCoversWhen(chain, start, reached, CheckpointFrom(checkpoint, Replayed(chain, start, reached, batch)), head,
          batch);
      }
    } else {
      var chain := [NextBlockLog(start - 1)];
      RetryMisses(start, start - 1, checkpoint, head, batch);
      assert Replayed(chain, start, start - 1, batch) == [];
      assert !Covers(chain, start, head, FailedOnce(chain, start, start - 1, checkpoint, head, batch));
    }
  }

  // ---------------------------------------------------------------- the retry invariant

  /** The checkpoint stays below the cursor and everything up to the cursor has been handed over. */
  ghost predicate OnTrack(chain: seq<Event>, checkpoint: int, start: int, cursor: int, trace: seq<Item>) {
    start <= cursor && checkpoint < cursor && Covers(chain, start, cursor - 1, trace)
  }

  /** A failed attempt moves the cursor exactly as far as it got. */
  lemma {:induction false} OnTrackFailed(chain: seq<Event>, checkpoint: int, start: int, cursor: int, trace: seq<Item>,
                                         head: int, batch: int, handed: seq<Item>)
    requires ChainOrdered(chain) && batch >= 1
    requires OnTrack(chain, checkpoint, start, cursor, trace) && handed <= Replayed(chain, cursor, head, batch)
    ensures var now := CheckpointFrom(checkpoint, handed);
            OnTrack(chain, now, start, RetryStart(cursor, now), trace + handed)
  {
    var now := CheckpointFrom(checkpoint, handed);
    PartialReplay(chain, cursor, head, batch, handed);
    CheckpointIsHighest(checkpoint, handed);
    CheckpointIsHighest(cursor - 1, handed);
  }

  /** A completed attempt covers the rest. */
  lemma {:induction false} OnTrackDone(chain: seq<Event>, checkpoint: int, start: int, cursor: int, trace: seq<Item>,
                                       head: int, batch: int)
    requires ChainOrdered(chain) && batch >= 1 && OnTrack(chain, checkpoint, start, cursor, trace)
    ensures Covers(chain, start, head, trace + Replayed(chain, cursor, head, batch))
  {
    ReplayedGapless(chain, cursor, head, batch);
  }

  predicate Stricter(now: Option<int>, before: Option<int>) {
    before.None? || (now.Some? && now.value >= before.value)
  }

  lemma {:induction false} PartOfStretch(threshold: Option<int>, plan: seq<Turn>, a: nat, at: nat, b: nat, x: Item)
    requires a <= at < b <= |plan| && !Stopped(plan, a, at) && x in Passed(threshold, plan, at, at + 1)
    ensures x in Passed(threshold, plan, a, b)
  {
    PassedSplits(threshold, plan, a, at, at + 1);
    StoppedSplits(plan, a, at, at + 1);
    if Stopped(plan, a, at + 1) {
      PassedAfterStop(threshold, plan, a, at + 1, b);
    } else {
      PassedSplits(threshold, plan, a, at + 1, b);
    }
  }

  lemma {:induction false} StricterPasses(before: Option<int>, now: Option<int>, plan: seq<Turn>, a: nat, b: nat,
          x: Item)
    requires a <= b <= |plan| && Stricter(now, before) && x in Passed(now, plan, a, b)
    ensures x in Passed(before, plan, a, b)
  {
    PassedIsPassing(before, plan, a, b);
    PassedIsPassing(now, plan, a, b);
    PassingMembers(before, Passed(None, plan, a, b));
    PassingMembers(now, Passed(None, plan, a, b));
  }

  /** When no head gets through in a stretch of turns, none gets through in one of them. */
  lemma {:induction false} QuietTurn(before: Option<int>, now: Option<int>, plan: seq<Turn>, a: nat, at: nat, b: nat)
    requires a <= at < b <= |plan| && !Stopped(plan, a, at) && Stricter(now, before)
    requires NoHeads(Passed(before, plan, a, b))
    ensures NoHeads(Passed(now, plan, at, at + 1))
  {
    forall x | x in Passed(now, plan, at, at + 1) ensures x.Log? {
      StricterPasses(before, now, plan, at, at + 1, x);
      PartOfStretch(before, plan, a, at, b, x);
    }
  }

  // ---------------------------------------------------------------- the class

  class ModuleRuntimeSupervisor {
    const sub: Subscription
    var catchupUntilBlock: Option<int>
    /** The checkpoint as this class or an earlier process last wrote it, and how much had been handed
        over by then. */
    var written: int
    var writtenAt: nat

    ghost predicate Idle()
      reads this, sub
    {
      sub.Valid() && sub.buffer == None && !sub.shutdown && !sub.caughtUp && writtenAt <= |sub.trace|
    }

    constructor (sub: Subscription, persisted: int)
      ensures this.sub == sub && written == persisted && writtenAt == |sub.trace| && catchupUntilBlock == None
    {
      this.sub, written, writtenAt, catchupUntilBlock := sub, persisted, |sub.trace|, None;
    }

    /** The stored checkpoint: every mark handed over raises it, nothing but a later write lowers it. */
    function CheckpointNow(): int
      requires writtenAt <= |sub.trace|
      reads this, sub
    {
      CheckpointFrom(written, sub.trace[writtenAt..])
    }

    lemma Grown(before: seq<Item>, more: seq<Item>)
      requires writtenAt <= |before|
      ensures CheckpointFrom(written, (before + more)[writtenAt..])
           == CheckpointFrom(CheckpointFrom(written, before[writtenAt..]), more)
    {
      assert (before + more)[writtenAt..] == before[writtenAt..] + more;
      CheckpointAdds(written, before[writtenAt..], more);
    }

    /** `establish_initial_checkpoint`: the head is read at an await and then written over whatever the
        store holds. The checkpoint goes back exactly when it stood above the new value already, or a
        live head above it was handed over during the await. */
    method EstablishInitialCheckpoint(head: int) returns (ok: bool)
      requires Idle()
      modifies sub`trace, sub`buffer, sub`shutdown, sub`heldPos, sub`loosePos, sub`rpc, this`written, this`writtenAt
      ensures var got, top := old(Taken(sub.loosePos)), FirstCheckpoint(head);
              && sub.trace == old(sub.trace) + got && writtenAt <= |sub.trace|
              && (ok <==> old(sub.rpc) == [] || old(sub.rpc)[0] > 0)
              && (ok ==> CheckpointNow() == top >= 0 && (head >= 1 ==> top == head - 1) && (head < 1 ==> top == 0))
              && (ok ==> (CheckpointNow() < CheckpointFrom(old(CheckpointNow()), got) <==>
                           old(CheckpointNow()) > top || exists b :: b > top && Mark(b) in got))
              && (!ok ==> CheckpointNow() == CheckpointFrom(old(CheckpointNow()), got))
    {
      ghost var before, got := CheckpointNow(), Taken(sub.loosePos);
      sub.AwaitLoose();
      assert old(sub.trace) + [] == old(sub.trace);
      Grown(old(sub.trace), got);
      CheckpointIsHighest(before, got);
      ok := sub.Answer();
      if ok {
        written, writtenAt := FirstCheckpoint(head), |sub.trace|;
      }
    }

    /** What gets through at the next await outside a replay. */
    ghost function Taken(at: nat): seq<Item>
      reads sub
    {
      if at < |sub.loosePlan| then Passed(sub.threshold, sub.loosePlan, at, at + 1) else []
    }

    /** One attempt of the retry loop: a head is read (`loose` is what came in meanwhile) and the range
        up to it replayed. */
    method TryReplay(cursor: int, head: int)
      returns (r: Outcome, ghost loose: seq<Item>, ghost handed: seq<Item>, ghost live: seq<Item>)
      requires Idle()
      modifies sub, this`catchupUntilBlock
      ensures sub.Valid() && sub.buffer == None && loose == old(Taken(sub.loosePos))
      ensures sub.trace == old(sub.trace) + loose + handed + live
      ensures handed <= Replayed(sub.chain, cursor, head, sub.batchSize)
      ensures sub.loosePos == Step(old(sub.loosePos), |sub.loosePlan|) && old(sub.heldPos) <= sub.heldPos
      ensures sub.shutdown == (Stopped(sub.loosePlan, old(sub.loosePos), sub.loosePos)
                               || Stopped(sub.heldPlan, old(sub.heldPos), sub.heldPos))
      ensures sub.caughtUp == (r == Returned && !sub.shutdown)
      ensures sub.caughtUp ==>
        && handed == Replayed(sub.chain, cursor, head, sub.batchSize)
        && catchupUntilBlock == Some(head) && sub.threshold == RaisedThreshold(old(sub.threshold), Some(head))
      ensures r == Raised ==> live == [] && |sub.rpc| < |old(sub.rpc)|
      ensures |sub.rpc| <= |old(sub.rpc)| && Stricter(sub.threshold, old(sub.threshold))
    {
      handed, live := [], [];
      loose := Taken(sub.loosePos);
      sub.AwaitLoose();
      assert old(sub.trace) + [] == old(sub.trace);
      var ok := sub.Answer();
      if !ok || sub.shutdown {
        return if ok then Returned else Raised, loose, handed, live;
      }
      catchupUntilBlock := Some(head);
      ghost var full;
      r, handed, live, full := sub.ReplayBlocks(cursor, Some(head), Some(head), head);
    }

    /** Between attempts; `calm` says that the start was above the checkpoint and that no head comes in the
        turns from `a` to `end` gets past the threshold `before`. */
    ghost predicate Attempting(calm: bool, before: Option<int>, a: nat, end: nat, start: int, cursor: int)
      reads this, sub
    {
      && sub.Valid() && sub.buffer == None && !sub.caughtUp && writtenAt <= |sub.trace| && ChainOrdered(sub.chain)
      && Stricter(sub.threshold, before) && a <= sub.loosePos && a <= end <= |sub.loosePlan|
      && (calm ==>
            && NoHeads(Passed(before, sub.loosePlan, a, end))
            && OnTrack(sub.chain, CheckpointNow(), start, cursor, sub.trace))
    }

    /** A shutdown is under way exactly when one was requested in a turn taken since. */
    ghost predicate StopsSince(a: nat, h: nat)
      reads sub
    {
      && a <= sub.loosePos <= |sub.loosePlan| && h <= sub.heldPos <= |sub.heldPlan|
      && sub.shutdown == (Stopped(sub.loosePlan, a, sub.loosePos) || Stopped(sub.heldPlan, h, sub.heldPos))
    }

    /** Logs alone leave the attempts on track. */
    lemma StillOnTrack(start: int, cursor: int, before: seq<Item>, more: seq<Item>)
      requires writtenAt <= |before| && NoHeads(more)
      requires OnTrack(sub.chain, CheckpointFrom(written, before[writtenAt..]), start, cursor, before)
      ensures OnTrack(sub.chain, CheckpointFrom(written, (before + more)[writtenAt..]), start, cursor, before + more)
    {
      Grown(before, more);
      CheckpointOfLogs(CheckpointFrom(written, before[writtenAt..]), more);
    }

    /** One attempt, and what it does to the track. */
    method Attempt(ghost calm: bool, ghost before: Option<int>, ghost a: nat, ghost h: nat, ghost end: nat,
                   ghost start: int, cursor: int, head: int) returns (r: Outcome, ghost try: Try)
      requires Attempting(calm, before, a, end, start, cursor) && !sub.shutdown && StopsSince(a, h)
      requires sub.loosePos < |sub.loosePlan| ==> sub.loosePos < end
      modifies sub, this`catchupUntilBlock
      ensures try.cursor == cursor && old(sub.trace) <= try.before && try.before + try.handed <= sub.trace
      ensures try.handed <= Replayed(sub.chain, cursor, head, sub.batchSize)
      ensures r == Raised ==> sub.trace == try.before + try.handed
      ensures r == Returned && !sub.shutdown ==> try.handed == Replayed(sub.chain, cursor, head, sub.batchSize)
      ensures sub.Valid() && sub.buffer == None && writtenAt <= |sub.trace|
      ensures StopsSince(a, h) && sub.loosePos == Step(old(sub.loosePos), |sub.loosePlan|)
      ensures |sub.rpc| <= |old(sub.rpc)| && (r == Raised ==> |sub.rpc| < |old(sub.rpc)|)
      ensures r == Raised ==> Attempting(calm, before, a, end, start, RetryStart(cursor, CheckpointNow()))
      ensures r == Returned && !sub.shutdown ==>
        && sub.threshold == RaisedThreshold(old(sub.threshold), Some(head))
        && (calm ==> Covers(sub.chain, start, head, sub.trace))
    {
      ghost var t0, at, k := sub.trace, sub.loosePos, sub.heldPos;
      ghost var loose, handed, live;
      if calm && at < |sub.loosePlan| { QuietTurn(before, sub.threshold, sub.loosePlan, a, at, end); }
      r, loose, handed, live := TryReplay(cursor, head);
      try := Try(cursor, t0 + loose, handed);
      StoppedSplits(sub.loosePlan, a, at, sub.loosePos);
      StoppedSplits(sub.heldPlan, h, k, sub.heldPos);
      if calm {
        StillOnTrack(start, cursor, t0, loose);
        ghost var now := CheckpointFrom(written, (t0 + loose)[writtenAt..]);
        if r == Raised {
          assert sub.trace == t0 + loose + handed;
          OnTrackFailed(sub.chain, now, start, cursor, t0 + loose, head, sub.batchSize, handed);
          Grown(t0 + loose, handed);
        } else if !sub.shutdown {
          OnTrackDone(sub.chain, now, start, cursor, t0 + loose, head, sub.batchSize);
        }
      }
    }

    /** The pause before the next attempt. */
    method Pause(ghost calm: bool, ghost before: Option<int>, ghost a: nat, ghost h: nat, ghost end: nat,
                 ghost start: int, ghost cursor: int)
      requires Attempting(calm, before, a, end, start, cursor) && !sub.shutdown && StopsSince(a, h)
      requires sub.loosePos < |sub.loosePlan| ==> sub.loosePos < end
      modifies sub`trace, sub`buffer, sub`shutdown, sub`heldPos, sub`loosePos
      ensures Attempting(calm, before, a, end, start, cursor) && old(sub.trace) <= sub.trace
      ensures StopsSince(a, h) && sub.loosePos == Step(old(sub.loosePos), |sub.loosePlan|)
    {
      ghost var t0, at := sub.trace, sub.loosePos;
      if calm && at < |sub.loosePlan| {
        QuietTurn(before, sub.threshold, sub.loosePlan, a, at, end);
        StillOnTrack(start, cursor, t0, Passed(sub.threshold, sub.loosePlan, at, at + 1));
      }
      sub.AwaitLoose();
      StoppedSplits(sub.loosePlan, a, at, sub.loosePos);
    }

    /** `catch_up_from`: replay from `start` to the head, retrying from checkpoint + 1 after an RPC
        failure; `heads` gives the head each attempt reads. With a start above the checkpoint, and no
        head in the turns that at most one head read and one pause for each failure take, a completed
        catch-up has handed over every log from the start block to the head it reached. The first attempt
        begins at the start block whatever the checkpoint, so one that gets through has done so anyway. */
    method CatchUpFrom(start: int, heads: nat -> int)
      returns (done: bool, reached: int, attempts: nat, ghost tries: seq<Try>)
      requires Idle() && ChainOrdered(sub.chain)
      modifies sub, this`catchupUntilBlock
      ensures writtenAt <= |sub.trace| && |tries| == attempts && OnRecord(tries, start, heads)
      ensures attempts > 0 ==> tries[0].cursor == start && old(sub.trace) <= tries[0].before
      ensures done ==> attempts > 0 && tries[attempts - 1].IsWhole(sub.chain, reached, sub.batchSize)
      ensures done && attempts == 1 ==> Covers(sub.chain, start, reached, sub.trace)
      ensures sub.Valid() && sub.buffer == None && catchupUntilBlock == None
      ensures (done <==> !sub.shutdown) && StopsSince(old(sub.loosePos), old(sub.heldPos))
      ensures sub.loosePos <= Horizon(old(sub.loosePos), |old(sub.rpc)|)
      ensures done ==> 0 < attempts <= |old(sub.rpc)| + 1 && reached == heads(attempts - 1)
      ensures done ==> sub.threshold.Some? && sub.threshold.value >= reached
      ensures done && old(CheckpointNow()) < start
              && NoHeads(Passed(old(sub.threshold), sub.loosePlan, old(sub.loosePos),
                                Horizon(old(sub.loosePos), |old(sub.rpc)|)))
        ==> Covers(sub.chain, start, reached, sub.trace)
    {
      var cursor := start;
      done, reached, attempts, tries := false, start - 1, 0, [];
      ghost var end := Horizon(sub.loosePos, |sub.rpc|);
      ghost var calm := CheckpointNow() < start && NoHeads(Passed(sub.threshold, sub.loosePlan, sub.loosePos, end));
      ghost var g := Chase(calm, sub.threshold, sub.loosePos, sub.heldPos, end, |sub.rpc|, sub.trace);
      while !sub.shutdown
        invariant Chasing(g, start, cursor, tries, heads) && |tries| == attempts
        decreases !sub.shutdown, |sub.rpc|
      {
        reached := heads(attempts);
        var r;
        ghost var try;
        r, cursor, try := NextTry(g, start, cursor, reached, tries, heads);
        attempts, tries := attempts + 1, tries + [try];
        if r == Returned {
          done := !sub.shutdown;
          break;
        }
      }
      catchupUntilBlock := None;
    }

    /** Between attempts. */
    ghost predicate Chasing(g: Chase, start: int, cursor: int, tries: seq<Try>, heads: nat -> int)
      reads this, sub
    {
      && sub.Valid() && sub.buffer == None && writtenAt <= |sub.trace|
      && (!sub.shutdown ==> Attempting(g.calm, g.before, g.a, g.end, start, cursor))
      && StopsSince(g.a, g.h) && g.end == Horizon(g.a, g.failures) && |sub.rpc| <= g.failures
      && sub.loosePos <= g.a + 2 * (g.failures - |sub.rpc|) && |tries| <= g.failures - |sub.rpc|
      && Logged(g, start, tries, heads) && cursor == NextCursor(tries, start, written, writtenAt)
    }

    ghost predicate Logged(g: Chase, start: int, tries: seq<Try>, heads: nat -> int)
      reads this, sub
    {
      && OnRecord(tries, start, heads) && g.trace <= sub.trace
      && (tries != [] ==>
            tries[0].cursor == start && g.trace <= tries[0].before && tries[|tries| - 1].Ran() <= sub.trace)
    }

    /** One attempt, and the pause after it when it failed. */
    method NextTry(ghost g: Chase, start: int, cursor: int, head: int, ghost tries: seq<Try>, ghost heads: nat -> int)
      returns (r: Outcome, cursor': int, ghost try: Try)
      requires Chasing(g, start, cursor, tries, heads) && !sub.shutdown && head == heads(|tries|)
      modifies sub, this`catchupUntilBlock
      ensures sub.Valid() && sub.buffer == None && writtenAt <= |sub.trace| && StopsSince(g.a, g.h)
      ensures sub.loosePos <= g.end && Logged(g, start, tries + [try], heads)
      ensures r == Raised ==> |sub.rpc| < |old(sub.rpc)| && Chasing(g, start, cursor', tries + [try], heads)
      ensures r == Returned && !sub.shutdown ==>
        && try.IsWhole(sub.chain, head, sub.batchSize) && sub.threshold.Some? && sub.threshold.value >= head
        && (g.calm || try.cursor == start ==> Covers(sub.chain, start, head, sub.trace))
    {
      ghost var now := sub.trace;
      cursor' := cursor;
      r, try := Attempt(g.calm, g.before, g.a, g.h, g.end, start, cursor, head);
      OneMoreTry(sub.chain, sub.batchSize, tries, try, start, heads, written, writtenAt, now, sub.trace);
      if r == Returned {
        if !sub.shutdown && try.cursor == start {
          WholeTryCovers(sub.chain, start, head, sub.batchSize, try, sub.trace);
        }
        return;
      }
      cursor' := RetryStart(cursor, CheckpointNow());
      ghost var ran := sub.trace;
      if !sub.shutdown {
        Pause(g.calm, g.before, g.a, g.h, g.end, start, cursor');
      }
      StillRecorded(sub.chain, sub.batchSize, tries + [try], start, heads, written, writtenAt, ran, sub.trace);
    }

    /** The attempts so far, and what they handed over. */
    ghost predicate OnRecord(tries: seq<Try>, start: int, heads: nat -> int)
      reads this, sub
    {
      sub.batchSize >= 1 && Recorded(sub.chain, sub.batchSize, tries, start, heads, written, writtenAt, sub.trace)
    }

    /** The turns that head reads and pauses can take when so many failures are to come. */
    ghost function Horizon(pos: nat, failures: nat): nat {
      if pos + 2 * failures + 1 <= |sub.loosePlan| then pos + 2 * failures + 1 else |sub.loosePlan|
    }
  }

  /** What a catch-up found when it began; `calm` says that its start lies above the checkpoint and that no head
      can come in between its attempts. */
  datatype Chase = Chase(calm: bool, before: Option<int>, a: nat, h: nat, end: nat, failures: nat, trace: seq<Item>)

  /** One attempt: where it began, what had been handed over by then, and what it replayed. */
  datatype Try = Try(cursor: int, before: seq<Item>, handed: seq<Item>)
  {
    function Ran(): seq<Item> {
      before + handed
    }

    /** It replayed the whole range from where it began. */
    predicate IsWhole(chain: seq<Event>, head: int, batch: int)
      requires batch >= 1
    {
      handed == Replayed(chain, cursor, head, batch)
    }
  }

  /** Where the next attempt begins: the first at the start block, a later one above the checkpoint that the
      one before left, and never before that one. */
  function NextCursor(tries: seq<Try>, start: int, written: int, writtenAt: nat): int {
    if tries == [] then start else
    var last := tries[|tries| - 1];
    var checkpoint := if writtenAt <= |last.Ran()| then CheckpointFrom(written, last.Ran()[writtenAt..]) else written;
    if checkpoint + 1 > last.cursor then checkpoint + 1 else last.cursor
  }

  /** Each attempt began where it should, and handed over a prefix of the range up to the head it read. */
  ghost predicate Recorded(chain: seq<Event>, batch: int, tries: seq<Try>, start: int, heads: nat -> int, written: int,
                           writtenAt: nat, trace: seq<Item>)
    requires batch >= 1
  {
    forall k :: 0 <= k < |tries| ==> TryIs(chain, batch, tries, k, start, heads, written, writtenAt, trace)
  }

  ghost predicate TryIs(chain: seq<Event>, batch: int, tries: seq<Try>, k: nat, start: int, heads: nat -> int,
                        written: int, writtenAt: nat, trace: seq<Item>)
    requires batch >= 1 && k < |tries|
  {
    && tries[k].cursor == NextCursor(tries[..k], start, written, writtenAt) && tries[k].Ran() <= trace
    && tries[k].handed <= Replayed(chain, tries[k].cursor, heads(k), batch)
    && (k > 0 ==> tries[k - 1].Ran() <= tries[k].before)
  }

  lemma {:induction false} StillRecorded(chain: seq<Event>, batch: int, tries: seq<Try>, start: int,
        heads: nat -> int, written: int, writtenAt: nat, trace: seq<Item>, longer: seq<Item>)
    requires batch >= 1 && Recorded(chain, batch, tries, start, heads, written, writtenAt, trace) && trace <= longer
    ensures Recorded(chain, batch, tries, start, heads, written, writtenAt, longer)
  {
    forall k | 0 <= k < |tries| ensures TryIs(chain, batch, tries, k, start, heads, written, writtenAt, longer) {
      assert TryIs(chain, batch, tries, k, start, heads, written, writtenAt, trace);
    }
  }

  lemma {:induction false} OneMoreTry(chain: seq<Event>, batch: int, tries: seq<Try>, try: Try, start: int,
        heads: nat -> int, written: int, writtenAt: nat, trace: seq<Item>, longer: seq<Item>)
    requires batch >= 1 && Recorded(chain, batch, tries, start, heads, written, writtenAt, trace)
    requires trace <= try.before && try.Ran() <= longer && try.cursor == NextCursor(tries, start, written, writtenAt)
    requires try.handed <= Replayed(chain, try.cursor, heads(|tries|), batch)
    requires tries != [] ==> tries[|tries| - 1].Ran() <= trace
    ensures Recorded(chain, batch, tries + [try], start, heads, written, writtenAt, longer)
  {
    var all := tries + [try];
    forall k | 0 <= k < |all| ensures TryIs(chain, batch, all, k, start, heads, written, writtenAt, longer) {
      assert all[..k] == if k < |tries| then tries[..k] else tries;
      if k < |tries| { assert TryIs(chain, batch, tries, k, start, heads, written, writtenAt, trace); }
    }
  }

  /** An attempt that got through has handed over every log of its range. */
  lemma {:induction false} WholeTryCovers(chain: seq<Event>, start: int, head: int, batch: int, try: Try,
        trace: seq<Item>)
    requires ChainOrdered(chain) && batch >= 1 && try.handed == Replayed(chain, start, head, batch)
    requires try.Ran() <= trace
    ensures Covers(chain, start, head, trace)
  {
    ReplayedGapless(chain, start, head, batch);
    forall x | x in chain && start <= x.block <= head ensures Log(x) in trace {
      assert Log(x) in try.handed;
      assert Log(x) in try.Ran();
    }
  }

  function Step(pos: nat, size: nat): nat {
    if pos < size then pos + 1 else pos
  }

  function FirstCheckpoint(head: int): int {
    if head - 1 > 0 then head - 1 else 0
  }

  /** A run in which the first checkpoint goes back: the store holds 5, the head answered is 11, and the
      mark of block 12 is handed over while the answer is on its way. */
  method LoweredCheckpoint() returns (reached: int, written: int)
    ensures reached == 12 && written == 10
  {
    var turn := [Arrive(Mark(12))];
    var plan := [turn];
    MarkPasses(turn, plan, 12);
    var sub := new Subscription([], 1, None, plan, [], []);
    var supervisor := new ModuleRuntimeSupervisor(sub, 5);
    assert sub.trace[0..] == [] && supervisor.CheckpointNow() == 5;
    assert supervisor.Taken(0) == [Mark(12)];
    assert [] + [Mark(12)] == [Mark(12)];
    var ok := supervisor.EstablishInitialCheckpoint(11);
    assert sub.trace == [Mark(12)];
    assert sub.trace[..0] == [];
    reached := CheckpointFrom(5, sub.trace);
    written := supervisor.CheckpointNow();
  }

  lemma {:induction false} MarkPasses(turn: Turn, plan: seq<Turn>, b: int)
    requires turn == [Arrive(Mark(b))] && plan == [turn]
    ensures Passed(None, plan, 0, 1) == [Mark(b)]
  {
    assert PassedIn(None, turn, 1) == [Mark(b)];
  }
}
