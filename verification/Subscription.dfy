/** One live subscription with historical replay (sentinel/rpc.py). Every await hands control to the
    environment for one turn, in which live items may arrive and a shutdown may be requested.
    `loosePlan` lists its turns at awaits outside a replay and `heldPlan` those at awaits within one;
    turns in store for a replay that did not need them come next once it has completed. `rpc` says how
    many provider calls succeed before each coming failure. Any interleaving is such lists, and the
    contracts account for every item in the turns taken. */
module Subscriptions {
  import opened Events
  import opened Sorting
  import opened Windows
  import opened Feed

  /** `Raised` stands for an RPC availability error leaving the call. */
  datatype Outcome = Returned | Raised

  class Subscription {
    const chain: seq<Event>
    const batchSize: int
    const loosePlan: seq<Turn>
    const heldPlan: seq<Turn>
    var threshold: Option<int>
    var buffer: Option<seq<Item>>
    var shutdown: bool
    /** What the consumers were handed, in order. */
    var trace: seq<Item>
    /** How many turns of each plan were taken. */
    var loosePos: nat
    var heldPos: nat
    /** A replay has completed. */
    var caughtUp: bool
    var rpc: seq<nat>

    /** Where the latest replay began, and the items it buffered that are no longer in the buffer. */
    ghost var since: nat
    ghost var settled: seq<Item>

    ghost predicate Valid()
      reads this
    {
      batchSize >= 1 && loosePos <= |loosePlan| && heldPos <= |heldPlan|
    }

    /** During a replay: whatever got past the threshold since it began is buffered or settled. */
    ghost predicate Buffering()
      reads this
    {
      && Valid() && !caughtUp && buffer.Some? && since <= heldPos
      && shutdown == Stopped(heldPlan, since, heldPos)
      && settled + buffer.value == Passed(threshold, heldPlan, since, heldPos)
    }

    constructor (chain: seq<Event>, batchSize: int, threshold: Option<int>,
                 loosePlan: seq<Turn>, heldPlan: seq<Turn>, rpc: seq<nat>)
      requires batchSize >= 1
      ensures Valid() && this.chain == chain && this.batchSize == batchSize && this.threshold == threshold
      ensures this.loosePlan == loosePlan && this.heldPlan == heldPlan && this.rpc == rpc
      ensures buffer == None && !shutdown && trace == [] && loosePos == heldPos == 0 && !caughtUp
    {
      this.chain, this.batchSize, this.threshold := chain, batchSize, threshold;
      this.loosePlan, this.heldPlan, this.rpc := loosePlan, heldPlan, rpc;
      this.buffer, this.shutdown, this.trace := None, false, [];
      loosePos, heldPos, caughtUp, since, settled := 0, 0, false, 0, [];
    }

    /** A live log or a live new head: dropped, buffered, or handed straight to the consumers. */
    method EmitSubscriptionItem(item: Item)
      modifies this`buffer, this`trace
      ensures if shutdown || !Accepts(threshold, item) then buffer == old(buffer) && trace == old(trace)
              else if old(buffer).Some? then buffer == Some(old(buffer).value + [item]) && trace == old(trace)
              else buffer == None && trace == old(trace) + [item]
      ensures threshold.Some? && item.Mark? && item.number <= threshold.value ==>
        buffer == old(buffer) && trace == old(trace)
      ensures threshold.Some? && item.Log? && item.event.block <= threshold.value ==>
        buffer == old(buffer) && trace == old(trace)
    {
      if shutdown {
        return;
      }
      if threshold.Some? && Number(item) <= threshold.value {
        return;
      }
      if buffer.Some? {
        buffer := Some(buffer.value + [item]);
        return;
      }
      trace := trace + [item];
    }

    /** One turn of the environment. */
    method TakeTurn(turn: Turn)
      modifies this`buffer, this`trace, this`shutdown
      ensures shutdown == (old(shutdown) || StopsIn(turn, |turn|))
      ensures old(shutdown) ==> buffer == old(buffer) && trace == old(trace)
      ensures !old(shutdown) ==>
        var got := PassedIn(threshold, turn, |turn|);
        && buffer == (if old(buffer).Some? then Some(old(buffer).value + got) else None)
        && trace == (if old(buffer).Some? then old(trace) else old(trace) + got)
    {
      ghost var got: seq<Item> := [];
      ghost var base := if buffer.Some? then buffer.value else trace;
      assert base + got == base;
      for i := 0 to |turn|
        invariant shutdown == (old(shutdown) || StopsIn(turn, i))
        invariant old(shutdown) ==> buffer == old(buffer) && trace == old(trace)
        invariant !old(shutdown) ==> got == PassedIn(threshold, turn, i)
        invariant old(buffer).Some? ==> buffer == Some(base + got) && trace == old(trace)
        invariant old(buffer).None? ==> buffer == None && trace == base + got
      {
        match turn[i] {
          case Arrive(item) =>
            if !shutdown && Accepts(threshold, item) {
              Regroup(base, got, [item]);
              got := got + [item];
            }
            EmitSubscriptionItem(item);
          case RequestShutdown =>
            shutdown := true;
        }
      }
    }

    /** An await within a replay. */
    method AwaitHeld()
      requires Buffering()
      modifies this`buffer, this`trace, this`shutdown, this`heldPos
      ensures Buffering() && trace == old(trace) && (old(shutdown) ==> shutdown)
      ensures heldPos == if old(heldPos) < |heldPlan| then old(heldPos) + 1 else old(heldPos)
    {
      if heldPos == |heldPlan| {
        return;
      }
      ghost var before := buffer.value;
      TakeTurn(heldPlan[heldPos]);
      Regroup(settled, before, PassedIn(threshold, heldPlan[heldPos], |heldPlan[heldPos]|));
      heldPos := heldPos + 1;
    }

    /** An await outside a replay: live items go straight to the consumers. */
    method AwaitLoose()
      requires Valid() && buffer == None
      modifies this`trace, this`buffer, this`shutdown, this`heldPos, this`loosePos
      ensures Valid() && buffer == None
      ensures if caughtUp && old(heldPos) < |heldPlan| then
                && heldPos == old(heldPos) + 1 && loosePos == old(loosePos)
                && HandedOver(heldPlan, old(heldPos))
              else if old(loosePos) < |loosePlan| then
                && loosePos == old(loosePos) + 1 && heldPos == old(heldPos)
                && HandedOver(loosePlan, old(loosePos))
              else
                unchanged(this)
    {
      if caughtUp && heldPos < |heldPlan| {
        TakeHeldTurn();
      } else if loosePos < |loosePlan| {
        TakeLooseTurn();
      }
    }

    method TakeHeldTurn()
      requires Valid() && buffer == None && heldPos < |heldPlan|
      modifies this`trace, this`buffer, this`shutdown, this`heldPos
      ensures Valid() && buffer == None && heldPos == old(heldPos) + 1 && HandedOver(heldPlan, old(heldPos))
    {
      HandOverTurn(heldPlan, heldPos);
      heldPos := heldPos + 1;
    }

    method TakeLooseTurn()
      requires Valid() && buffer == None && loosePos < |loosePlan|
      modifies this`trace, this`buffer, this`shutdown, this`loosePos
      ensures Valid() && buffer == None && loosePos == old(loosePos) + 1 && HandedOver(loosePlan, old(loosePos))
    {
      HandOverTurn(loosePlan, loosePos);
      loosePos := loosePos + 1;
    }

    method HandOverTurn(plan: seq<Turn>, at: nat)
      requires buffer == None && at < |plan|
      modifies this`trace, this`buffer, this`shutdown
      ensures buffer == None && HandedOver(plan, at)
    {
      OneTurn(threshold, plan, at);
      TakeTurn(plan[at]);
    }

    /** The turn at that place was taken, and what got past the threshold went to the consumers. */
    twostate predicate HandedOver(plan: seq<Turn>, at: nat)
      requires at < |plan|
      reads this
    {
      && trace == (if old(shutdown) then old(trace) else old(trace) + Passed(threshold, plan, at, at + 1))
      && shutdown == (old(shutdown) || Stopped(plan, at, at + 1))
    }

    /** The provider's next answer: it fails when no successful call is left before the next failure. */
    method Answer() returns (ok: bool)
      modifies this`rpc
      ensures ok <==> Enough(old(rpc), 1)
      ensures rpc == if ok then Spent(old(rpc), 1) else old(rpc)[1..]
    {
      if rpc == [] {
        return true;
      }
      ok := rpc[0] > 0;
      rpc := if ok then [rpc[0] - 1] + rpc[1..] else rpc[1..];
    }

    /** A provider call within a replay. */
    method CallProvider() returns (ok: bool)
      requires Buffering()
      modifies this`buffer, this`trace, this`shutdown, this`heldPos, this`rpc
      ensures Buffering() && trace == old(trace) && (old(shutdown) ==> shutdown)
      ensures old(heldPos) <= heldPos
      ensures ok <==> Enough(old(rpc), 1)
      ensures rpc == if ok then Spent(old(rpc), 1) else old(rpc)[1..]
    {
      AwaitHeld();
      ok := Answer();
    }

    /** `_emit_event` and `_emit_block`: nothing after shutdown, else one call on the consumers. */
    method Emit(item: Item)
      requires Buffering()
      modifies this`buffer, this`trace, this`shutdown, this`heldPos
      ensures Buffering() && (old(shutdown) ==> shutdown)
      ensures trace == if old(shutdown) then old(trace) else old(trace) + [item]
      ensures old(heldPos) <= heldPos
      ensures !old(shutdown) ==> heldPos > old(heldPos) || heldPos == |heldPlan|
    {
      if shutdown {
        return;
      }
      trace := trace + [item];
      AwaitHeld();
    }

    /** One log of a batch: handed over, and then a pause unless a shutdown was requested. */
    method HandLog(e: Event)
      requires Buffering()
      modifies this`buffer, this`trace, this`shutdown, this`heldPos
      ensures Buffering() && (old(shutdown) ==> shutdown) && old(heldPos) <= heldPos
      ensures trace == if old(shutdown) then old(trace) else old(trace) + [Log(e)]
    {
      Emit(Log(e));
      if !shutdown {
        AwaitHeld();
      }
    }

    /** The logs of one batch. */
    method ReplayLogs(events: seq<Event>) returns (ghost handed: seq<Item>)
      requires Buffering()
      modifies this`buffer, this`trace, this`shutdown, this`heldPos
      ensures Buffering() && (old(shutdown) ==> shutdown) && old(heldPos) <= heldPos
      ensures trace == old(trace) + handed && handed <= Logs(events)
      ensures !shutdown ==> handed == Logs(events)
    {
      ghost var n: nat := 0;
      var i := 0;
      assert events[..0] == [];
      while i < |events|
        invariant n <= i <= |events| && Buffering() && (old(shutdown) ==> shutdown) && old(heldPos) <= heldPos
        invariant trace == old(trace) + Logs(events[..n]) && (!shutdown ==> n == i)
      {
        LogsSnoc(events, i);
        Regroup(old(trace), Logs(events[..i]), [Log(events[i])]);
        if !shutdown { n := i + 1; }
        HandLog(events[i]);
        i := i + 1;
        if shutdown {
          break;
        }
      }
      LogsPrefix(events, n);
      handed := Logs(events[..n]);
      if !shutdown { assert events[..n] == events; }
    }

    /** One fetched batch: its logs, then the mark of its last block, unless shutdown cuts it short. */
    method ReplayBatch(events: seq<Event>, last: int) returns (ghost handed: seq<Item>)
      requires Buffering()
      modifies this`buffer, this`trace, this`shutdown, this`heldPos
      ensures Buffering() && (old(shutdown) ==> shutdown) && old(heldPos) <= heldPos
      ensures trace == old(trace) + handed && handed <= Logs(events) + [Mark(last)]
      ensures !shutdown ==> handed == Logs(events) + [Mark(last)]
    {
      handed := ReplayLogs(events);
      if shutdown {
        return;
      }
      Regroup(old(trace), handed, [Mark(last)]);
      handed := handed + [Mark(last)];
      Emit(Mark(last));
    }

    /** Fetches one batch and hands it over. The reader returns nothing once shutdown is requested. */
    method FetchBatch(lo: int, hi: int) returns (r: Outcome, ghost part: seq<Item>)
      requires Buffering()
      modifies this`buffer, this`trace, this`shutdown, this`heldPos, this`rpc
      ensures Buffering() && (old(shutdown) ==> shutdown) && old(heldPos) <= heldPos
      ensures trace == old(trace) + part && part <= Logs(InRange(chain, lo, hi)) + [Mark(hi)]
      ensures r == Returned && !shutdown ==> part == Logs(InRange(chain, lo, hi)) + [Mark(hi)]
      ensures |rpc| <= |old(rpc)| && (r == Raised ==> |rpc| < |old(rpc)| && !shutdown && part == [])
      ensures r == Raised ==> !Enough(old(rpc), 1)
      ensures r == Returned && !shutdown ==> Enough(old(rpc), 1) && rpc == Spent(old(rpc), 1)
    {
      var ok := CallProvider();
      if shutdown {
        return Returned, [];
      }
      if !ok {
        return Raised, [];
      }
      part := ReplayBatch(InRange(chain, lo, hi), hi);
      r := Returned;
    }

    /** The batch loop of `_replay_blocks`: `owed` is what it has yet to hand over. */
    method ReplayBatches(start: int, last: int) returns (r: Outcome, ghost handed: seq<Item>)
      requires Buffering()
      modifies this`buffer, this`trace, this`shutdown, this`heldPos, this`rpc
      ensures Buffering() && (old(shutdown) ==> shutdown) && old(heldPos) <= heldPos
      ensures trace == old(trace) + handed && handed <= Replayed(chain, start, last, batchSize)
      ensures r == Returned && !shutdown ==> handed == Replayed(chain, start, last, batchSize) && |rpc| == |old(rpc)|
      ensures |rpc| <= |old(rpc)| && (r == Raised ==> |rpc| < |old(rpc)| && !shutdown)
      ensures r == Raised && handed != [] ==> handed[|handed| - 1].Mark?
      ensures !shutdown ==>
        && handed == BeforeFailure(chain, start, last, batchSize, old(rpc))
        && (r == Returned <==> Enough(old(rpc), BatchCount(start, last, batchSize)))
    {
      var lo := start;
      r, handed := Returned, [];
      ghost var part := [];
      ghost var all := Replayed(chain, start, last, batchSize);
      ghost var owed := all;
      ghost var reaches := Enough(rpc, BatchCount(start, last, batchSize));
      ghost var due := BeforeFailure(chain, start, last, batchSize, rpc);
      while lo <= last && !shutdown && r == Returned
        invariant Buffering() && (old(shutdown) ==> shutdown) && old(heldPos) <= heldPos
        invariant |rpc| <= |old(rpc)| && (r == Raised ==> |rpc| < |old(rpc)| && !shutdown)
        invariant r == Returned && !shutdown ==> |rpc| == |old(rpc)|
        invariant trace == old(trace) + handed && all == handed + owed
        invariant !shutdown && handed != [] ==> handed[|handed| - 1].Mark?
        invariant r == Returned && !shutdown ==> owed == Replayed(chain, lo, last, batchSize)
        invariant r == Returned && !shutdown ==> Going(handed, due, reaches, lo, last)
        invariant r == Raised ==> handed == due && !reaches
        decreases last - lo, r == Returned
      {
        var hi := if lo + batchSize - 1 < last then lo + batchSize - 1 else last;
        ghost var before := handed;
        r, part, owed := NextBatch(lo, hi, last, handed, owed, due, reaches);
        handed := handed + part;
        Regroup(old(trace), before, part);
        lo := if r == Returned then hi + 1 else lo;
      }
    }

    /** One pass of the batch loop. */
    method NextBatch(lo: int, hi: int, last: int, ghost handed: seq<Item>, ghost owed: seq<Item>, ghost due: seq<Item>,
                     ghost reaches: bool) returns (r: Outcome, ghost part: seq<Item>, ghost rest: seq<Item>)
      requires Buffering() && !shutdown && lo <= last
      requires hi == if lo + batchSize - 1 < last then lo + batchSize - 1 else last
      requires owed == Replayed(chain, lo, last, batchSize) && Going(handed, due, reaches, lo, last)
      modifies this`buffer, this`trace, this`shutdown, this`heldPos, this`rpc
      ensures Buffering() && old(heldPos) <= heldPos
      ensures trace == old(trace) + part && handed + owed == (handed + part) + rest
      ensures !shutdown && part != [] ==> part[|part| - 1].Mark?
      ensures |rpc| <= |old(rpc)| && (r == Raised ==> |rpc| < |old(rpc)| && !shutdown)
      ensures r == Returned && !shutdown ==>
        && |rpc| == |old(rpc)| && rest == Replayed(chain, hi + 1, last, batchSize)
        && Going(handed + part, due, reaches, hi + 1, last)
      ensures r == Raised ==> handed + part == due && !reaches && part == []
    {
      ghost var batch, after := Logs(InRange(chain, lo, hi)) + [Mark(hi)], Replayed(chain, hi + 1, last, batchSize);
      assert owed == batch + after;
      ghost var spent := rpc;
      r, part := FetchBatch(lo, hi);
      if !shutdown { OneBatch(handed, due, reaches, lo, hi, last, spent, r, part); }
      rest := Owing(handed, part, batch, after);
    }

    /** In the batch loop, before the batch at `lo`: what is due in all, and whether all batches will be had. */
    ghost predicate Going(handed: seq<Item>, due: seq<Item>, reaches: bool, lo: int, last: int)
      reads this
    {
      && batchSize >= 1 && due == handed + BeforeFailure(chain, lo, last, batchSize, rpc)
      && reaches == Enough(rpc, BatchCount(lo, last, batchSize))
    }

    lemma OneBatch(handed: seq<Item>, due: seq<Item>, reaches: bool, lo: int, hi: int, last: int, spent: seq<nat>,
                   r: Outcome, part: seq<Item>)
      requires batchSize >= 1 && due == handed + BeforeFailure(chain, lo, last, batchSize, spent)
      requires reaches == Enough(spent, BatchCount(lo, last, batchSize)) && lo <= last
      requires hi == if lo + batchSize - 1 < last then lo + batchSize - 1 else last
      requires r == Raised ==> !Enough(spent, 1) && part == []
      requires r == Returned ==>
        Enough(spent, 1) && rpc == Spent(spent, 1) && part == Logs(InRange(chain, lo, hi)) + [Mark(hi)]
      ensures r == Raised ==> handed + part == due && !reaches
      ensures r == Returned ==> Going(handed + part, due, reaches, hi + 1, last)
    {
      if r == Raised {
        assert FirstBatches(chain, lo, last, batchSize, spent[0]) == [];
      } else {
        assert BeforeFailure(chain, lo, last, batchSize, spent)
          == part + BeforeFailure(chain, hi + 1, last, batchSize, rpc);
        Regroup(handed, part, BeforeFailure(chain, hi + 1, last, batchSize, rpc));
      }
    }

    /** Connecting, and asking for the head when no end block is given. */
    method FindEnd(end: Option<int>, head: int) returns (r: Outcome, last: int)
      requires Buffering()
      modifies this`buffer, this`trace, this`shutdown, this`heldPos, this`rpc
      ensures Buffering() && (old(shutdown) ==> shutdown) && old(heldPos) <= heldPos && trace == old(trace)
      ensures |rpc| <= |old(rpc)| && (r == Raised ==> |rpc| < |old(rpc)|)
      ensures r == Raised ==> !Enough(old(rpc), FindCalls(end))
      ensures r == Returned && !shutdown ==>
        && last == EndOf(end, head) && last == (if end.Some? && end.value != 0 then end.value else head)
        && Enough(old(rpc), FindCalls(end)) && rpc == Spent(old(rpc), FindCalls(end))
    {
      last := head;
      var ok := CallProvider();
      if shutdown {
        return Returned, last;
      }
      if !ok {
        return Raised, last;
      }
      if end.Some? && end.value != 0 {
        return Returned, end.value;
      }
      SpentTwice(old(rpc));
      ok := CallProvider();
      r := if ok then Returned else Raised;
    }

    /** `_replay_blocks`: batch by batch up to `end`, or up to the provider's head when `end` is
        missing or zero. */
    method ReplayRange(start: int, end: Option<int>, head: int) returns (r: Outcome, ghost handed: seq<Item>)
      requires Buffering()
      modifies this`buffer, this`trace, this`shutdown, this`heldPos, this`rpc
      ensures Buffering() && (old(shutdown) ==> shutdown) && old(heldPos) <= heldPos
      ensures trace == old(trace) + handed && handed <= Replayed(chain, start, EndOf(end, head), batchSize)
      ensures r == Returned && !shutdown ==>
        handed == Replayed(chain, start, EndOf(end, head), batchSize) && |rpc| == |old(rpc)|
      ensures |rpc| <= |old(rpc)| && (r == Raised ==> |rpc| < |old(rpc)|)
      ensures r == Raised && handed != [] ==> handed[|handed| - 1].Mark?
      ensures !shutdown ==>
        && handed == HandedBy(chain, start, EndOf(end, head), batchSize, FindCalls(end), old(rpc))
        && (r == Returned <==> Enough(old(rpc), CallsFor(start, end, head, batchSize)))
    {
      handed := [];
      var last;
      r, last := FindEnd(end, head);
      if r == Raised || shutdown {
        return;
      }
      r, handed := ReplayBatches(start, last);
    }

    /** `_flush_buffered_subscription_items`: rounds of sorting what is buffered and handing it over
        while more arrives, until the buffer is found empty. `full` is what the rounds begun hand over
        unless a shutdown cuts the last one short. */
    method FlushBuffered() returns (ghost out: seq<Item>, ghost full: seq<Item>)
      requires Buffering() && settled == []
      modifies this`buffer, this`trace, this`shutdown, this`heldPos, this`settled
      ensures Valid() && buffer == None && old(heldPos) <= heldPos && since <= heldPos
      ensures shutdown == Stopped(heldPlan, since, heldPos) && (old(shutdown) ==> shutdown)
      ensures trace == old(trace) + out && out <= full && Drained(full, settled)
      ensures settled <= Passed(threshold, heldPlan, since, heldPos)
      ensures !shutdown ==> out == full && settled == Passed(threshold, heldPlan, since, heldPos)
    {
      out, full := [], [];
      while buffer.value != [] && !shutdown
        invariant Buffering() && (old(shutdown) ==> shutdown) && old(heldPos) <= heldPos
        invariant trace == old(trace) + out && out <= full
        invariant Drained(full, settled) && (!shutdown ==> out == full)
        decreases !shutdown, |heldPlan| - heldPos, |buffer.value|
      {
        DrainRound(full, settled, buffer.value);
        ghost var round := Sort(ItemLeq, buffer.value);
        ghost var part := FlushRound();
        Regroup(old(trace), out, part);
        PrefixOfRound(out, part, round);
        out, full := out + part, full + round;
      }
      assert !shutdown ==> settled + buffer.value == settled;
      buffer := None;
    }

    /** One pass of the draining loop: the buffer is cleared and its sorted contents handed over. */
    method FlushRound() returns (ghost part: seq<Item>)
      requires Buffering() && buffer.value != [] && !shutdown
      modifies this`buffer, this`trace, this`shutdown, this`heldPos, this`settled
      ensures Buffering() && old(heldPos) <= heldPos && settled == old(settled) + old(buffer).value
      ensures trace == old(trace) + part && part <= Sort(ItemLeq, old(buffer).value)
      ensures !shutdown ==> part == Sort(ItemLeq, old(buffer).value)
      ensures !shutdown ==> heldPos > old(heldPos) || buffer.value == []
    {
      var items := Sort(ItemLeq, buffer.value);
      settled := settled + buffer.value;
      assert settled + [] == settled;
      buffer := Some([]);
      part := [];
      assert items[..0] == [];
      var i := 0;
      while i < |items|
        invariant i <= |items| && Buffering() && old(heldPos) <= heldPos
        invariant settled == old(settled) + old(buffer).value
        invariant trace == old(trace) + part
        invariant part <= items && (!shutdown ==> part == items[..i])
        invariant heldPos == old(heldPos) ==> buffer.value == []
      {
        if shutdown {
          return;
        }
        Regroup(old(trace), part, [items[i]]);
        part := part + [items[i]];
        assert items[..i + 1] == items[..i] + [items[i]];
        EmitBuffered(items[i]);
        i := i + 1;
      }
      assert items[..i] == items;
    }

    /** Handing over one item of a round. */
    method EmitBuffered(item: Item)
      requires Buffering() && !shutdown
      modifies this`buffer, this`trace, this`shutdown, this`heldPos
      ensures Buffering() && old(heldPos) <= heldPos && trace == old(trace) + [item]
      ensures heldPos == old(heldPos) ==> buffer == old(buffer)
    {
      trace := trace + [item];
      AwaitHeld();
      if heldPos == old(heldPos) {
        SameRest(settled, old(buffer).value, buffer.value);
      }
    }

    /** `replay_blocks`, one replay at a time. On success the whole range is handed over first, and
        then exactly what got past the threshold in the turns taken meanwhile, in rounds. After a
        failure a prefix of the range was handed over and nothing that was heard; a shutdown may also
        cut the rounds short, `settled` being the part of the items heard that the rounds begun cover. */
    method ReplayBlocks(start: int, end: Option<int>, suppressUntil: Option<int>, head: int)
      returns (r: Outcome, ghost handed: seq<Item>, ghost live: seq<Item>, ghost full: seq<Item>)
      requires Valid() && buffer == None && !shutdown && !caughtUp
      modifies this
      ensures Valid() && buffer == None && loosePos == old(loosePos)
      ensures threshold == RaisedThreshold(old(threshold), suppressUntil)
      ensures since == old(heldPos) <= heldPos && shutdown == Stopped(heldPlan, since, heldPos)
      ensures caughtUp == (r == Returned && !shutdown)
      ensures |rpc| <= |old(rpc)| && (r == Raised ==> |rpc| < |old(rpc)|) && (caughtUp ==> |rpc| == |old(rpc)|)
      ensures trace == old(trace) + handed + live
      ensures handed <= Replayed(chain, start, EndOf(end, head), batchSize)
      ensures live <= full && Drained(full, settled) && settled <= Passed(threshold, heldPlan, since, heldPos)
      ensures live != [] || full != [] ==> handed == Replayed(chain, start, EndOf(end, head), batchSize)
      ensures caughtUp ==>
        && handed == Replayed(chain, start, EndOf(end, head), batchSize)
        && live == full && settled == Passed(threshold, heldPlan, since, heldPos)
      ensures r == Raised ==> live == full == [] && (handed != [] ==> handed[|handed| - 1].Mark?)
      ensures !shutdown ==>
        && handed == HandedBy(chain, start, EndOf(end, head), batchSize, FindCalls(end), old(rpc))
        && (caughtUp <==> Enough(old(rpc), CallsFor(start, end, head, batchSize)))
    {
      threshold := RaisedThreshold(threshold, suppressUntil);
      since, settled := heldPos, [];
      buffer := Some([]);
      live, full := [], [];
      r, handed := ReplayRange(start, end, head);
      if r == Returned && !shutdown {
        live, full := FlushBuffered();
        caughtUp := !shutdown;
      } else {
        buffer := None;
      }
    }
  }

  function EndOf(end: Option<int>, head: int): int {
    if end.Some? && end.value != 0 then end.value else head
  }

  /** The calls before the first batch. */
  function FindCalls(end: Option<int>): nat {
    if end.Some? && end.value != 0 then 1 else 2
  }

  /** The calls of a whole replay. */
  function CallsFor(start: int, end: Option<int>, head: int, batch: int): nat
    requires batch >= 1
  {
    FindCalls(end) + BatchCount(start, EndOf(end, head), batch)
  }

  /** What a replay hands over before a provider call fails, if one does; `first` calls come before its
      first batch. */
  function HandedBy(chain: seq<Event>, start: int, end: int, batch: int, first: nat, rpc: seq<nat>): seq<Item>
    requires batch >= 1
  {
    if rpc == [] then Replayed(chain, start, end, batch)
    else FirstBatches(chain, start, end, batch, rpc[0] - first)
  }

  function RaisedThreshold(threshold: Option<int>, suppressUntil: Option<int>): Option<int> {
    if suppressUntil.None? then threshold else
    var now := if threshold.None? then 0 else threshold.value;
    Some(if now > suppressUntil.value then now else suppressUntil.value)
  }

  lemma {:induction false} OneTurn(threshold: Option<int>, plan: seq<Turn>, at: nat)
    requires at < |plan|
    ensures Passed(threshold, plan, at, at + 1) == PassedIn(threshold, plan[at], |plan[at]|)
    ensures Stopped(plan, at, at + 1) == StopsIn(plan[at], |plan[at]|)
  {
  }

  lemma {:induction false} Owing(handed: seq<Item>, part: seq<Item>, batch: seq<Item>, rest: seq<Item>)
    returns (owed: seq<Item>)
    requires part <= batch
    ensures handed + (batch + rest) == (handed + part) + owed
    ensures part == batch ==> owed == rest
  {
    owed := batch[|part|..] + rest;
    assert batch == part + batch[|part|..];
  }

  lemma {:induction false} SpentTwice(rpc: seq<nat>)
    requires Enough(rpc, 1)
    ensures Enough(Spent(rpc, 1), 1) <==> Enough(rpc, 2)
    ensures Enough(rpc, 2) ==> Spent(Spent(rpc, 1), 1) == Spent(rpc, 2)
  {
  }

  lemma {:induction false} SameRest<T>(a: seq<T>, b: seq<T>, c: seq<T>)
    requires a + b == a + c
    ensures b == c
  {
    assert b == (a + b)[|a|..] && c == (a + c)[|a|..];
  }

  lemma {:induction false} PrefixOfRound(out: seq<Item>, part: seq<Item>, round: seq<Item>)
    requires part <= round
    ensures out + part <= out + round
  {
  }

  lemma {:induction false} DrainRound(out: seq<Item>, items: seq<Item>, more: seq<Item>)
    requires Drained(out, items) && more != []
    ensures Drained(out + Sort(ItemLeq, more), items + more)
  {
    var o, i, k := out + Sort(ItemLeq, more), items + more, |items|;
    assert o[..k] == out && i[..k] == items && o[k..] == Sort(ItemLeq, more) && i[k..] == more;
    assert Round(o, i, k);
  }
}
