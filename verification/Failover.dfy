/** Connecting with fallback and executing a request with failover (sentinel/rpc_provider.py).
    `opens`, `pings` and `outcomes` say how the coming connection attempts, liveness checks and
    operation calls end; `meddling` says what the other provider roles do to the shared pool, and
    how much time passes, at each await. A used-up list means success, or nothing more. */
module Failover {
  import opened Windows
  import opened Pool

  datatype Meddle = Meddle(elapsed: real, op: Option<PoolOp>)

  datatype TurnEnd = Exhausted | Slept | Opened | PassFailed

  datatype Connected = Ready | AllUnavailable | NoneUntried

  /** How one call of the operation ends; semantic answers such as "no such block" are results. */
  datatype OpOutcome = Answered | Transport | Rejected

  datatype Executed =
    | Result
    | Unavailable                            // raised by connecting
    | LostByAll                              // every endpoint lost, the last one in transport
    | RejectedByAll(rejecters: seq<nat>)     // every endpoint lost, the last one by an RPC error

  /** One operation call: on which endpoint, over which connection, how it ended, how many opening
      attempts had been made by then, and when that was. */
  datatype Call = Call(endpoint: nat, generation: nat, outcome: OpOutcome, tried: nat, ended: real)

  class FallbackRequestProvider {
    const pool: RpcEndpointPool
    const maxRounds: int
    const retryInterval: real
    var activeEndpoint: Option<nat>
    var generation: nat
    var clock: real
    var opens: seq<bool>
    var pings: seq<bool>
    var outcomes: seq<OpOutcome>
    var meddling: seq<Meddle>
    /** Endpoints opened so far, successfully or not, in order. */
    var attempted: seq<nat>
    /** Operation calls of the latest request, in order. */
    ghost var calls: seq<Call>

    ghost predicate Valid()
      reads this, pool
    {
      && pool.Valid() && Bounded(pool.state, clock, pool.cooldownSeconds)
      && (activeEndpoint.Some? ==> activeEndpoint.value < pool.size)
      && (maxRounds == -1 || maxRounds >= 1) && retryInterval >= 0.0
      && forall k :: 0 <= k < |meddling| ==>
           meddling[k].elapsed >= 0.0 && (meddling[k].op.Some? ==> meddling[k].op.value.i < pool.size)
    }

    /** Time does not go back, cooldowns are not shortened and the environment's turns get used up. */
    twostate predicate Onward()
      reads this, pool
    {
      && old(clock) <= clock && NoEarlier(old(pool.state), pool.state)
      && |meddling| <= |old(meddling)| && (old(meddling) == [] ==> meddling == [])
    }

    constructor (pool: RpcEndpointPool, maxRounds: int, retryInterval: real, clock: real,
                 opens: seq<bool>, pings: seq<bool>, outcomes: seq<OpOutcome>, meddling: seq<Meddle>)
      requires pool.Valid() && Bounded(pool.state, clock, pool.cooldownSeconds)
      requires (maxRounds == -1 || maxRounds >= 1) && retryInterval >= 0.0
      requires forall k :: 0 <= k < |meddling| ==>
        meddling[k].elapsed >= 0.0 && (meddling[k].op.Some? ==> meddling[k].op.value.i < pool.size)
      ensures Valid() && this.pool == pool && activeEndpoint == None && generation == 0 && attempted == []
      ensures calls == []
    {
      this.pool, this.maxRounds, this.retryInterval, this.clock := pool, maxRounds, retryInterval, clock;
      this.opens, this.pings, this.outcomes, this.meddling := opens, pings, outcomes, meddling;
      this.activeEndpoint, this.generation, this.attempted, this.calls := None, 0, [], [];
    }

    /** A step of this role on the pool. */
    method Mark(op: PoolOp)
      requires Valid() && op.i < pool.size
      modifies pool
      ensures Valid() && Onward() && pool.state == Apply(old(pool.state), op, clock, pool.cooldownSeconds)
    {
      ApplyKeeps(pool.state, pool.size, Timed(op, clock), clock, pool.cooldownSeconds);
      pool.Take(op, clock);
    }

    /** Any await: time passes and another role may take a step on the pool. */
    method Await()
      requires Valid()
      modifies this`clock, this`meddling, pool
      ensures Valid() && Onward()
      ensures old(meddling) == [] ==> pool.state == old(pool.state) && clock == old(clock)
      ensures old(meddling) != [] ==> |meddling| < |old(meddling)|
    {
      if meddling == [] {
        return;
      }
      var m := meddling[0];
      meddling := meddling[1..];
      clock := clock + m.elapsed;
      if m.op.Some? {
        Mark(m.op.value);
      }
    }

    method OpenEndpoint(i: nat) returns (ok: bool)
      requires Valid() && i < pool.size
      modifies this`clock, this`meddling, this`opens, this`attempted, pool
      ensures Valid() && Onward() && attempted == old(attempted) + [i]
      ensures Tried(old(opens), opens, 1, ok)
    {
      Await();
      attempted := attempted + [i];
      ok := true;
      if opens != [] {
        ok := opens[0];
        opens := opens[1..];
      }
    }

    method IsConnected() returns (ok: bool)
      requires Valid()
      modifies this`clock, this`meddling, this`pings, pool
      ensures Valid() && Onward()
      ensures ok <==> old(pings) == [] || old(pings)[0]
    {
      Await();
      ok := true;
      if pings != [] {
        ok := pings[0];
        pings := pings[1..];
      }
    }

    /** The body of the candidate loop. */
    method TryOne(i: nat) returns (up: bool)
      requires Valid() && i < pool.size && activeEndpoint.None?
      modifies this`clock, this`meddling, this`opens, this`attempted, this`activeEndpoint, this`generation, pool
      ensures Valid() && Onward() && attempted == old(attempted) + [i]
      ensures Tried(old(opens), opens, 1, up)
      ensures activeEndpoint == (if up then Some(i) else None)
      ensures generation == old(generation) + (if up then 1 else 0)
      ensures up ==> pool.state.preferred == i || pool.state.cooldownUntil[i] > clock
      ensures !up ==> pool.state.cooldownUntil[i] >= old(clock) + pool.cooldownSeconds
    {
      up := OpenEndpoint(i);
      if up {
        activeEndpoint := Some(i);
        generation := generation + 1;
        Mark(MarkSuccess(i));
      } else {
        Mark(MarkFailed(i));
      }
    }

    /** One pass over the candidates: each is opened in turn and cools when that fails; the first
        success becomes the active endpoint of a new generation, and the preferred one unless another
        role recorded a failure of it meanwhile. */
    method TryCandidates(candidates: seq<nat>, ghost excluded: set<nat>) returns (ok: bool)
      requires Valid() && candidates != [] && activeEndpoint.None?
      requires forall k :: 0 <= k < |candidates| ==> candidates[k] < pool.size && candidates[k] !in excluded
      modifies this`clock, this`meddling, this`opens, this`attempted, this`activeEndpoint, this`generation, pool
      ensures Valid() && Onward()
      ensures old(attempted) <= attempted && Tried(old(opens), opens, |attempted| - |old(attempted)|, ok)
      ensures var m := |attempted| - |old(attempted)|;
              && 0 < m <= |candidates| && attempted == old(attempted) + candidates[..m]
              && activeEndpoint == (if ok then Some(candidates[m - 1]) else None) && (!ok ==> m == |candidates|)
              && forall k :: 0 <= k < (if ok then m - 1 else m) ==>
                   pool.state.cooldownUntil[candidates[k]] >= old(clock) + pool.cooldownSeconds
      ensures generation == old(generation) + (if ok then 1 else 0)
      ensures ok ==>
        pool.state.preferred == activeEndpoint.value || pool.state.cooldownUntil[activeEndpoint.value] > clock
      ensures ok ==> |attempted| > |old(attempted)| && attempted[|attempted| - 1] == activeEndpoint.value
    {
      for k := 0 to |candidates|
        invariant Valid() && Onward() && attempted == old(attempted) + candidates[..k]
        invariant Tried(old(opens), opens, k, false)
        invariant activeEndpoint.None? && generation == old(generation)
        invariant forall j :: 0 <= j < k ==>
          pool.state.cooldownUntil[candidates[j]] >= old(clock) + pool.cooldownSeconds
      {
        assert candidates[..k + 1] == candidates[..k] + [candidates[k]];
        Regroup(old(attempted), candidates[..k], [candidates[k]]);
        ghost var now := opens;
        var up := TryOne(candidates[k]);
        TriedMore(old(opens), now, opens, k, 1, up);
        if up {
          return true;
        }
      }
      assert candidates[..|candidates|] == candidates;
      ok := false;
    }

    /** `_connect_with_fallback`. The active endpoint is kept when it is not excluded and still alive;
        otherwise a new one is opened, of the next generation. Nothing excluded is opened, a bounded
        call opens at most rounds times the number of endpoints, and it gives up only after that many
        failing rounds or, without opening anything, when every endpoint is excluded. */
    method Connect(excluded: set<nat>, rounds: Option<int>) returns (r: Connected)
      requires Valid() && (rounds.Some? ==> rounds.value == -1 || rounds.value >= 1)
      modifies this`clock, this`meddling, this`opens, this`pings, this`attempted, this`activeEndpoint
      modifies this`generation, pool
      ensures Valid() && Onward()
      ensures old(attempted) <= attempted
      ensures forall k :: |old(attempted)| <= k < |attempted| ==> attempted[k] !in excluded
      ensures Tried(old(opens), opens, |attempted| - |old(attempted)|, r == Ready && !old(StillUp(excluded)))
      ensures old(StillUp(excluded)) ==>
        && r == Ready && activeEndpoint == old(activeEndpoint) && generation == old(generation)
        && attempted == old(attempted)
      ensures !old(StillUp(excluded)) ==> (r == NoneUntried <==> forall i :: 0 <= i < pool.size ==> i in excluded)
      ensures !old(StillUp(excluded)) && r == Ready ==>
        activeEndpoint.Some? && activeEndpoint.value !in excluded && generation == old(generation) + 1
        && |attempted| > |old(attempted)| && attempted[|attempted| - 1] == activeEndpoint.value
      ensures r != Ready ==> activeEndpoint.None? && generation == old(generation)
      ensures r == NoneUntried ==> attempted == old(attempted)
      ensures r == AllUnavailable ==> NoneFree(Now(), |old(attempted)|, old(clock), excluded)
      ensures var bound := if rounds.Some? then rounds.value else maxRounds;
              && (r == AllUnavailable ==> bound != -1 && |attempted| - |old(attempted)| >= bound)
              && (bound != -1 ==> |attempted| - |old(attempted)| <= bound * pool.size)
    {
      var kept := Keep(excluded);
      if kept {
        MulPositive(if rounds.Some? then rounds.value else maxRounds, pool.size);
        return Ready;
      }
      ghost var a, since := |attempted|, clock;
      r := ConnectRounds(excluded, if rounds.Some? then rounds.value else maxRounds);
      if r == AllUnavailable { StillNoneFree(Now(), a, since, excluded, a, old(clock)); }
    }

    /** The active endpoint is kept when it may be used and is still alive, and dropped otherwise. */
    method Keep(excluded: set<nat>) returns (kept: bool)
      requires Valid()
      modifies this`clock, this`meddling, this`pings, this`activeEndpoint, pool
      ensures Valid() && Onward() && (kept <==> old(StillUp(excluded)))
      ensures activeEndpoint == if kept then old(activeEndpoint) else None
    {
      if activeEndpoint.None? {
        return false;
      }
      kept := false;
      if activeEndpoint.value !in excluded {
        kept := IsConnected();
      }
      if !kept {
        activeEndpoint := None;
        Await();
      }
    }

    /** The active endpoint may be kept and its liveness check will say yes. */
    ghost predicate StillUp(excluded: set<nat>)
      reads this
    {
      activeEndpoint.Some? && activeEndpoint.value !in excluded && (pings == [] || pings[0])
    }

    /** The rounds of `_connect_with_fallback`; a wait for a cooldown does not count as a round. */
    method ConnectRounds(excluded: set<nat>, bound: int) returns (r: Connected)
      requires Valid() && activeEndpoint.None? && (bound == -1 || bound >= 1)
      modifies this`clock, this`meddling, this`opens, this`attempted, this`activeEndpoint, this`generation, pool
      ensures Valid() && Onward() && Rounds(old(Now()), Now(), r, excluded, bound, pool.size)
      ensures if r == Ready
              then activeEndpoint.Some? && activeEndpoint.value !in excluded
                   && attempted[|attempted| - 1] == activeEndpoint.value
              else activeEndpoint.None?
    {
      var completed := 0;
      MulPositive(bound, pool.size);
      ghost var certain, o := false, Now();
      while bound == -1 || completed < bound
        invariant Valid() && Onward() && activeEndpoint.None? && (bound != -1 ==> completed < bound)
        invariant Trying(o, Now(), excluded, completed, pool.size)
        invariant certain ==> SomeAvailable(pool.state, excluded, clock)
        decreases |opens|, |meddling|, !certain
      {
        var turn;
        ghost var p := Now();
        turn, certain := Turn(excluded);
        RoundsEnd(o, p, Now(), turn, excluded, completed, bound, pool.size);
        if turn == Exhausted {
          return NoneUntried;
        } else if turn == Opened {
          return Ready;
        } else if turn == Slept {
          SleptOn(o, p, Now(), excluded, completed, pool.size);
        } else {
          FailedOnce(o, p, Now(), excluded, completed, pool.size);
          completed := completed + 1;
          if bound != -1 && completed >= bound {
            break;
          }
          certain := false;
          Pause(o, excluded, completed);
        }
      }
      r := AllUnavailable;
    }

    ghost function Now(): Sight
      reads this, pool
    {
      Sight(attempted, opens, clock, pool.state, generation)
    }

    /** The sleep between two rounds. */
    method Pause(ghost o: Sight, excluded: set<nat>, ghost completed: nat)
      requires Valid() && Trying(o, Now(), excluded, completed, pool.size) && completed > 0
      modifies this`clock, this`meddling, pool
      ensures Valid() && Onward() && Trying(o, Now(), excluded, completed, pool.size)
    {
      ghost var p := Now();
      clock := clock + retryInterval;
      Await();
      NoneFreeLater(p, Now(), |o.attempted|, o.clock, excluded);
    }

    /** One look at the candidates: nothing left to try, a sleep until something comes off cooldown, or
        a pass over what is available, starting with the first choice. */
    method Turn(excluded: set<nat>) returns (turn: TurnEnd, ghost certain: bool)
      requires Valid() && activeEndpoint.None?
      modifies this`clock, this`meddling, this`opens, this`attempted, this`activeEndpoint, this`generation, pool
      ensures Valid() && Onward() && Looked(old(Now()), Now(), turn, excluded, pool.size)
      ensures forall k :: |old(attempted)| <= k < |attempted| ==>
        attempted[k] < pool.size && old(pool.state).cooldownUntil[attempted[k]] <= old(clock)
      ensures turn == Slept <==> turn != Exhausted && !SomeAvailable(old(pool.state), excluded, old(clock))
      ensures turn == Slept ==>
        (|meddling| < |old(meddling)| || certain) && (certain ==> SomeAvailable(pool.state, excluded, clock))
      ensures if turn == Opened
              then activeEndpoint.Some? && activeEndpoint.value !in excluded
                   && attempted[|attempted| - 1] == activeEndpoint.value
              else activeEndpoint.None?
    {
      certain := false;
      var candidates, wait := pool.Candidates(excluded, clock);
      if candidates == [] && wait.None? {
        turn := Exhausted;
        assert !SomeAvailable(pool.state, excluded, clock);
      } else if candidates == [] {
        Nothing(pool.state, excluded, clock, candidates);
        certain := SleepUntil(excluded, wait.value);
        turn := Slept;
      } else {
        var up := Pass(candidates, excluded);
        turn := if up then Opened else PassFailed;
      }
    }

    /** A pass over everything available. */
    method Pass(candidates: seq<nat>, excluded: set<nat>) returns (up: bool)
      requires Valid() && activeEndpoint.None? && candidates != [] && |candidates| <= pool.size
      requires IsCandidateList(pool.state, excluded, clock, candidates)
      requires forall i: nat ::
        i in candidates <==> i < pool.size && i !in excluded && pool.state.cooldownUntil[i] <= clock
      modifies this`clock, this`meddling, this`opens, this`attempted, this`activeEndpoint, this`generation, pool
      ensures Valid() && Onward() && old(attempted) <= attempted
      ensures |old(attempted)| < |attempted| <= |old(attempted)| + pool.size
      ensures forall k :: |old(attempted)| <= k < |attempted| ==>
        && attempted[k] < pool.size && attempted[k] !in excluded
        && old(pool.state).cooldownUntil[attempted[k]] <= old(clock)
      ensures FirstChoice(old(pool.state), excluded, old(clock), attempted[|old(attempted)|])
      ensures Tried(old(opens), opens, |attempted| - |old(attempted)|, up)
      ensures !up ==> NoneFree(Now(), |old(attempted)|, old(clock), excluded)
      ensures if up
              then activeEndpoint.Some? && activeEndpoint.value !in excluded && generation == old(generation) + 1
                   && attempted[|attempted| - 1] == activeEndpoint.value
              else activeEndpoint.None? && generation == old(generation)
    {
      CandidatesFit(pool.state, pool.size, excluded, clock, candidates);
      assert forall k :: 0 <= k < |candidates| ==> candidates[k] in candidates;
      up := TryCandidates(candidates, excluded);
      if !up {
        assert candidates[..|candidates|] == candidates;
        forall i: nat | i < pool.size ensures Out(Now(), |old(attempted)|, old(clock), excluded, i) {
          if i in candidates {
            var k :| 0 <= k < |candidates| && candidates[k] == i;
            assert attempted[|old(attempted)| + k] == i;
          }
        }
      }
    }

    /** Sleeps at least until something comes off cooldown; with no step by another role in between,
        something is then available. */
    method SleepUntil(excluded: set<nat>, wait: real) returns (ghost certain: bool)
      requires Valid() && wait > 0.0 && SomeAvailable(pool.state, excluded, clock + wait)
      modifies this`clock, this`meddling, pool
      ensures Valid() && Onward() && clock >= old(clock) + wait
      ensures certain ==> SomeAvailable(pool.state, excluded, clock)
      ensures |meddling| < |old(meddling)| || (meddling == [] && certain)
    {
      certain := meddling == [];
      ghost var i: nat :| Available(pool.state, i, excluded, clock + wait);
      clock := clock + if wait > retryInterval then wait else retryInterval;
      Await();
      if certain { assert Available(pool.state, i, excluded, clock); }
    }

    /** `_invalidate_endpoint`: only the endpoint and generation the failed call used may be dropped,
        and with a cooldown it then cools. */
    method InvalidateEndpoint(endpoint: nat, usedGeneration: nat, cooldown: bool)
      requires Valid() && endpoint < pool.size
      modifies this`clock, this`meddling, this`activeEndpoint, pool
      ensures Valid() && Onward()
      ensures var hit := old(activeEndpoint) == Some(endpoint) && generation == usedGeneration;
              && activeEndpoint == (if hit then None else old(activeEndpoint))
              && (!hit ==> pool.state == old(pool.state) && clock == old(clock))
              && (hit && cooldown ==> pool.state.cooldownUntil[endpoint] >= old(clock) + pool.cooldownSeconds)
              && (hit && !cooldown && old(meddling) == [] ==> pool.state == old(pool.state))
    {
      if activeEndpoint == Some(endpoint) && generation == usedGeneration {
        if cooldown {
          Mark(MarkFailed(endpoint));
        }
        activeEndpoint := None;
        Await();
      }
    }

    /** `_invoke_rpc_operation` on the active endpoint. */
    method Invoke(endpoint: nat) returns (o: OpOutcome)
      requires Valid()
      modifies this`clock, this`meddling, this`outcomes, this`calls, pool
      ensures Valid() && Onward()
      ensures o == OutcomeAt(old(outcomes), 0) && Rest(old(outcomes), outcomes, 1)
      ensures calls == old(calls) + [Call(endpoint, generation, o, |attempted|, clock)]
    {
      Await();
      o := Answered;
      if outcomes != [] {
        o := outcomes[0];
        outcomes := outcomes[1..];
      }
      calls := calls + [Call(endpoint, generation, o, |attempted|, clock)];
    }

    /** The failure branches of `execute_request`: the two growing sets, then the invalidation. A
        second transport failure also cools the endpoint. */
    method AfterFailure(c: Call, rejected: set<nat>, retried: set<nat>)
      returns (rejected': set<nat>, retried': set<nat>)
      requires Valid() && c.endpoint < pool.size && c.outcome != Answered
      requires activeEndpoint == Some(c.endpoint) && generation == c.generation
      modifies this`clock, this`meddling, this`activeEndpoint, pool
      ensures Valid() && Onward() && activeEndpoint.None?
      ensures rejected' == Rejected'(rejected, retried, c) && retried' == Retried'(retried, c)
      ensures c.outcome == Transport && c.endpoint in retried ==>
        pool.state.cooldownUntil[c.endpoint] >= old(clock) + pool.cooldownSeconds
      ensures !(c.outcome == Transport && c.endpoint in retried) && old(meddling) == [] ==>
        pool.state == old(pool.state)
    {
      rejected', retried' := rejected, retried;
      if c.outcome == Transport {
        var already := c.endpoint in retried;
        retried' := retried + {c.endpoint};
        if already {
          rejected' := rejected + {c.endpoint};
        }
        InvalidateEndpoint(c.endpoint, c.generation, already);
      } else {
        rejected' := rejected + {c.endpoint};
        InvalidateEndpoint(c.endpoint, c.generation, false);
      }
    }

    /** The first half of the loop: connect to an endpoint not rejected, a single round once one was,
        and call the operation over that connection. */
    method ConnectAndCall(rejected: set<nat>) returns (connected: bool, c: Call)
      requires Valid() && |rejected| < pool.size && forall i :: i in rejected ==> i < pool.size
      modifies this, pool
      ensures Valid() && Onward() && old(attempted) <= attempted
      ensures forall k :: |old(attempted)| <= k < |attempted| ==> attempted[k] !in rejected
      ensures Tried(old(opens), opens, |attempted| - |old(attempted)|, connected && |attempted| > |old(attempted)|)
      ensures !connected ==> calls == old(calls) && outcomes == old(outcomes) && (maxRounds == -1 ==> rejected != {})
      ensures !connected ==> Stranded(|old(attempted)|, old(clock), rejected)
      ensures connected ==>
        && CallMade(c, old(outcomes), outcomes, old(generation), old(activeEndpoint), old(attempted), attempted)
        && c.ended == clock
      ensures rejected != {} ==> |attempted| - |old(attempted)| <= pool.size
      ensures connected ==>
        && calls == old(calls) + [c] && c.endpoint < pool.size && c.endpoint !in rejected
        && activeEndpoint == Some(c.endpoint) && generation == c.generation
        && old(generation) <= generation && (old(activeEndpoint).None? ==> old(generation) < generation)
    {
      NotEveryone(rejected, pool.size);
      var r := Connect(rejected, if rejected == {} then None else Some(1));
      c := Call(0, 0, Answered, 0, clock);
      connected := r == Ready;
      if connected {
        var endpoint := activeEndpoint.value;
        var outcome := Invoke(endpoint);
        c := Call(endpoint, generation, outcome, |attempted|, clock);
      }
    }

    /** Connecting gave up: as many rounds as it is allowed (a single one once an endpoint was given up)
        opened what there was since, all in vain, and every endpoint left was among that or cools. */
    ghost predicate Stranded(from: nat, since: real, rejected: set<nat>)
      reads this, pool
    {
      && NoneFree(Now(), from, since, rejected) && |attempted| > from
      && (rejected == {} ==> maxRounds != -1 && |attempted| - from >= maxRounds)
      && (rejected != {} ==> |attempted| - from <= pool.size)
    }

    /** The first half again, told from where the request began. */
    method CallNext(ghost before: Origin, rejected: set<nat>) returns (connected: bool, c: Call)
      requires Valid() && |rejected| < pool.size && forall i :: i in rejected ==> i < pool.size
      requires MadeFrom(before) && Linked(before)
      modifies this, pool
      ensures Valid() && MadeFrom(before) && old(clock) <= clock && |old(attempted)| <= |attempted|
      ensures !connected ==>
        && calls == old(calls) && (maxRounds == -1 ==> rejected != {})
        && Tried(old(opens), opens, |attempted| - |old(attempted)|, false)
        && Stranded(|old(attempted)|, old(clock), rejected)
      ensures connected ==>
        && calls == old(calls) + [c] && c.endpoint < pool.size && c.endpoint !in rejected
        && activeEndpoint == Some(c.endpoint) && generation == c.generation
        && c.tried == |attempted| && c.ended <= clock
        && before.generation <= generation
      ensures connected && old(calls) != [] ==> old(calls)[|old(calls)| - 1].generation < c.generation
    {
      ghost var made, now := calls, Origin(generation, activeEndpoint, attempted, outcomes, opens, clock);
      connected, c := ConnectAndCall(rejected);
      Noted(before, made, now, connected, c, calls, outcomes, attempted);
      OneMoreOpened(before.opens, |before.attempted|, made, now.opens, |now.attempted|, calls, opens, |attempted|);
    }

    /** The loop body of `execute_request`; no verdict: go on. The operation was called unless connecting
        failed. */
    method Attempt(ghost before: Origin, rejected: set<nat>, retried: set<nat>, failures: seq<nat>)
      returns (verdict: Option<Executed>, rejected': set<nat>, retried': set<nat>, failures': seq<nat>)
      requires GoesOn(before, rejected, retried, failures)
      modifies this, pool
      ensures verdict.Some? || GoesOn(before, rejected', retried', failures')
      ensures verdict.None? || Ended(before, verdict.value)
      ensures verdict.None? ==> |rejected'| + |retried'| > |rejected| + |retried|
      ensures if verdict == Some(Unavailable) then calls == old(calls)
              else |calls| == |old(calls)| + 1 && old(calls) <= calls
    {
      ghost var a, opensNow, clockNow, made := |attempted|, opens, clock, calls;
      WhereItStands(before, rejected, retried, failures);
      var connected, c := CallNext(before, rejected);
      if connected {
        verdict, rejected', retried', failures' := Settle(before, c, made, rejected, retried, failures);
      } else {
        verdict, rejected', retried', failures' := Some(Unavailable), rejected, retried, failures;
        UnableToConnect(made, rejected, retried, failures, pool.size, maxRounds);
        InVain(before, a, opensNow, clockNow, rejected);
      }
    }

    /** The second half of the loop body, once the call has ended. */
    method Settle(ghost before: Origin, c: Call, ghost made: seq<Call>, rejected: set<nat>, retried: set<nat>,
                  failures: seq<nat>)
      returns (verdict: Option<Executed>, rejected': set<nat>, retried': set<nat>, failures': seq<nat>)
      requires Valid() && activeEndpoint == Some(c.endpoint) && generation == c.generation && calls == made + [c]
      requires Tracked(made, rejected, retried, failures, pool.size) && |rejected| < pool.size
      requires c.endpoint !in rejected && c.tried == |attempted| && c.ended <= clock
      requires made != [] ==> made[|made| - 1].generation < c.generation
      requires MadeFrom(before) && before.generation <= generation
      modifies this`clock, this`meddling, this`activeEndpoint, pool
      ensures verdict != Some(Unavailable)
      ensures verdict.Some? || GoesOn(before, rejected', retried', failures')
      ensures verdict.None? || Ended(before, verdict.value)
      ensures verdict.None? ==> |rejected'| + |retried'| > |rejected| + |retried|
    {
      Verdict(made, rejected, retried, failures, pool.size, c, maxRounds);
      rejected', retried', failures', verdict := rejected, retried, failures, None;
      if c.outcome == Answered {
        return Some(Result), rejected', retried', failures';
      }
      if c.outcome == Rejected {
        failures' := failures + [c.endpoint];
      }
      rejected', retried' := AfterFailure(c, rejected, retried);
      if |rejected'| == pool.size {
        verdict := Some(if c.outcome == Transport then LostByAll else RejectedByAll(failures'));
      }
    }

    /** `execute_request`. `calls` are its operation calls, in order: call k ends as outcome k says, and
        each goes over the connection there was or over one opened meanwhile, newer than those that
        failed before. */
    method ExecuteRequest() returns (r: Executed)
      requires Valid()
      modifies this, pool
      ensures Valid() && Explained(r, calls, pool.size, maxRounds) && old(attempted) <= attempted
      ensures Rest(old(outcomes), outcomes, |calls|)
      ensures forall k :: 0 <= k < |calls| ==>
        && calls[k].outcome == OutcomeAt(old(outcomes), k)
        && Over(calls[k], old(generation), old(activeEndpoint), old(attempted), attempted)
      ensures Rest(old(opens), opens, |attempted| - |old(attempted)|)
      ensures OpenedForCalls(calls, old(opens), |old(attempted)|, |attempted|)
      ensures r == Unavailable ==>
        var from := if calls == [] then |old(attempted)| else calls[|calls| - 1].tried;
        && Stranded(from, if calls == [] then old(clock) else calls[|calls| - 1].ended, Lost(calls))
        && NoneOpens(old(opens), from - |old(attempted)|, |attempted| - |old(attempted)|)
      ensures r == Unavailable ==> old(opens) != []
    {
      calls := [];
      var rejected: set<nat>, retried: set<nat>, failures: seq<nat> := {}, {}, [];
      var verdict: Option<Executed> := None;
      ghost var before := Origin(generation, activeEndpoint, attempted, outcomes, opens, clock);
      while verdict.None?
        invariant verdict.Some? || GoesOn(before, rejected, retried, failures)
        invariant verdict.None? || Ended(before, verdict.value)
        decreases verdict.None?, 2 * pool.size - |retried| - |rejected|
      {
        verdict, rejected, retried, failures := Attempt(before, rejected, retried, failures);
      }
      r := verdict.value;
    }

    /** What a request without a verdict knows of its last call. */
    lemma WhereItStands(before: Origin, rejected: set<nat>, retried: set<nat>, failures: seq<nat>)
      requires GoesOn(before, rejected, retried, failures)
      ensures rejected == Lost(calls) && |before.attempted| <= |attempted|
      ensures Rest(before.opens, opens, |attempted| - |before.attempted|)
      ensures if calls == [] then attempted == before.attempted && clock == before.clock
              else calls[|calls| - 1].tried == |attempted| && calls[|calls| - 1].ended <= clock
    {
    }

    /** How a request may end. */
    ghost predicate Ended(before: Origin, r: Executed)
      reads this, pool
    {
      && Valid() && Explained(r, calls, pool.size, maxRounds) && MadeFrom(before)
      && (r == Unavailable ==> GaveUp(before) && before.opens != [])
    }

    /** Since the last call, or since the beginning if there was none, connecting got nowhere. */
    ghost predicate GaveUp(before: Origin)
      reads this, pool
    {
      var from := if calls == [] then |before.attempted| else calls[|calls| - 1].tried;
      && Stranded(from, if calls == [] then before.clock else calls[|calls| - 1].ended, Lost(calls))
      && NoneOpens(before.opens, from - |before.attempted|, |attempted| - |before.attempted|)
    }

    /** A request that has no verdict yet. */
    ghost predicate GoesOn(before: Origin, rejected: set<nat>, retried: set<nat>, failures: seq<nat>)
      reads this, pool
    {
      && Valid() && MadeFrom(before)
      && Tracked(calls, rejected, retried, failures, pool.size) && |rejected| < pool.size
      && Linked(before)
    }

    /** Nothing happened yet, or the last call failed and its connection was dropped. */
    ghost predicate Linked(before: Origin)
      reads this
    {
      if calls == [] then Untouched(before) else
      var last := calls[|calls| - 1];
      && activeEndpoint.None? && before.generation <= generation && last.generation <= generation
      && last.tried == |attempted| && last.ended <= clock
    }

    /** No connection was lost or opened yet. */
    ghost predicate Untouched(before: Origin)
      reads this
    {
      && generation == before.generation && activeEndpoint == before.activeEndpoint && attempted == before.attempted
      && clock == before.clock
    }

    /** The calls so far end as the list of outcomes says, over the connections there were and those opened. */
    ghost predicate MadeFrom(before: Origin)
      reads this
    {
      && Made(calls, outcomes, before, attempted) && Rest(before.opens, opens, |attempted| - |before.attempted|)
      && OpenedForCalls(calls, before.opens, |before.attempted|, |attempted|)
    }

    lemma InVain(before: Origin, a: nat, opensNow: seq<bool>, clockNow: real, rejected: set<nat>)
      requires |before.attempted| <= a <= |attempted| && Rest(before.opens, opensNow, a - |before.attempted|)
      requires Tried(opensNow, opens, |attempted| - a, false)
      requires Stranded(a, clockNow, rejected) && rejected == Lost(calls)
      requires if calls == [] then a == |before.attempted| && clockNow == before.clock
               else calls[|calls| - 1].tried == a && calls[|calls| - 1].ended <= clockNow
      ensures GaveUp(before) && before.opens != []
    {
      TriedInVain(before.opens, opensNow, opens, a - |before.attempted|, |attempted| - a);
      StillNoneFree(Now(), a, clockNow, rejected, a, if calls == [] then before.clock else calls[|calls| - 1].ended);
    }
  }

  /** Attempts that all failed, seen from further back. */
  lemma {:induction false} TriedInVain(all: seq<bool>, before: seq<bool>, after: seq<bool>, m: nat, made: nat)
    requires Rest(all, before, m) && Tried(before, after, made, false) && made > 0
    ensures NoneOpens(all, m, m + made) && all != []
  {
    assert !OpenAt(before, 0);
    forall k | m <= k < m + made ensures !OpenAt(all, k) {
      LeftAt(all, before, m, k - m);
    }
  }

  lemma {:induction false} Noted(before: Origin, calls: seq<Call>, now: Origin, made: bool, c: Call,
        calls': seq<Call>, outcomes: seq<OpOutcome>, attempted: seq<nat>)
    requires Made(calls, now.outcomes, before, now.attempted) && now.attempted <= attempted
    requires if calls == []
             then now.generation == before.generation && now.activeEndpoint == before.activeEndpoint
                  && now.attempted == before.attempted
             else now.generation >= before.generation && now.activeEndpoint.None?
    requires made ==> calls' == calls + [c]
    requires made ==>
      CallMade(c, now.outcomes, outcomes, now.generation, now.activeEndpoint, now.attempted, attempted)
    requires !made ==> calls' == calls && outcomes == now.outcomes
    ensures Made(calls', outcomes, before, attempted)
  {
    if made {
      OneMoreMade(before, calls, now, c, outcomes, attempted);
    } else {
      MadeLonger(before, calls, now, attempted);
    }
  }

  lemma {:induction false} MadeLonger(before: Origin, calls: seq<Call>, now: Origin, attempted: seq<nat>)
    requires Made(calls, now.outcomes, before, now.attempted) && now.attempted <= attempted
    ensures Made(calls, now.outcomes, before, attempted)
  {
  }

  lemma {:induction false} OneMoreMade(before: Origin, calls: seq<Call>, now: Origin, c: Call,
        outcomes: seq<OpOutcome>, attempted: seq<nat>)
    requires Made(calls, now.outcomes, before, now.attempted) && now.attempted <= attempted
    requires if calls == []
             then now.generation == before.generation && now.activeEndpoint == before.activeEndpoint
                  && now.attempted == before.attempted
             else now.generation >= before.generation && now.activeEndpoint.None?
    requires CallMade(c, now.outcomes, outcomes, now.generation, now.activeEndpoint, now.attempted, attempted)
    ensures Made(calls + [c], outcomes, before, attempted)
  {
    var all := calls + [c];
    RestMore(before.outcomes, now.outcomes, outcomes, |calls|, 1, |all|);
    if now.outcomes != [] { assert SameAt(before.outcomes, now.outcomes, |calls|, 0); }
    forall k | 0 <= k < |all|
      ensures all[k].outcome == OutcomeAt(before.outcomes, k)
      ensures Over(all[k], before.generation, before.activeEndpoint, before.attempted, attempted)
    {
      if k < |calls| { assert all[k] == calls[k]; }
    }
  }

  lemma {:induction false} OneMoreOpened(all: seq<bool>, a: nat, made: seq<Call>, before: seq<bool>, b: nat,
        calls: seq<Call>, after: seq<bool>, c: nat)
    requires a <= b <= c && made <= calls && |calls| <= |made| + 1 && Rest(all, before, b - a)
    requires OpenedForCalls(made, all, a, b)
    requires Tried(before, after, c - b, |calls| > |made| && c > b)
    requires |calls| > |made| ==> calls[|calls| - 1].tried == c && (b == a || c > b)
    ensures Rest(all, after, c - a) && OpenedForCalls(calls, all, a, c)
  {
    RestMore(all, before, after, b - a, c - b, c - a);
    forall j | 0 <= j < |calls| ensures calls[j].tried <= c {
      if j < |made| { assert calls[j] == made[j]; }
    }
    forall k | 0 <= k < c - a ensures OpenAt(all, k) <==> CalledAfter(calls, a + k + 1) {
      MoreCalls(made, calls, a + k + 1);
      if k >= b - a {
        LeftAt(all, before, b - a, k - (b - a));
        NotCalledYet(made, all, a, b, a + k + 1);
      }
    }
  }

  /** A call was made when so many opening attempts had been made. */
  ghost predicate CalledAfter(calls: seq<Call>, tried: nat) {
    exists j :: 0 <= j < |calls| && calls[j].tried == tried
  }

  /** Of the opening attempts from a to b, exactly those that a call went over succeeded. */
  ghost predicate OpenedForCalls(calls: seq<Call>, opens: seq<bool>, a: nat, b: nat) {
    && (forall j :: 0 <= j < |calls| ==> calls[j].tried <= b)
    && forall k :: 0 <= k < b - a ==> (OpenAt(opens, k) <==> CalledAfter(calls, a + k + 1))
  }

  /** None of the opening attempts from lo to hi succeeds. */
  ghost predicate NoneOpens(opens: seq<bool>, lo: int, hi: int) {
    lo >= 0 && forall k :: lo <= k < hi ==> !OpenAt(opens, k)
  }

  lemma {:induction false} MoreCalls(made: seq<Call>, calls: seq<Call>, tried: nat)
    requires made <= calls && |calls| <= |made| + 1
    ensures CalledAfter(calls, tried) <==>
      CalledAfter(made, tried) || (|calls| > |made| && calls[|calls| - 1].tried == tried)
  {
    if j :| 0 <= j < |made| && made[j].tried == tried { assert calls[j].tried == tried; }
  }

  lemma {:induction false} NotCalledYet(made: seq<Call>, opens: seq<bool>, a: nat, b: nat, tried: nat)
    requires OpenedForCalls(made, opens, a, b) && tried > b
    ensures !CalledAfter(made, tried)
  {
  }

  /** What a role sees of the pool, and what it has done so far. */
  datatype Sight = Sight(attempted: seq<nat>, opens: seq<bool>, clock: real, state: PoolState, generation: nat)

  /** The endpoint may not be used, was opened since, or cools. */
  ghost predicate Out(now: Sight, from: nat, since: real, excluded: set<nat>, i: nat)
    requires i < |now.state.cooldownUntil|
  {
    i in excluded || OpenedSince(now.attempted, from, i) || now.state.cooldownUntil[i] > since
  }

  /** There is no endpoint left that may be used, was not opened since, and does not cool. */
  ghost predicate NoneFree(now: Sight, from: nat, since: real, excluded: set<nat>) {
    forall i: nat :: i < |now.state.cooldownUntil| ==> Out(now, from, since, excluded, i)
  }

  /** Nothing excluded was opened since `o`, and first of all the first choice. */
  ghost predicate Since(o: Sight, now: Sight, excluded: set<nat>) {
    && o.attempted <= now.attempted && o.clock <= now.clock
    && (forall k :: |o.attempted| <= k < |now.attempted| ==> now.attempted[k] !in excluded)
    && (SomeAvailable(o.state, excluded, o.clock) && |now.attempted| > |o.attempted| ==>
          FirstChoice(o.state, excluded, o.clock, now.attempted[|o.attempted|]))
  }

  /** So many passes were made since `o`, all in vain. */
  ghost predicate Trying(o: Sight, now: Sight, excluded: set<nat>, completed: nat, size: nat) {
    && Since(o, now, excluded) && now.generation == o.generation
    && completed <= |now.attempted| - |o.attempted| <= Times(completed, size)
    && Tried(o.opens, now.opens, |now.attempted| - |o.attempted|, false)
    && (completed > 0 ==>
          (exists i :: 0 <= i < size && i !in excluded) && NoneFree(now, |o.attempted|, o.clock, excluded))
    && (completed == 0 && SomeAvailable(o.state, excluded, o.clock) ==> now.state == o.state && now.clock == o.clock)
  }

  /** What one look at the candidates does. */
  ghost predicate Looked(p: Sight, q: Sight, turn: TurnEnd, excluded: set<nat>, size: nat) {
    && p.attempted <= q.attempted && |q.attempted| <= |p.attempted| + size && p.clock <= q.clock
    && NoEarlier(p.state, q.state) && q.generation == p.generation + (if turn == Opened then 1 else 0)
    && (forall k :: |p.attempted| <= k < |q.attempted| ==> q.attempted[k] !in excluded)
    && Tried(p.opens, q.opens, |q.attempted| - |p.attempted|, turn == Opened)
    && (turn == Exhausted <==> forall i :: 0 <= i < size ==> i in excluded)
    && (turn == Exhausted || turn == Slept <==> |q.attempted| == |p.attempted|)
    && (turn == Slept ==> !SomeAvailable(p.state, excluded, p.clock))
    && (turn == Opened || turn == PassFailed ==>
          FirstChoice(p.state, excluded, p.clock, q.attempted[|p.attempted|]))
    && (turn == PassFailed ==> NoneFree(q, |p.attempted|, p.clock, excluded))
  }

  lemma {:induction false} StillNoneFree(now: Sight, from: nat, since: real, excluded: set<nat>, from': nat,
        since': real)
    requires NoneFree(now, from, since, excluded) && from' <= from && since' <= since
    ensures NoneFree(now, from', since', excluded)
  {
    forall i: nat | i < |now.state.cooldownUntil| ensures Out(now, from', since', excluded, i) {
      assert Out(now, from, since, excluded, i);
    }
  }

  /** Still so when nothing was opened meanwhile and no cooldown was lifted. */
  lemma {:induction false} NoneFreeLater(p: Sight, q: Sight, from: nat, since: real, excluded: set<nat>)
    requires NoneFree(p, from, since, excluded) && p.attempted <= q.attempted && NoEarlier(p.state, q.state)
    ensures NoneFree(q, from, since, excluded)
  {
    forall i: nat | i < |q.state.cooldownUntil| ensures Out(q, from, since, excluded, i) {
      assert Out(p, from, since, excluded, i);
      if k :| from <= k < |p.attempted| && p.attempted[k] == i { assert q.attempted[k] == i; }
    }
  }

  lemma {:induction false} RoundAdds(o: Sight, p: Sight, q: Sight, turn: TurnEnd, excluded: set<nat>, completed: nat,
        size: nat)
    requires Trying(o, p, excluded, completed, size) && Looked(p, q, turn, excluded, size)
    ensures Since(o, q, excluded) && |q.attempted| - |o.attempted| <= Times(completed + 1, size)
    ensures Tried(o.opens, q.opens, |q.attempted| - |o.attempted|, turn == Opened)
  {
    SinceMore(o, p, q, turn, excluded, completed, size);
    OneMoreRound(|p.attempted| - |o.attempted|, |q.attempted| - |p.attempted|, completed, size);
    TriedMore(o.opens, p.opens, q.opens, |p.attempted| - |o.attempted|, |q.attempted| - |p.attempted|, turn == Opened);
  }

  lemma {:induction false} SleptOn(o: Sight, p: Sight, q: Sight, excluded: set<nat>, completed: nat, size: nat)
    requires Trying(o, p, excluded, completed, size) && Looked(p, q, Slept, excluded, size)
    ensures Trying(o, q, excluded, completed, size) && |q.opens| == |p.opens|
  {
    RoundAdds(o, p, q, Slept, excluded, completed, size);
    if completed > 0 { NoneFreeLater(p, q, |o.attempted|, o.clock, excluded); }
  }

  lemma {:induction false} FailedOnce(o: Sight, p: Sight, q: Sight, excluded: set<nat>, completed: nat, size: nat)
    requires Trying(o, p, excluded, completed, size) && Looked(p, q, PassFailed, excluded, size)
    ensures Trying(o, q, excluded, completed + 1, size) && |q.opens| < |p.opens|
  {
    RoundAdds(o, p, q, PassFailed, excluded, completed, size);
    FailuresCount(p.opens, q.opens, |q.attempted| - |p.attempted|, false);
    StillNoneFree(q, |p.attempted|, p.clock, excluded, |o.attempted|, o.clock);
  }

  /** How the rounds end: opened, with the endpoint opened last; out of endpoints, when all are excluded; or
      all in vain, after exactly as many rounds as are allowed. */
  ghost predicate Rounds(o: Sight, now: Sight, r: Connected, excluded: set<nat>, bound: int, size: nat) {
    && Since(o, now, excluded) && Tried(o.opens, now.opens, |now.attempted| - |o.attempted|, r == Ready)
    && now.generation == o.generation + (if r == Ready then 1 else 0)
    && (r == NoneUntried <==> forall i :: 0 <= i < size ==> i in excluded)
    && (r == NoneUntried ==> |now.attempted| == |o.attempted|)
    && (r == AllUnavailable ==>
          && bound != -1 && |now.attempted| - |o.attempted| >= bound
          && NoneFree(now, |o.attempted|, o.clock, excluded))
    && (bound != -1 ==> |now.attempted| - |o.attempted| <= bound * size)
    && (SomeAvailable(o.state, excluded, o.clock) ==> |now.attempted| > |o.attempted|)
  }

  lemma {:induction false} RoundsEnd(o: Sight, p: Sight, q: Sight, turn: TurnEnd, excluded: set<nat>, completed: nat,
        bound: int, size: nat)
    requires Trying(o, p, excluded, completed, size) && Looked(p, q, turn, excluded, size)
    requires |p.state.cooldownUntil| == |o.state.cooldownUntil| == size
    requires bound == -1 || completed < bound
    ensures turn == Exhausted ==> Rounds(o, q, NoneUntried, excluded, bound, size)
    ensures turn == Opened ==> Rounds(o, q, Ready, excluded, bound, size)
    ensures turn == PassFailed && bound != -1 && completed + 1 >= bound ==>
      Rounds(o, q, AllUnavailable, excluded, bound, size)
  {
    RoundAdds(o, p, q, turn, excluded, completed, size);
    TimesWithin(completed, bound, size);
    if turn == PassFailed { StillNoneFree(q, |p.attempted|, p.clock, excluded, |o.attempted|, o.clock); }
    if turn == Exhausted {
      assert !SomeAvailable(o.state, excluded, o.clock);
      MulPositive(bound, size);
    }
  }

  lemma {:induction false} OneMoreRound(made: nat, more: nat, rounds: nat, size: nat)
    requires made <= Times(rounds, size) && more <= size
    ensures made + more <= Times(rounds + 1, size)
  {
  }

  lemma {:induction false} SinceMore(o: Sight, p: Sight, q: Sight, turn: TurnEnd, excluded: set<nat>, completed: nat,
        size: nat)
    requires Trying(o, p, excluded, completed, size) && Looked(p, q, turn, excluded, size)
    ensures Since(o, q, excluded)
  {
    if SomeAvailable(o.state, excluded, o.clock) && |q.attempted| > |o.attempted| {
      if completed == 0 {
        assert |p.attempted| == |o.attempted|;
        assert FirstChoice(p.state, excluded, p.clock, q.attempted[|p.attempted|]);
      } else {
        assert q.attempted[|o.attempted|] == p.attempted[|o.attempted|];
      }
    }
  }

  /** The endpoint was opened, or an attempt was made, since. */
  ghost predicate OpenedSince(attempted: seq<nat>, from: nat, i: nat) {
    exists k :: from <= k < |attempted| && attempted[k] == i
  }

  /** What a request finds when it begins. */
  datatype Origin = Origin(generation: nat, activeEndpoint: Option<nat>, attempted: seq<nat>, outcomes: seq<OpOutcome>,
    opens: seq<bool>, clock: real)

  /** How the k-th call from here ends; once the list is used up, calls are answered. */
  function OutcomeAt(outcomes: seq<OpOutcome>, k: nat): OpOutcome {
    if k < |outcomes| then outcomes[k] else Answered
  }

  /** What is left of a list after its first k elements. */
  ghost predicate Rest<T(!new)>(list: seq<T>, left: seq<T>, k: int) {
    && k >= 0 && |left| == (if k <= |list| then |list| - k else 0)
    && forall j :: 0 <= j < |left| ==> SameAt(list, left, k, j)
  }

  ghost predicate SameAt<T(!new)>(list: seq<T>, left: seq<T>, k: int, j: int) {
    0 <= j < |left| && 0 <= k + j < |list| && left[j] == list[k + j]
  }

  /** The call went over the connection there was, or over a newer one, to the endpoint opened last. */
  ghost predicate Over(c: Call, generation: nat, activeEndpoint: Option<nat>, attempted: seq<nat>, now: seq<nat>) {
    || (c.generation == generation && activeEndpoint == Some(c.endpoint))
    || (c.generation > generation && |attempted| < c.tried <= |now| && now[c.tried - 1] == c.endpoint)
  }

  /** The next call, as the next outcome says, over a connection there was or one just opened. */
  ghost predicate CallMade(c: Call, outcomes: seq<OpOutcome>, left: seq<OpOutcome>, generation: nat,
                           activeEndpoint: Option<nat>, attempted: seq<nat>, now: seq<nat>)
  {
    && c.outcome == OutcomeAt(outcomes, 0) && Rest(outcomes, left, 1)
    && Over(c, generation, activeEndpoint, attempted, now) && c.tried == |now|
  }

  ghost predicate Made(calls: seq<Call>, outcomes: seq<OpOutcome>, before: Origin, attempted: seq<nat>) {
    && before.attempted <= attempted && Rest(before.outcomes, outcomes, |calls|)
    && forall k :: 0 <= k < |calls| ==>
         && calls[k].outcome == OutcomeAt(before.outcomes, k)
         && Over(calls[k], before.generation, before.activeEndpoint, before.attempted, attempted)
  }

  /** How a request may end after these calls: at most two per endpoint in all; with a result exactly
      when a call was answered; with an all-lost error only when every endpoint is lost, naming the
      rejecters in order; unable to connect, if connecting is not bounded, only once one was lost. */
  ghost predicate Explained(r: Executed, calls: seq<Call>, n: nat, maxRounds: int) {
    && Disciplined(calls) && |calls| <= 2 * n
    && (r == Result <==> HasAnswer(calls))
    && (r == LostByAll || r.RejectedByAll? ==> calls != [] && forall i: nat :: i < n ==> i in Lost(calls))
    && (r.RejectedByAll? ==> r.rejecters == Rejecters(calls) && calls[|calls| - 1].outcome == Rejected)
    && (r == LostByAll ==> calls[|calls| - 1].outcome == Transport)
    && (r == Unavailable && maxRounds == -1 ==> Lost(calls) != {})
  }

  /** How the k-th opening attempt from here ends; once the list is used up, they succeed. */
  predicate OpenAt(opens: seq<bool>, k: nat) {
    k < |opens| ==> opens[k]
  }

  /** So many opening attempts were made, and all failed but the last if `up`, or all of them if not. */
  ghost predicate Tried(before: seq<bool>, after: seq<bool>, made: int, up: bool) {
    && Rest(before, after, made) && (up ==> made > 0)
    && forall k :: 0 <= k < made ==> (OpenAt(before, k) <==> up && k == made - 1)
  }

  lemma {:induction false} RestMore<T(!new)>(a: seq<T>, b: seq<T>, c: seq<T>, m: nat, n: nat, all: nat)
    requires Rest(a, b, m) && Rest(b, c, n) && all == m + n
    ensures Rest(a, c, all)
  {
    forall j | 0 <= j < |c| ensures SameAt(a, c, all, j) {
      assert SameAt(b, c, n, j) && SameAt(a, b, m, n + j);
    }
  }

  lemma {:induction false} TriedMore(a: seq<bool>, b: seq<bool>, c: seq<bool>, m: nat, n: nat, up: bool)
    requires Tried(a, b, m, false) && Tried(b, c, n, up)
    ensures Tried(a, c, m + n, up)
  {
    forall k | 0 <= k < m + n ensures OpenAt(a, k) <==> up && k == m + n - 1 {
      if k >= m { LeftAt(a, b, m, k - m); }
    }
    RestMore(a, b, c, m, n, m + n);
  }

  lemma {:induction false} LeftAt(opens: seq<bool>, left: seq<bool>, m: nat, k: nat)
    requires Rest(opens, left, m)
    ensures OpenAt(left, k) == OpenAt(opens, m + k)
  {
    if k < |left| { assert SameAt(opens, left, m, k); }
  }

  /** A used-up list means success, so every failure uses it up. */
  lemma {:induction false} FailuresCount(before: seq<bool>, after: seq<bool>, made: nat, up: bool)
    requires Tried(before, after, made, up)
    ensures |after| <= |before| && (!up ==> |after| + made == |before|)
    ensures made > 1 ==> |after| < |before|
  {
    if made > 0 && !up { assert !OpenAt(before, made - 1); }
    if made > 1 { assert !OpenAt(before, made - 2); }
  }

  lemma {:induction false} Nothing(p: PoolState, excluded: set<nat>, now: real, list: seq<nat>)
    requires IsCandidateList(p, excluded, now, list) && list == []
    ensures !SomeAvailable(p, excluded, now)
  {
  }

  lemma {:induction false} Regroup<T>(a: seq<T>, b: seq<T>, c: seq<T>)
    ensures (a + b) + c == a + (b + c)
  {
  }

  /** The bookkeeping of a request that has no answer yet. */
  ghost predicate Tracked(calls: seq<Call>, rejected: set<nat>, retried: set<nat>, failures: seq<nat>, n: nat) {
    && Disciplined(calls) && !HasAnswer(calls)
    && rejected == Lost(calls) && retried == Shaken(calls) && failures == Rejecters(calls)
    && Sized(rejected, retried, |calls|, n)
  }

  ghost predicate Sized(rejected: set<nat>, retried: set<nat>, calls: nat, n: nat) {
    && (forall i :: i in rejected || i in retried ==> i < n)
    && |rejected| <= n && |retried| <= n
    && calls <= |retried| + |rejected|
  }

  function Rejected'(rejected: set<nat>, retried: set<nat>, c: Call): set<nat> {
    if c.outcome == Rejected || (c.outcome == Transport && c.endpoint in retried) then rejected + {c.endpoint}
    else rejected
  }

  function Retried'(retried: set<nat>, c: Call): set<nat> {
    if c.outcome == Transport then retried + {c.endpoint} else retried
  }

  lemma {:induction false} SizedStep(rejected: set<nat>, retried: set<nat>, calls: nat, n: nat, c: Call)
    requires Sized(rejected, retried, calls, n) && |rejected| < n && c.endpoint < n && c.endpoint !in rejected
    ensures c.outcome != Answered ==>
      && Sized(Rejected'(rejected, retried, c), Retried'(retried, c), calls + 1, n)
      && |Rejected'(rejected, retried, c)| + |Retried'(retried, c)| > |rejected| + |retried|
  {
    Counted(retried, rejected, c.endpoint, n);
  }

  /** One more call uses up the measure 2n - |retried| - |rejected|. */
  lemma {:induction false} TrackedStep(calls: seq<Call>, rejected: set<nat>, retried: set<nat>, failures: seq<nat>,
        n: nat, c: Call)
    requires Tracked(calls, rejected, retried, failures, n) && |rejected| < n && c.endpoint < n
    requires c.endpoint !in rejected
    requires calls != [] ==> calls[|calls| - 1].generation < c.generation
    ensures c.outcome == Answered ==>
      Disciplined(calls + [c]) && HasAnswer(calls + [c]) && |calls + [c]| <= 2 * n && Lost(calls + [c]) == rejected
    ensures c.outcome != Answered ==>
      && Tracked(calls + [c], Rejected'(rejected, retried, c), Retried'(retried, c),
                 if c.outcome == Rejected then failures + [c.endpoint] else failures, n)
      && |Rejected'(rejected, retried, c)| + |Retried'(retried, c)| > |rejected| + |retried|
  {
    OneMoreCall(calls, c);
    SizedStep(rejected, retried, |calls|, n, c);
  }

  lemma {:induction false} UnableToConnect(calls: seq<Call>, rejected: set<nat>, retried: set<nat>, failures: seq<nat>,
                                           n: nat, maxRounds: int)
    requires Tracked(calls, rejected, retried, failures, n) && (maxRounds == -1 ==> rejected != {})
    ensures Explained(Unavailable, calls, n, maxRounds)
  {
  }

  /** What one more call means: the end of the request, or another turn with less of the measure left. */
  lemma {:induction false} Verdict(calls: seq<Call>, rejected: set<nat>, retried: set<nat>, failures: seq<nat>,
                                   n: nat, c: Call, maxRounds: int)
    requires Tracked(calls, rejected, retried, failures, n) && |rejected| < n
    requires c.endpoint < n && c.endpoint !in rejected
    requires calls != [] ==> calls[|calls| - 1].generation < c.generation
    ensures c.outcome == Answered ==> Explained(Result, calls + [c], n, maxRounds)
    ensures c.outcome != Answered ==>
      var rejected', retried' := Rejected'(rejected, retried, c), Retried'(retried, c);
      var failures' := if c.outcome == Rejected then failures + [c.endpoint] else failures;
      && Tracked(calls + [c], rejected', retried', failures', n) && |rejected'| <= n
      && |rejected'| + |retried'| > |rejected| + |retried|
      && (|rejected'| == n ==>
            Explained(if c.outcome == Transport then LostByAll else RejectedByAll(failures'), calls + [c], n,
              maxRounds))
  {
    TrackedStep(calls, rejected, retried, failures, n, c);
    var rejected' := Rejected'(rejected, retried, c);
    if c.outcome != Answered && |rejected'| == n {
      Everyone(rejected', n);
    }
  }

  // ---------------------------------------------------------------- reading a call log

  /** Endpoints that failed in transport at least once. */
  function Shaken(made: seq<Call>): set<nat> {
    if made == [] then {} else
    var front, last := made[..|made| - 1], made[|made| - 1];
    if last.outcome == Transport then Shaken(front) + {last.endpoint} else Shaken(front)
  }

  /** Endpoints given up: they rejected the request, or failed in transport a second time. */
  function Lost(made: seq<Call>): set<nat> {
    if made == [] then {} else
    var front, last := made[..|made| - 1], made[|made| - 1];
    var gone := last.outcome == Rejected || (last.outcome == Transport && last.endpoint in Shaken(front));
    if gone then Lost(front) + {last.endpoint} else Lost(front)
  }

  /** The endpoints that rejected the request, in the order they did. */
  function Rejecters(made: seq<Call>): seq<nat> {
    if made == [] then [] else
    var last := made[|made| - 1];
    Rejecters(made[..|made| - 1]) + (if last.outcome == Rejected then [last.endpoint] else [])
  }

  /** No call on an endpoint that was given up, none after an answer, and each over a newer connection
      than the one before. */
  ghost predicate Disciplined(made: seq<Call>) {
    made == [] ||
    var front, last := made[..|made| - 1], made[|made| - 1];
    && Disciplined(front) && last.endpoint !in Lost(front) && !HasAnswer(front)
    && (front != [] ==> front[|front| - 1].generation < last.generation)
  }

  predicate HasAnswer(made: seq<Call>) {
    made != [] && (made[|made| - 1].outcome == Answered || HasAnswer(made[..|made| - 1]))
  }

  function CallsTo(made: seq<Call>, i: nat): seq<OpOutcome> {
    if made == [] then [] else
    var last := made[|made| - 1];
    CallsTo(made[..|made| - 1], i) + (if last.endpoint == i then [last.outcome] else [])
  }

  /** At most two calls on each endpoint, the second only after a transport failure; an endpoint is
      given up exactly when it rejected the request or failed in transport twice. */
  lemma {:induction false} AtMostTwoCalls(made: seq<Call>, i: nat)
    requires Disciplined(made)
    ensures var cs := CallsTo(made, i);
            && |cs| <= 2
            && (|cs| == 2 ==> cs[0] == Transport)
            && (i in Shaken(made) <==> |cs| > 0 && cs[0] == Transport)
            && (i in Lost(made) <==> |cs| > 0 && (cs[|cs| - 1] == Rejected || (|cs| == 2 && cs[1] == Transport)))
            && (!HasAnswer(made) && |cs| > 0 ==> cs[|cs| - 1] != Answered)
  {
    if made == [] {
    } else {
      var front, last := made[..|made| - 1], made[|made| - 1];
      AtMostTwoCalls(front, i);
      var before := CallsTo(front, i);
      if last.endpoint == i {
        assert before == [] || before == [Transport];
        assert CallsTo(made, i) == before + [last.outcome];
      } else {
        assert CallsTo(made, i) == before;
      }
    }
  }

  /** The endpoints named by the all-rejected error are distinct. */
  lemma {:induction false} RejectersDistinct(made: seq<Call>)
    requires Disciplined(made)
    ensures forall i :: i in Rejecters(made) ==> i in Lost(made)
    ensures forall j, k :: 0 <= j < k < |Rejecters(made)| ==> Rejecters(made)[j] != Rejecters(made)[k]
  {
    if made == [] {
    } else {
      var front := made[..|made| - 1];
      RejectersDistinct(front);
      forall j | 0 <= j < |Rejecters(front)| ensures Rejecters(front)[j] in Lost(front) {
        assert Rejecters(front)[j] in Rejecters(front);
      }
    }
  }

  lemma {:induction false} MulPositive(bound: int, n: nat)
    ensures bound >= 1 ==> 0 <= bound * n
  {
  }

  function Times(k: nat, n: nat): nat {
    if k == 0 then 0 else Times(k - 1, n) + n
  }

  lemma {:induction false} TimesIs(k: nat, n: nat)
    ensures Times(k, n) == k * n
  {
    if k > 0 { TimesIs(k - 1, n); }
  }

  lemma {:induction false} TimesWithin(k: nat, bound: int, n: nat)
    ensures k < bound ==> Times(k + 1, n) <= bound * n && Times(k, n) <= bound * n
  {
    TimesIs(k, n);
    TimesIs(k + 1, n);
    if k < bound { assert (k + 1) * n <= bound * n; }
  }

  function FirstN(n: nat): (s: set<nat>)
    ensures |s| == n && forall i: nat :: i in s <==> i < n
  {
    if n == 0 then {} else FirstN(n - 1) + {n - 1}
  }

  lemma {:induction false} NotEveryone(s: set<nat>, n: nat)
    requires |s| < n
    ensures exists i :: 0 <= i < n && i !in s
  {
    var common := FirstN(n) * s;
    assert s == common + (s - common) && FirstN(n) == common + (FirstN(n) - s);
    assert |s| == |common| + |s - common| && n == |common| + |FirstN(n) - s|;
    var i :| i in FirstN(n) - s;
  }

  lemma {:induction false} BelowCard(s: set<nat>, n: nat)
    requires forall i :: i in s ==> i < n
    ensures |s| <= n && (|s| == n ==> s == FirstN(n))
  {
    var rest := FirstN(n) - s;
    assert FirstN(n) == s + rest;
    assert |FirstN(n)| == |s| + |rest|;
  }

  lemma {:induction false} Counted(retried: set<nat>, rejected: set<nat>, endpoint: nat, n: nat)
    requires (forall i :: i in retried || i in rejected ==> i < n) && endpoint < n && endpoint !in rejected
    ensures |retried + {endpoint}| <= n && |rejected + {endpoint}| <= n
    ensures |rejected + {endpoint}| == |rejected| + 1
    ensures endpoint !in retried ==> |retried + {endpoint}| == |retried| + 1
    ensures endpoint in retried ==> retried + {endpoint} == retried
  {
    BelowCard(retried + {endpoint}, n);
    BelowCard(rejected + {endpoint}, n);
  }

  lemma {:induction false} Everyone(s: set<nat>, n: nat)
    requires (forall i :: i in s ==> i < n) && |s| == n
    ensures forall i: nat :: i < n ==> i in s
  {
    BelowCard(s, n);
  }

  lemma {:induction false} OneMoreCall(made: seq<Call>, c: Call)
    requires Disciplined(made) && c.endpoint !in Lost(made) && !HasAnswer(made)
    requires made != [] ==> made[|made| - 1].generation < c.generation
    ensures Disciplined(made + [c])
    ensures HasAnswer(made + [c]) <==> c.outcome == Answered
    ensures Shaken(made + [c]) == if c.outcome == Transport then Shaken(made) + {c.endpoint} else Shaken(made)
    ensures c.outcome == Rejected || (c.outcome == Transport && c.endpoint in Shaken(made)) ==>
      Lost(made + [c]) == Lost(made) + {c.endpoint}
    ensures c.outcome == Answered || (c.outcome == Transport && c.endpoint !in Shaken(made)) ==>
      Lost(made + [c]) == Lost(made)
    ensures Rejecters(made + [c]) == Rejecters(made) + (if c.outcome == Rejected then [c.endpoint] else [])
  {
    var all := made + [c];
    assert all[..|all| - 1] == made && all[|all| - 1] == c;
  }
}
