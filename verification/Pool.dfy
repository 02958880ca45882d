/** The shared endpoint pool (sentinel/rpc_provider.py): cooldowns, preference and candidate lists.
    Its lock bodies never await, so each method is one step. */
module Pool {
  import opened Windows

  datatype PoolState = PoolState(
    cooldownUntil: seq<real>, failures: seq<nat>, lastFailure: seq<Option<real>>, preferred: nat)

  /** The steps any provider role may take on the pool. */
  datatype PoolOp = MarkFailed(i: nat) | MarkSuccess(i: nat) | TransportFailure(i: nat)

  ghost predicate Shaped(p: PoolState, n: nat) {
    |p.cooldownUntil| == |p.failures| == |p.lastFailure| == n && p.preferred < n
  }

  /** A second stream failure no more than a cooldown after the previous one cools the endpoint. */
  predicate CoolsOnFailure(p: PoolState, i: nat, now: real, cooldown: real)
    requires i < |p.failures| && i < |p.lastFailure|
  {
    && p.failures[i] >= 1
    && p.lastFailure[i].Some? && now - p.lastFailure[i].value <= cooldown
  }

  function Apply(p: PoolState, op: PoolOp, now: real, cooldown: real): PoolState
    requires op.i < |p.cooldownUntil| == |p.failures| == |p.lastFailure|
  {
    match op
    case MarkFailed(i) => p.(cooldownUntil := p.cooldownUntil[i := now + cooldown])
    case MarkSuccess(i) => if p.cooldownUntil[i] > now then p else p.(preferred := i)
    case TransportFailure(i) =>
      var q := p.(lastFailure := p.lastFailure[i := Some(now)]);
      if CoolsOnFailure(p, i, now, cooldown) then
        q.(failures := p.failures[i := 0], cooldownUntil := p.cooldownUntil[i := now + cooldown])
      else
        var seen := if p.lastFailure[i].None? || now - p.lastFailure[i].value > cooldown then 0 else p.failures[i];
        q.(failures := p.failures[i := seen + 1])
  }

  /** What a step does, endpoint by endpoint: others are left alone, a failure cools its own for exactly one
      cooldown from now, a success only makes its own the preferred one unless it cools, and a broken stream
      is remembered. */
  lemma {:induction false} ApplyMeans(p: PoolState, n: nat, op: PoolOp, now: real, cooldown: real, j: nat)
    requires Shaped(p, n) && op.i < n && j < n
    ensures var q := Apply(p, op, now, cooldown);
            && (j != op.i ==> q.cooldownUntil[j] == p.cooldownUntil[j] && q.failures[j] == p.failures[j]
                              && q.lastFailure[j] == p.lastFailure[j])
            && (q.preferred == p.preferred || (op.MarkSuccess? && q.preferred == op.i))
            && (op.MarkFailed? ==> q.cooldownUntil[op.i] == now + cooldown && q.failures == p.failures
                                   && q.lastFailure == p.lastFailure)
            && (op.MarkSuccess? ==> q.(preferred := p.preferred) == p
                                    && (q.preferred == op.i <==> p.preferred == op.i || p.cooldownUntil[op.i] <= now))
            && (op.TransportFailure? ==> q.lastFailure[op.i] == Some(now))
  {
    match op {
      case MarkFailed(i) =>
      case MarkSuccess(i) =>
      case TransportFailure(i) =>
    }
  }

  // ---------------------------------------------------------------- runs

  datatype Timed = Timed(op: PoolOp, now: real)

  /** Steps of existing endpoints, read off a clock that never goes back. */
  ghost predicate Timely(steps: seq<Timed>, n: nat, since: real) {
    && (forall k :: 0 <= k < |steps| ==> steps[k].op.i < n && steps[k].now >= since)
    && (forall j, k :: 0 <= j <= k < |steps| ==> steps[j].now <= steps[k].now)
  }

  /** No cooldown lies further ahead than one cooldown from the latest step. */
  ghost predicate Bounded(p: PoolState, now: real, cooldown: real) {
    forall i :: 0 <= i < |p.cooldownUntil| ==> p.cooldownUntil[i] <= now + cooldown
  }

  function RunPool(p: PoolState, steps: seq<Timed>, cooldown: real): PoolState
    requires forall k :: 0 <= k < |steps| ==> steps[k].op.i < |p.cooldownUntil| == |p.failures| == |p.lastFailure|
    decreases |steps|
  {
    if steps == [] then p
    else RunPool(Apply(p, steps[0].op, steps[0].now, cooldown), steps[1..], cooldown)
  }

  lemma {:induction false} ApplyKeeps(p: PoolState, n: nat, t: Timed, since: real, cooldown: real)
    requires Shaped(p, n) && t.op.i < n && cooldown >= 0.0 && since <= t.now && Bounded(p, since, cooldown)
    ensures Shaped(Apply(p, t.op, t.now, cooldown), n) && Bounded(Apply(p, t.op, t.now, cooldown), t.now, cooldown)
    ensures forall i :: 0 <= i < n ==> p.cooldownUntil[i] <= Apply(p, t.op, t.now, cooldown).cooldownUntil[i]
  {
  }

  /** In any run of any roles' steps, no endpoint's cooldown ever moves earlier. */
  lemma {:induction false} CooldownsOnlyExtend(p: PoolState, n: nat, steps: seq<Timed>, since: real, cooldown: real,
        i: nat)
    requires Shaped(p, n) && Timely(steps, n, since) && cooldown >= 0.0 && Bounded(p, since, cooldown) && i < n
    ensures Shaped(RunPool(p, steps, cooldown), n)
    ensures p.cooldownUntil[i] <= RunPool(p, steps, cooldown).cooldownUntil[i]
    decreases |steps|
  {
    if steps == [] {
    } else {
      ApplyKeeps(p, n, steps[0], since, cooldown);
      forall k | 0 <= k < |steps[1..]| ensures steps[1..][k].op.i < n && steps[1..][k].now >= steps[0].now {
        assert steps[1..][k] == steps[k + 1];
      }
      CooldownsOnlyExtend(Apply(p, steps[0].op, steps[0].now, cooldown), n, steps[1..], steps[0].now, cooldown, i);
    }
  }

  /** A failure recorded while another role is still opening the endpoint stands: until its cooldown
      is over that role's success neither lifts it nor makes the endpoint the preferred one. */
  lemma {:induction false} FailureWhileOpening(p: PoolState, n: nat, i: nat, failed: real, steps: seq<Timed>,
        now: real, cooldown: real)
    requires Shaped(p, n) && i < n && cooldown >= 0.0 && Bounded(p, failed, cooldown) && Timely(steps, n, failed)
    requires failed <= now < failed + cooldown
    ensures var q := RunPool(Apply(p, MarkFailed(i), failed, cooldown), steps, cooldown);
            Shaped(q, n) && Apply(q, MarkSuccess(i), now, cooldown) == q
  {
    ApplyKeeps(p, n, Timed(MarkFailed(i), failed), failed, cooldown);
    CooldownsOnlyExtend(Apply(p, MarkFailed(i), failed, cooldown), n, steps, failed, cooldown, i);
  }

  /** One broken stream does not cool an endpoint; a second one does exactly when it comes within a
      cooldown of the first, and then the count starts again. */
  lemma {:induction false} SecondFailureCools(p: PoolState, n: nat, i: nat, first: real, second: real, cooldown: real)
    requires Shaped(p, n) && i < n && cooldown >= 0.0 && first <= second
    requires p.lastFailure[i].None? || first - p.lastFailure[i].value > cooldown
    ensures var q := Apply(p, TransportFailure(i), first, cooldown);
            var r := Apply(q, TransportFailure(i), second, cooldown);
            && q.cooldownUntil == p.cooldownUntil
            && r.cooldownUntil ==
                 (if second - first <= cooldown then p.cooldownUntil[i := second + cooldown] else p.cooldownUntil)
            && r.failures[i] == (if second - first <= cooldown then 0 else 1)
  {
  }

  /** No endpoint's cooldown moved earlier. */
  ghost predicate NoEarlier(p: PoolState, q: PoolState) {
    && |p.cooldownUntil| == |q.cooldownUntil|
    && forall i :: 0 <= i < |p.cooldownUntil| ==> p.cooldownUntil[i] <= q.cooldownUntil[i]
  }

  // ---------------------------------------------------------------- candidates

  predicate Available(p: PoolState, i: nat, excluded: set<nat>, now: real) {
    i < |p.cooldownUntil| && i !in excluded && p.cooldownUntil[i] <= now
  }

  ghost predicate SomeAvailable(p: PoolState, excluded: set<nat>, now: real) {
    exists i: nat :: Available(p, i, excluded, now)
  }

  /** Distinct available endpoints, all of them, the preferred one first and the rest by index. */
  ghost predicate IsCandidateList(p: PoolState, excluded: set<nat>, now: real, list: seq<nat>) {
    && (forall i: nat :: i in list <==> Available(p, i, excluded, now))
    && (forall j, k :: 0 <= j < k < |list| ==> list[j] == p.preferred || (list[k] != p.preferred && list[j] < list[k]))
    && (forall j, k :: 0 <= j < k < |list| ==> list[j] != list[k])
  }

  /** The endpoint to try first: the preferred one if it is available, else the first one that is. */
  ghost predicate FirstChoice(p: PoolState, excluded: set<nat>, now: real, i: nat) {
    && Available(p, i, excluded, now)
    && (i == p.preferred
        || (!Available(p, p.preferred, excluded, now) && forall j: nat :: j < i ==> !Available(p, j, excluded, now)))
  }

  lemma {:induction false} CandidatesFit(p: PoolState, n: nat, excluded: set<nat>, now: real, list: seq<nat>)
    requires Shaped(p, n) && IsCandidateList(p, excluded, now, list) && list != []
    ensures forall k :: 0 <= k < |list| ==> list[k] < n && list[k] !in excluded
    ensures FirstChoice(p, excluded, now, list[0])
  {
    assert forall k :: 0 <= k < |list| ==> list[k] in list;
    if list[0] != p.preferred {
      forall j: nat | Available(p, j, excluded, now) ensures j >= list[0] && j != p.preferred {
        assert j in list;
        var k :| 0 <= k < |list| && list[k] == j;
      }
    }
  }

  class RpcEndpointPool {
    const size: nat
    const cooldownSeconds: real
    var state: PoolState

    ghost predicate Valid()
      reads this
    {
      size >= 1 && Shaped(state, size) && cooldownSeconds >= 0.0
    }

    constructor (size: nat, cooldownSeconds: real)
      requires size >= 1 && cooldownSeconds >= 0.0
      ensures Valid() && this.size == size && this.cooldownSeconds == cooldownSeconds
      ensures state == PoolState(seq(size, _ => 0.0), seq(size, _ => 0), seq(size, _ => None), 0)
    {
      this.size, this.cooldownSeconds := size, cooldownSeconds;
      state := PoolState(seq(size, _ => 0.0), seq(size, _ => 0), seq(size, _ => None), 0);
    }

    method Take(op: PoolOp, now: real)
      requires Valid() && op.i < size
      modifies this
      ensures Valid() && state == Apply(old(state), op, now, cooldownSeconds)
    {
      state := Apply(state, op, now, cooldownSeconds);
    }

    /** The available endpoints; the sort by "is not preferred" is stable, so it moves only the
        preferred one. */
    method AvailableList(excluded: set<nat>, now: real) returns (list: seq<nat>)
      requires Valid()
      ensures IsCandidateList(state, excluded, now, list) && |list| <= size
      ensures forall i: nat :: i in list <==> i < size && i !in excluded && state.cooldownUntil[i] <= now
    {
      var first, rest: seq<nat> := [], [];
      for i := 0 to size
        invariant forall k: nat :: k in rest <==> k < i && k != state.preferred && Available(state, k, excluded, now)
        invariant |first| + |rest| <= i && forall j :: 0 <= j < |rest| ==> rest[j] < i
        invariant forall j, k :: 0 <= j < k < |rest| ==> rest[j] < rest[k]
        invariant first ==
          if state.preferred < i && Available(state, state.preferred, excluded, now) then [state.preferred] else []
      {
        if Available(state, i, excluded, now) {
          if i == state.preferred {
            first := [i];
          } else {
            rest := rest + [i];
          }
        }
      }
      list := first + rest;
      assert forall j :: 0 <= j < |rest| ==> rest[j] in rest;
    }

    /** The earliest cooldown end among the endpoints not excluded. */
    method Soonest(excluded: set<nat>) returns (soonest: Option<real>)
      requires Valid()
      ensures soonest.None? <==> forall k :: 0 <= k < size ==> k in excluded
      ensures soonest.Some? ==> exists k :: 0 <= k < size && k !in excluded && state.cooldownUntil[k] == soonest.value
      ensures soonest.Some? ==> forall k :: 0 <= k < size && k !in excluded ==> soonest.value <= state.cooldownUntil[k]
    {
      soonest := None;
      for i := 0 to size
        invariant soonest.None? <==> forall k :: 0 <= k < i ==> k in excluded
        invariant soonest.Some? ==> exists k :: 0 <= k < i && k !in excluded && state.cooldownUntil[k] == soonest.value
        invariant soonest.Some? ==> forall k :: 0 <= k < i && k !in excluded ==> soonest.value <= state.cooldownUntil[k]
      {
        if i !in excluded && (soonest.None? || state.cooldownUntil[i] < soonest.value) {
          soonest := Some(state.cooldownUntil[i]);
        }
      }
    }

    /** The candidate list, and how long to sleep when it is empty: nothing becomes available sooner,
        something is available then unless a failure is recorded meanwhile, and no wait is given
        only when every endpoint is excluded. */
    method Candidates(excluded: set<nat>, now: real) returns (list: seq<nat>, wait: Option<real>)
      requires Valid()
      ensures IsCandidateList(state, excluded, now, list) && |list| <= size
      ensures forall i: nat :: i in list <==> i < size && i !in excluded && state.cooldownUntil[i] <= now
      ensures wait.None? <==> forall i :: 0 <= i < size ==> i in excluded
      ensures list != [] ==> wait == Some(0.0)
      ensures list == [] && wait.Some? ==>
        && wait.value > 0.0
        && (forall i :: 0 <= i < size && i !in excluded ==> state.cooldownUntil[i] >= now + wait.value)
        && SomeAvailable(state, excluded, now + wait.value)
        && (forall i: nat, t: real :: t < now + wait.value ==> !Available(state, i, excluded, t))
    {
      var soonest := Soonest(excluded);
      if soonest.None? {
        return [], None;
      }
      list := AvailableList(excluded, now);
      if list != [] {
        assert list[0] in list;
        return list, Some(0.0);
      }
      ghost var k :| 0 <= k < size && k !in excluded && state.cooldownUntil[k] == soonest.value;
      var w := soonest.value - now;
      assert k !in list;
      assert !Available(state, k, excluded, now);
      assert Available(state, k, excluded, now + w);
      wait := Some(if w > 0.0 then w else 0.0);
    }
  }
}
