/** The generation guard of one fallback provider shared by any number of tasks
    (sentinel/rpc_provider.py): what may happen between two awaits is one step, and a run is any list
    of steps by any tasks. A step that is not possible in a state leaves that state alone. */
module Generations {
  import opened Windows

  /** The transport in use: none, one being opened, or the connection of a generation. */
  datatype Link = NoLink | Opening(endpoint: nat) | Live(endpoint: nat, generation: nat)

  /** Where the holder of the connect lock is waiting; Choosing covers candidates, closing and sleeping. */
  datatype Phase = Unlocked | Checking | Choosing | Trying(endpoint: nat)

  /** `closed` lists the generations whose connection was closed, in order. An invalidation closes outside
      the connect lock: `pending` are the endpoints whose transport is still disconnecting after one. A
      transport is one object for all connections to its endpoint, so the end of a disconnect cuts
      whatever connection the transport then has; `severed` are the generations cut in that way. */
  datatype State = State(active: Option<nat>, generation: nat, link: Link, phase: Phase, closed: seq<nat>,
    pending: multiset<nat>, severed: set<nat>)

  datatype Step =
    | Enter(excluded: set<nat>)            // a task takes the connect lock
    | CheckedAlive | CheckedDead           // the liveness check answers
    | Try(endpoint: nat) | TryFailed | TryOk
    | GiveUp                               // connecting raises
    | Cancelled                            // the lock holder is cancelled at its await
    | Disconnect
    | Invalidate(endpoint: nat, generation: nat)   // any task, with what its failed call used
    | Disconnected(endpoint: nat)          // the disconnect that an invalidation started ends

  const INITIAL := State(None, 0, NoLink, Unlocked, [], multiset{}, {})

  function Drop(s: State): State {
    s.(active := None, link := NoLink, closed := s.closed + (if s.link.Live? then [s.link.generation] else []))
  }

  function Next(s: State, step: Step): State {
    match step
    case Enter(excluded) =>
      if s.phase != Unlocked then s
      else if s.active.None? then s.(phase := Choosing)
      else if s.active.value in excluded then Drop(s).(phase := Choosing)
      else s.(phase := Checking)
    case CheckedAlive => if s.phase == Checking then s.(phase := Unlocked) else s
    case CheckedDead => if s.phase == Checking then Drop(s).(phase := Choosing) else s
    case Try(e) => if s.phase == Choosing then s.(phase := Trying(e), link := Opening(e)) else s
    case TryFailed => if s.phase.Trying? then s.(phase := Choosing, link := NoLink) else s
    case TryOk =>
      if !s.phase.Trying? then s else
      s.(active := Some(s.phase.endpoint), generation := s.generation + 1,
         link := Live(s.phase.endpoint, s.generation + 1), phase := Unlocked)
    case GiveUp => if s.phase == Choosing then s.(phase := Unlocked) else s
    case Cancelled => s.(phase := Unlocked)
    case Disconnect => if s.phase == Unlocked then Drop(s) else s
    case Invalidate(e, g) =>
      if s.active == Some(e) && s.generation == g then Drop(s).(pending := s.pending + multiset{e}) else s
    case Disconnected(e) =>
      if e !in s.pending then s else
      s.(pending := s.pending - multiset{e},
         severed := s.severed + (if s.link.Live? && s.link.endpoint == e then {s.link.generation} else {}))
  }

  function Run(s: State, steps: seq<Step>): State
    decreases |steps|
  {
    if steps == [] then s else Run(Next(s, steps[0]), steps[1..])
  }

  /** [1, 2, ..., n] */
  function UpTo(n: nat): (r: seq<nat>)
    ensures |r| == n && forall k :: 0 <= k < n ==> r[k] == k + 1
  {
    if n == 0 then [] else UpTo(n - 1) + [n]
  }

  /** The active endpoint is the one of the connection of the current generation, and every earlier
      connection has been closed, once each and in the order they were opened. */
  ghost predicate Guarded(s: State) {
    && (s.active.Some? ==>
          && s.generation > 0 && s.link == Live(s.active.value, s.generation)
          && (s.phase == Unlocked || s.phase == Checking))
    && (s.active.None? ==> !s.link.Live?)
    && s.closed == UpTo(if s.active.Some? then s.generation - 1 else s.generation)
  }

  lemma {:induction false} NextGuarded(s: State, step: Step)
    requires Guarded(s)
    ensures Guarded(Next(s, step)) && s.generation <= Next(s, step).generation <= s.generation + 1
    ensures s.closed <= Next(s, step).closed
  {
  }

  /** What each step does to the connection: the ones that drop it close it, and the next one opened is of
      the next generation. */
  lemma {:induction false} StepMeans(s: State, step: Step)
    requires Guarded(s)
    ensures var t := Next(s, step);
            var drops := s.active.Some? && (
              || (step.Enter? && s.phase == Unlocked && s.active.value in step.excluded)
              || (step == CheckedDead && s.phase == Checking) || (step == Disconnect && s.phase == Unlocked)
              || step == Invalidate(s.active.value, s.generation));
            && (drops ==> t.active.None? && t.link == NoLink && t.closed == s.closed + [s.generation])
            && (step == TryOk && s.phase.Trying? ==>
                  t.active == Some(s.phase.endpoint) && t.generation == s.generation + 1 && t.phase == Unlocked)
            && (!drops && !(step == TryOk && s.phase.Trying?) ==>
                  t.active == s.active && t.generation == s.generation && t.closed == s.closed)
    ensures step.Enter? && s.phase == Unlocked ==>
      (Next(s, step).phase == Checking <==> s.active.Some? && s.active.value !in step.excluded)
    ensures step.Enter? && s.phase == Unlocked && Next(s, step).phase != Checking ==> Next(s, step).phase == Choosing
    ensures step == CheckedDead && s.phase == Checking ==> Next(s, step).phase == Choosing
    ensures step.Try? && s.phase == Choosing ==> Next(s, step).phase == Trying(step.endpoint)
    ensures step == TryFailed && s.phase.Trying? ==> Next(s, step).phase == Choosing
    ensures (step == GiveUp && s.phase == Choosing) || step == Cancelled ==> Next(s, step).phase == Unlocked
  {
  }

  /** In every run: generations never go back, and the closed connections are exactly all but the
      live one, each closed once, oldest first. So at most one connection is ever open. */
  lemma {:induction false} EveryRunGuarded(s: State, steps: seq<Step>)
    requires Guarded(s)
    ensures Guarded(Run(s, steps)) && s.generation <= Run(s, steps).generation && s.closed <= Run(s, steps).closed
    decreases |steps|
  {
    if steps == [] {
    } else {
      NextGuarded(s, steps[0]);
      EveryRunGuarded(Next(s, steps[0]), steps[1..]);
    }
  }

  /** An invalidation closes the connection of the generation it carries, or nothing at all; after
      `later` steps that opened a newer generation it closes nothing, whatever endpoint it names. */
  lemma {:induction false} InvalidationHitsItsOwnGeneration(s: State, later: seq<Step>, e: nat, g: nat)
    requires Guarded(s)
    ensures var t := Run(s, later);
            && (Next(t, Invalidate(e, g)) == t ||
                (Next(t, Invalidate(e, g)).closed == t.closed + [g] && g !in t.closed && t.link == Live(e, g)))
            && (s.generation <= g < t.generation ==> Next(t, Invalidate(e, g)) == t)
  {
    EveryRunGuarded(s, later);
  }

  /** A second failure of the same connection finds nothing to close, however much happened since. */
  lemma {:induction false} InvalidatedOnce(s: State, e: nat, g: nat, later: seq<Step>)
    requires Guarded(s) && g <= s.generation
    ensures var u := Run(Next(s, Invalidate(e, g)), later);
            Next(u, Invalidate(e, g)) == u
  {
    NextGuarded(s, Invalidate(e, g));
    StaysSpent(Next(s, Invalidate(e, g)), e, g, later);
  }

  /** Once a connection is gone it never becomes active again. */
  lemma {:induction false} StaysSpent(s: State, e: nat, g: nat, later: seq<Step>)
    requires g <= s.generation && !(s.active == Some(e) && s.generation == g)
    ensures var u := Run(s, later); g <= u.generation && !(u.active == Some(e) && u.generation == g)
    decreases |later|
  {
    if later == [] {
    } else {
      StaysSpent(Next(s, later[0]), e, g, later[1..]);
    }
  }

  // ------------------------------------------------------- a disconnect that ends late

  /** No endpoint is opened while its transport is still disconnecting. */
  ghost predicate NeverReopened(s: State, steps: seq<Step>)
    decreases |steps|
  {
    steps != [] ==>
      (steps[0].Try? && s.phase == Choosing ==> steps[0].endpoint !in s.pending)
      && NeverReopened(Next(s, steps[0]), steps[1..])
  }

  ghost predicate Apart(s: State) {
    && (s.link.Live? || s.link.Opening? ==> s.link.endpoint !in s.pending)
    && (s.phase.Trying? ==> s.link == Opening(s.phase.endpoint))
  }

  lemma {:induction false} ApartNext(s: State, step: Step)
    requires Guarded(s) && Apart(s) && (step.Try? && s.phase == Choosing ==> step.endpoint !in s.pending)
    ensures Apart(Next(s, step)) && Next(s, step).severed == s.severed
  {
    var t := Next(s, step);
    if step.Invalidate? {
      if t != s { assert t.link == NoLink && !t.phase.Trying?; }
    } else {
      assert forall e :: e in t.pending ==> e in s.pending;
    }
  }

  /** Then the end of a disconnect never cuts a later connection, in any run. */
  lemma {:induction false} NothingSevered(s: State, steps: seq<Step>)
    requires Guarded(s) && Apart(s) && NeverReopened(s, steps)
    ensures Run(s, steps).severed == s.severed
    decreases |steps|
  {
    if steps == [] {
    } else {
      NextGuarded(s, steps[0]);
      ApartNext(s, steps[0]);
      NothingSevered(Next(s, steps[0]), steps[1..]);
    }
  }

  /** And the condition is needed each time: a connection just opened can be cut by the end of an earlier
      disconnect if and only if its endpoint was still disconnecting. */
  lemma {:induction false} SeveredIff(s: State, e: nat)
    requires Guarded(s) && s.phase == Choosing && (forall g :: g in s.severed ==> g <= s.generation)
    ensures var t := Run(s, [Try(e)] + ([TryOk] + ([Disconnected(e)] + [])));
            t.link == Live(e, s.generation + 1) && (s.generation + 1 in t.severed <==> e in s.pending)
  {
    Unroll(s, Try(e), [TryOk] + ([Disconnected(e)] + []));
    Unroll(Next(s, Try(e)), TryOk, [Disconnected(e)] + []);
    Unroll(Next(Next(s, Try(e)), TryOk), Disconnected(e), []);
  }

  // ------------------------------------------------------- returning from the liveness check

  /** Steps other tasks can take while one task holds the connect lock. */
  predicate Foreign(step: Step) {
    step.Invalidate? || step.Enter? || step.Disconnect? || step.Disconnected?
  }

  /** Connecting through the "still connected" branch returns with an active endpoint if and only if
      no other task invalidated that very connection while the check was awaited. */
  lemma {:induction false} AliveReturnIff(s: State, meanwhile: seq<Step>)
    requires Guarded(s) && s.phase == Checking && s.active.Some?
    requires forall k :: 0 <= k < |meanwhile| ==> Foreign(meanwhile[k])
    ensures var t := Next(Run(s, meanwhile), CheckedAlive);
            && t.phase == Unlocked
            && (t.active.Some? <==> Invalidate(s.active.value, s.generation) !in meanwhile)
            && (t.active.Some? ==> t == s.(phase := Unlocked, pending := t.pending, severed := t.severed))
    decreases |meanwhile|
  {
    if meanwhile == [] {
    } else {
      var step, rest := meanwhile[0], meanwhile[1..];
      assert Foreign(step) && meanwhile == [step] + rest;
      assert forall k :: 0 <= k < |rest| ==> rest[k] == meanwhile[k + 1];
      if step == Invalidate(s.active.value, s.generation) {
        StaysDropped(Next(s, step), rest);
      } else {
        AliveReturnIff(Next(s, step), rest);
      }
    }
  }

  lemma {:induction false} StaysDropped(s: State, meanwhile: seq<Step>)
    requires s.phase == Checking && s.active.None?
    requires forall k :: 0 <= k < |meanwhile| ==> Foreign(meanwhile[k])
    ensures Run(s, meanwhile).phase == Checking && Run(s, meanwhile).active.None?
    decreases |meanwhile|
  {
    if meanwhile == [] {
    } else {
      assert Foreign(meanwhile[0]);
      assert forall k :: 0 <= k < |meanwhile[1..]| ==> meanwhile[1..][k] == meanwhile[k + 1];
      StaysDropped(Next(s, meanwhile[0]), meanwhile[1..]);
    }
  }

  /** The failing family is not empty: one task connects, a second starts a liveness check, and the
      first one's call fails meanwhile. The second returns from connecting without an endpoint,
      which its caller asserts cannot be. */
  lemma {:induction false} ReturnsWithoutEndpoint()
    ensures var run := [Enter({}), Try(0), TryOk, Enter({}), Invalidate(0, 1), CheckedAlive];
            Guarded(INITIAL) && Run(INITIAL, run) == State(None, 1, NoLink, Unlocked, [1], multiset{0}, {})
  {
    var s1 := Next(Next(Next(INITIAL, Enter({})), Try(0)), TryOk);
    var s2 := Next(Next(Next(s1, Enter({})), Invalidate(0, 1)), CheckedAlive);
    assert s2 == State(None, 1, NoLink, Unlocked, [1], multiset{0}, {});
    var run := [Enter({}), Try(0), TryOk, Enter({}), Invalidate(0, 1), CheckedAlive];
    Unroll(INITIAL, run[0], run[1..]);
    Unroll(Next(INITIAL, run[0]), run[1], run[2..]);
    Unroll(Next(Next(INITIAL, run[0]), run[1]), run[2], run[3..]);
    Unroll(s1, run[3], run[4..]);
    Unroll(Next(s1, run[3]), run[4], run[5..]);
    Unroll(Next(Next(s1, run[3]), run[4]), run[5], []);
    assert run == [run[0]] + run[1..] && run[1..] == [run[1]] + run[2..] && run[2..] == [run[2]] + run[3..];
    assert run[3..] == [run[3]] + run[4..] && run[4..] == [run[4]] + run[5..] && run[5..] == [run[5]] + [];
  }

  lemma {:induction false} Unroll(s: State, step: Step, rest: seq<Step>)
    ensures Run(s, [step] + rest) == Run(Next(s, step), rest)
  {
    assert ([step] + rest)[1..] == rest;
  }
}
