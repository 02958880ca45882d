/** What the coordinator keeps of the logs it is given, whatever the tasks that call it do at each other's
    awaits, and exactly when nothing is lost: when no flush discards a record that a log joined behind
    its back (sentinel/services/aggregation.py). */
module Conservation {
  import opened Events
  import opened Sorting
  import opened Windows
  import opened Partition
  import opened Batching
  import opened Flows

  // ---------------------------------------------------------------- one step

  lemma {:induction false} StepRecord(registry: seq<Aggregator>, f: Flow, s: FlowStep, slot: Slot, id: Id)
    requires ValidRegistry(registry)
    ensures RecordHolds(Do(registry, f, s).store, slot, id) <==>
      if s.Handle? && Routed(registry, s.e) then
        RecordHolds(f.store, slot, id) || (id == s.e.Identity() && slot == SlotFor(registry, f.store, s.e))
      else if s.Finish? && f.Queue(s.task) != [] then
        RecordHolds(f.store, slot, id) && slot != f.Queue(s.task)[0].Slot()
      else
        RecordHolds(f.store, slot, id)
  {
    match s {
      case Handle(e) =>
        if Routed(registry, e) {
          OnEventIsAddTo(registry, f.store, e);
          AddToRecord(registry, f.store, e, slot, id);
        }
      case Finish(t) =>
        if f.Queue(t) != [] { DiscardRecord(f.store, f.Queue(t)[0], slot, id); }
      case _ =>
    }
  }

  /** Whatever the record that goes holds by now is in the window that was sent. */
  ghost predicate Clean(registry: seq<Aggregator>, f: Flow, s: FlowStep) {
    s.Finish? && f.Queue(s.task) != [] ==>
      var w := f.Queue(s.task)[0];
      forall id :: RecordHolds(f.store, w.Slot(), id) ==> Holds(w, id)
  }

  ghost predicate CleanRun(registry: seq<Aggregator>, start: Flow, steps: seq<FlowStep>, n: nat)
    requires n <= |steps|
  {
    n > 0 ==>
      CleanRun(registry, start, steps, n - 1) && Clean(registry, At(registry, start, steps, n - 1), steps[n - 1])
  }

  lemma {:induction false} CleanAt(registry: seq<Aggregator>, start: Flow, steps: seq<FlowStep>, n: nat, j: nat)
    requires j < n <= |steps| && CleanRun(registry, start, steps, n)
    ensures Clean(registry, At(registry, start, steps, j), steps[j])
  {
    if j < n - 1 { CleanAt(registry, start, steps, n - 1, j); }
  }

  lemma {:induction false} UncleanAt(registry: seq<Aggregator>, start: Flow, steps: seq<FlowStep>,
          n: nat) returns (j: nat)
    requires n <= |steps| && !CleanRun(registry, start, steps, n)
    ensures j < n && !Clean(registry, At(registry, start, steps, j), steps[j])
  {
    if !Clean(registry, At(registry, start, steps, n - 1), steps[n - 1]) {
      j := n - 1;
    } else {
      j := UncleanAt(registry, start, steps, n - 1);
    }
  }

  // ---------------------------------------------------------------- nothing lost, nothing invented

  /** The log was in the store or sent at the start, or a task handed it to an aggregator since. */
  ghost predicate Seen(registry: seq<Aggregator>, start: Flow, steps: seq<FlowStep>, n: nat, id: Id)
    requires n <= |steps|
  {
    if n == 0 then HasId(start.store, id) || HasId(start.sent, id)
    else
      || Seen(registry, start, steps, n - 1, id)
      || (steps[n - 1].Handle? && Routed(registry, steps[n - 1].e) && steps[n - 1].e.Identity() == id)
  }

  lemma {:induction false} SeenAt(registry: seq<Aggregator>, start: Flow, steps: seq<FlowStep>, n: nat, i: nat)
    requires i < n <= |steps| && steps[i].Handle? && Routed(registry, steps[i].e)
    ensures Seen(registry, start, steps, n, steps[i].e.Identity())
  {
    if i < n - 1 { SeenAt(registry, start, steps, n - 1, i); }
  }

  ghost predicate Accounted(f: Flow, id: Id) {
    HasId(f.store, id) || HasId(f.sent, id)
  }

  lemma {:induction false} StepKeeps(registry: seq<Aggregator>, f: Flow, s: FlowStep, id: Id)
    requires ValidRegistry(registry) && Sound(registry, f) && Clean(registry, f, s) && Accounted(f, id)
    ensures Accounted(Do(registry, f, s), id)
  {
    var r := Do(registry, f, s);
    InSomeRecord(f.store, id);
    InSomeRecord(r.store, id);
    if slot :| RecordHolds(f.store, slot, id) { StepRecord(registry, f, s, slot, id); }
    if s.Finish? && f.Queue(s.task) != [] {
      var w := f.Queue(s.task)[0];
      assert w in f.Queue(s.task);
      AllKnownAt(registry, f, s.task);
      HasIdConcat(f.sent, [w], id);
      if Holds(w, id) { HasIdMember([w], w, id); }
    }
  }

  lemma {:induction false} AllKnownAt(registry: seq<Aggregator>, f: Flow, t: nat)
    requires Sound(registry, f) && f.Queue(t) != []
    ensures KnownOnly(registry, [f.Queue(t)[0]]) == [f.Queue(t)[0]]
  {
    assert AllKnown(registry, f.open[t]);
    assert f.Queue(t)[0] in f.open[t];
    KnownOnlyAll(registry, [f.Queue(t)[0]]);
  }

  lemma {:induction false} StepStores(registry: seq<Aggregator>, f: Flow, e: Event)
    requires ValidRegistry(registry) && Routed(registry, e)
    ensures Accounted(Do(registry, f, Handle(e)), e.Identity())
  {
    InSomeRecord(Do(registry, f, Handle(e)).store, e.Identity());
    StepRecord(registry, f, Handle(e), SlotFor(registry, f.store, e), e.Identity());
  }

  /** In a clean run every log handed to an aggregator is in a pending window or in one whose
      notifications were all sent. */
  lemma {:induction false} NothingLost(registry: seq<Aggregator>, start: Flow, steps: seq<FlowStep>, n: nat, id: Id)
    requires ValidRegistry(registry) && Sound(registry, start) && n <= |steps|
    requires CleanRun(registry, start, steps, n) && Seen(registry, start, steps, n, id)
    ensures Accounted(At(registry, start, steps, n), id)
  {
    if n > 0 {
      var f := At(registry, start, steps, n - 1);
      AlwaysSound(registry, start, steps, n - 1);
      if Seen(registry, start, steps, n - 1, id) {
        NothingLost(registry, start, steps, n - 1, id);
        StepKeeps(registry, f, steps[n - 1], id);
      } else {
        StepStores(registry, f, steps[n - 1].e);
      }
    }
  }

  /** The same, for a history told as a trail. */
  lemma {:induction false} TrailKeeps(registry: seq<Aggregator>, start: Flow, trail: Trail, e: Event)
    requires ValidRegistry(registry) && Sound(registry, start) && CleanTrail(registry, start, trail)
    requires InTrail(trail, e) && Routed(registry, e)
    ensures Accounted(Reached(registry, start, trail), e.Identity())
  {
    var steps := StepsOf(trail);
    var i := InTrailAt(trail, e);
    SeenAt(registry, start, steps, |steps|, i);
    NothingLost(registry, start, steps, |steps|, e.Identity());
    ReachedIsAt(registry, start, trail);
  }

  ghost predicate CleanTrail(registry: seq<Aggregator>, start: Flow, trail: Trail) {
    CleanRun(registry, start, StepsOf(trail), |StepsOf(trail)|)
  }

  /** The log is somewhere: stored, sent, or in a snapshot. */
  ghost predicate Somewhere(f: Flow, id: Id) {
    Accounted(f, id) || exists t :: t in f.open && HasId(f.open[t], id)
  }

  lemma {:induction false} TailHas(ws: seq<Window>, id: Id)
    requires ws != []
    ensures HasId(ws, id) <==> Holds(ws[0], id) || HasId(ws[1..], id)
  {
    assert ws == [ws[0]] + ws[1..];
    HasIdConcat([ws[0]], ws[1..], id);
    assert HasId([ws[0]], id) <==> Holds(ws[0], id) by {
      if Holds(ws[0], id) { HasIdMember([ws[0]], ws[0], id); }
    }
  }

  lemma {:induction false} StoreInvents(registry: seq<Aggregator>, f: Flow, s: FlowStep, id: Id)
    requires ValidRegistry(registry) && HasId(Do(registry, f, s).store, id)
    ensures HasId(f.store, id) || (s.Handle? && Routed(registry, s.e) && s.e.Identity() == id)
  {
    var r := Do(registry, f, s);
    InSomeRecord(f.store, id);
    InSomeRecord(r.store, id);
    var slot :| RecordHolds(r.store, slot, id);
    StepRecord(registry, f, s, slot, id);
  }

  lemma {:induction false} SentInvents(registry: seq<Aggregator>, f: Flow, t: nat, id: Id)
    requires f.Queue(t) != [] && HasId(Do(registry, f, Finish(t)).sent, id)
    ensures HasId(f.sent, id) || Holds(f.Queue(t)[0], id)
  {
    var w := f.Queue(t)[0];
    HasIdConcat(f.sent, KnownOnly(registry, [w]), id);
    if HasId(KnownOnly(registry, [w]), id) {
      var i :| 0 <= i < |KnownOnly(registry, [w])| && Holds(KnownOnly(registry, [w])[i], id);
      assert KnownOnly(registry, [w]) == [w];
    }
  }

  lemma {:induction false} StepInvents(registry: seq<Aggregator>, f: Flow, s: FlowStep, id: Id)
    requires ValidRegistry(registry) && Somewhere(Do(registry, f, s), id)
    ensures Somewhere(f, id) || (s.Handle? && Routed(registry, s.e) && s.e.Identity() == id)
  {
    var r := Do(registry, f, s);
    if HasId(r.store, id) {
      StoreInvents(registry, f, s, id);
    } else if s.Finish? && f.Queue(s.task) != [] {
      TailHas(f.Queue(s.task), id);
      if HasId(r.sent, id) { SentInvents(registry, f, s.task, id); }
    } else if s.Begin? && HasId(r.open[s.task], id) {
      var i :| 0 <= i < |r.open[s.task]| && Holds(r.open[s.task][i], id);
      ReadyMembers(f.store, s.block);
      assert r.open[s.task][i] in r.open[s.task];
      HasIdMember(f.store, r.open[s.task][i], id);
    }
  }

  /** No run makes a log up. */
  lemma {:induction false} NothingInvented(registry: seq<Aggregator>, start: Flow, steps: seq<FlowStep>, n: nat, id: Id)
    requires ValidRegistry(registry) && start.open == map[] && n <= |steps|
    requires Somewhere(At(registry, start, steps, n), id)
    ensures Seen(registry, start, steps, n, id)
  {
    if n > 0 {
      var f := At(registry, start, steps, n - 1);
      StepInvents(registry, f, steps[n - 1], id);
      if Somewhere(f, id) { NothingInvented(registry, start, steps, n - 1, id); }
    }
  }

  /** In a clean run a log was handed to an aggregator exactly when it is in a pending window or in one
      whose notifications were all sent. */
  lemma {:induction false} EventsAreConserved(registry: seq<Aggregator>, steps: seq<FlowStep>, id: Id)
    requires ValidRegistry(registry) && CleanRun(registry, IDLE, steps, |steps|)
    ensures (exists e :: Routed(registry, e) && Handle(e) in steps && e.Identity() == id)
            <==> Accounted(At(registry, IDLE, steps, |steps|), id)
  {
    SeenIs(registry, steps, |steps|, id);
    assert steps[..|steps|] == steps;
    if Seen(registry, IDLE, steps, |steps|, id) { NothingLost(registry, IDLE, steps, |steps|, id); }
    if Accounted(At(registry, IDLE, steps, |steps|), id) { NothingInvented(registry, IDLE, steps, |steps|, id); }
  }

  /** A process without history. */
  const IDLE := Flow([], [], map[])

  lemma {:induction false} SeenIs(registry: seq<Aggregator>, steps: seq<FlowStep>, n: nat, id: Id)
    requires n <= |steps|
    ensures Seen(registry, IDLE, steps, n, id) <==>
      exists e :: Routed(registry, e) && Handle(e) in steps[..n] && e.Identity() == id
  {
    if n > 0 {
      SeenIs(registry, steps, n - 1, id);
      assert steps[..n] == steps[..n - 1] + [steps[n - 1]];
    }
  }

  // ---------------------------------------------------------------- exactly when a run is clean

  /** Step i stored the log in the record of that storage key. */
  ghost predicate StoredAt(registry: seq<Aggregator>, start: Flow, steps: seq<FlowStep>, i: nat, slot: Slot, id: Id)
    requires i < |steps|
  {
    && steps[i].Handle? && Routed(registry, steps[i].e) && steps[i].e.Identity() == id
    && SlotFor(registry, At(registry, start, steps, i).store, steps[i].e) == slot
  }

  /** Step j discarded the record of that storage key. */
  ghost predicate DiscardsAt(registry: seq<Aggregator>, start: Flow, steps: seq<FlowStep>, j: nat, slot: Slot)
    requires j < |steps|
  {
    steps[j].Finish? &&
    var q := At(registry, start, steps, j).Queue(steps[j].task);
    q != [] && q[0].Slot() == slot
  }

  /** It is the first to do so after step i. */
  ghost predicate NextDiscard(registry: seq<Aggregator>, start: Flow, steps: seq<FlowStep>, i: nat, j: nat, slot: Slot)
    requires i < j < |steps|
  {
    && DiscardsAt(registry, start, steps, j, slot)
    && forall k :: i < k < j ==> !DiscardsAt(registry, start, steps, k, slot)
  }

  lemma {:induction false} StaysStored(registry: seq<Aggregator>, start: Flow, steps: seq<FlowStep>, i: nat, j: nat,
        slot: Slot, id: Id)
    requires ValidRegistry(registry) && i < j <= |steps| && StoredAt(registry, start, steps, i, slot, id)
    requires forall k :: i < k < j ==> !DiscardsAt(registry, start, steps, k, slot)
    ensures RecordHolds(At(registry, start, steps, j).store, slot, id)
    decreases j
  {
    StepRecord(registry, At(registry, start, steps, j - 1), steps[j - 1], slot, id);
    if i < j - 1 {
      assert !DiscardsAt(registry, start, steps, j - 1, slot);
      StaysStored(registry, start, steps, i, j - 1, slot, id);
    }
  }

  lemma {:induction false} WasStored(registry: seq<Aggregator>, steps: seq<FlowStep>, j: nat, slot: Slot, id: Id)
    returns (i: nat)
    requires ValidRegistry(registry) && j <= |steps| && RecordHolds(At(registry, IDLE, steps, j).store, slot, id)
    ensures i < j && StoredAt(registry, IDLE, steps, i, slot, id)
    ensures forall k :: i < k < j ==> !DiscardsAt(registry, IDLE, steps, k, slot)
  {
    StepRecord(registry, At(registry, IDLE, steps, j - 1), steps[j - 1], slot, id);
    if StoredAt(registry, IDLE, steps, j - 1, slot, id) {
      i := j - 1;
    } else {
      i := WasStored(registry, steps, j - 1, slot, id);
    }
  }

  /** No record goes with a log that its flush did not send exactly when, for every log stored, the flush
      that is the next to discard its record has the log in its snapshot. */
  lemma {:induction false} CleanIff(registry: seq<Aggregator>, steps: seq<FlowStep>)
    requires ValidRegistry(registry)
    ensures CleanRun(registry, IDLE, steps, |steps|) <==>
      forall i, j, slot, id :: 0 <= i < j < |steps| && StoredAt(registry, IDLE, steps, i, slot, id)
          && NextDiscard(registry, IDLE, steps, i, j, slot)
        ==> Holds(At(registry, IDLE, steps, j).Queue(steps[j].task)[0], id)
  {
    if CleanRun(registry, IDLE, steps, |steps|) {
      forall i, j, slot, id | 0 <= i < j < |steps| && StoredAt(registry, IDLE, steps, i, slot, id)
          && NextDiscard(registry, IDLE, steps, i, j, slot)
        ensures Holds(At(registry, IDLE, steps, j).Queue(steps[j].task)[0], id)
      {
        StaysStored(registry, IDLE, steps, i, j, slot, id);
        CleanAt(registry, IDLE, steps, |steps|, j);
      }
    } else {
      var j := UncleanAt(registry, IDLE, steps, |steps|);
      var f := At(registry, IDLE, steps, j);
      var slot := f.Queue(steps[j].task)[0].Slot();
      var id :| RecordHolds(f.store, slot, id) && !Holds(f.Queue(steps[j].task)[0], id);
      var i := WasStored(registry, steps, j, slot, id);
      assert NextDiscard(registry, IDLE, steps, i, j, slot);
    }
  }

  // ---------------------------------------------------------------- a condition to check before each step

  /** The event would join, as a new log, a record that a flush in progress has still to discard. */
  ghost predicate Intrudes(registry: seq<Aggregator>, f: Flow, s: FlowStep) {
    s.Handle? && Routed(registry, s.e) &&
    exists t :: t in f.open && Stale(f.open[t], SlotFor(registry, f.store, s.e), s.e.Identity())
  }

  /** A snapshot of that record lacks the log. */
  ghost predicate Stale(q: seq<Window>, slot: Slot, id: Id) {
    exists i :: 0 <= i < |q| && q[i].Slot() == slot && !Holds(q[i], id)
  }

  ghost predicate QuietRun(registry: seq<Aggregator>, start: Flow, steps: seq<FlowStep>, n: nat)
    requires n <= |steps|
  {
    n > 0 ==>
      QuietRun(registry, start, steps, n - 1) && !Intrudes(registry, At(registry, start, steps, n - 1), steps[n - 1])
  }

  lemma {:induction false} IntrusionAt(registry: seq<Aggregator>, start: Flow, steps: seq<FlowStep>, n: nat)
    returns (j: nat)
    requires n <= |steps| && !QuietRun(registry, start, steps, n)
    ensures j < n && Intrudes(registry, At(registry, start, steps, j), steps[j])
  {
    if Intrudes(registry, At(registry, start, steps, n - 1), steps[n - 1]) {
      j := n - 1;
    } else {
      j := IntrusionAt(registry, start, steps, n - 1);
    }
  }

  /** Every snapshot has all that its record holds. */
  ghost predicate UpToDate(f: Flow) {
    forall t, slot, id :: t in f.open && RecordHolds(f.store, slot, id) ==> !Stale(f.open[t], slot, id)
  }

  lemma {:induction false} BeginUpToDate(registry: seq<Aggregator>, store: seq<Window>, block: int, slot: Slot, id: Id)
    requires Settled(registry, store) && RecordHolds(store, slot, id)
    ensures !Stale(Ready(store, block), slot, id)
  {
    var ready := Ready(store, block);
    ReadyMembers(store, block);
    forall i | 0 <= i < |ready| && ready[i].Slot() == slot ensures Holds(ready[i], id) {
      assert ready[i] in ready;
      RecordIs(registry, store, ready[i], id);
    }
  }

  lemma {:induction false} StaleTail(q: seq<Window>, slot: Slot, id: Id)
    requires q != [] && Stale(q[1..], slot, id)
    ensures Stale(q, slot, id)
  {
    var i :| 0 <= i < |q[1..]| && q[1..][i].Slot() == slot && !Holds(q[1..][i], id);
    assert q[i + 1].Slot() == slot;
  }

  lemma {:induction false} StepUpToDate(registry: seq<Aggregator>, f: Flow, s: FlowStep)
    requires ValidRegistry(registry) && Sound(registry, f) && UpToDate(f) && !Intrudes(registry, f, s)
    ensures Clean(registry, f, s) && UpToDate(Do(registry, f, s))
  {
    var r := Do(registry, f, s);
    forall t, slot, id | t in r.open && RecordHolds(r.store, slot, id) ensures !Stale(r.open[t], slot, id) {
      StepRecord(registry, f, s, slot, id);
      if s.Begin? && t == s.task {
        BeginUpToDate(registry, f.store, s.block, slot, id);
      } else if s.Finish? && t == s.task && f.Queue(t) != [] && Stale(r.open[t], slot, id) {
        StaleTail(f.open[t], slot, id);
      }
    }
    if s.Finish? && f.Queue(s.task) != [] {
      var q := f.Queue(s.task);
      forall id | RecordHolds(f.store, q[0].Slot(), id) ensures Holds(q[0], id) {
        assert !Stale(f.open[s.task], q[0].Slot(), id);
      }
    }
  }

  /** However many flushes are in progress: as long as no event joins a record behind the back of one of
      them, no flush discards what it did not send. */
  lemma {:induction false} QuietRunsAreClean(registry: seq<Aggregator>, start: Flow, steps: seq<FlowStep>, n: nat)
    requires ValidRegistry(registry) && Sound(registry, start) && UpToDate(start) && n <= |steps|
    requires QuietRun(registry, start, steps, n)
    ensures CleanRun(registry, start, steps, n) && UpToDate(At(registry, start, steps, n))
  {
    if n > 0 {
      var f := At(registry, start, steps, n - 1);
      QuietRunsAreClean(registry, start, steps, n - 1);
      AlwaysSound(registry, start, steps, n - 1);
      StepUpToDate(registry, f, steps[n - 1]);
    }
  }

  ghost predicate NoFlush(f: Flow) {
    forall t :: t in f.open ==> f.open[t] == []
  }

  /** One flush at a time, and the sink does not raise. */
  ghost predicate OneByOne(registry: seq<Aggregator>, start: Flow, steps: seq<FlowStep>, n: nat)
    requires n <= |steps|
  {
    n > 0 ==>
      && OneByOne(registry, start, steps, n - 1) && !steps[n - 1].Raise?
      && (steps[n - 1].Begin? ==> NoFlush(At(registry, start, steps, n - 1)))
  }

  /** At most one flush is in progress, on records of distinct storage keys. */
  ghost predicate OneOpen(f: Flow) {
    && (forall t, u :: t in f.open && u in f.open && f.open[t] != [] && f.open[u] != [] ==> t == u)
    && (forall t :: t in f.open ==> Apart(f.open[t]))
  }

  lemma {:induction false} OneByOneOpen(registry: seq<Aggregator>, start: Flow, steps: seq<FlowStep>, n: nat)
    requires ValidRegistry(registry) && Sound(registry, start) && start.open == map[] && n <= |steps|
    requires OneByOne(registry, start, steps, n)
    ensures OneOpen(At(registry, start, steps, n))
  {
    if n > 0 {
      var f := At(registry, start, steps, n - 1);
      OneByOneOpen(registry, start, steps, n - 1);
      AlwaysSound(registry, start, steps, n - 1);
      if steps[n - 1].Begin? { ReadyApart(registry, f.store, steps[n - 1].block); }
    }
  }

  /** The record holds a log that the one flush in progress will not send with it. */
  ghost predicate Doomed(f: Flow, t: nat, slot: Slot, id: Id) {
    t in f.open && Stale(f.open[t], slot, id) && RecordHolds(f.store, slot, id)
  }

  lemma {:induction false} StillDoomed(registry: seq<Aggregator>, f: Flow, s: FlowStep, t: nat, slot: Slot, id: Id)
    requires ValidRegistry(registry) && OneOpen(f) && Doomed(f, t, slot, id)
    requires !s.Raise? && (s.Begin? ==> NoFlush(f)) && Clean(registry, f, s)
    ensures Doomed(Do(registry, f, s), t, slot, id)
  {
    StepRecord(registry, f, s, slot, id);
    var q := f.open[t];
    var i :| 0 <= i < |q| && q[i].Slot() == slot && !Holds(q[i], id);
    if s.Finish? && f.Queue(s.task) != [] {
      assert s.task == t;
      assert i > 0;
      assert q[1..][i - 1] == q[i] && q[0].Slot() != q[i].Slot();
    }
  }

  /** When flushes follow one another and all get through, the condition is exact: nothing is discarded
      unsent if and only if no event joined a record behind the back of the flush in progress. */
  lemma {:induction false} CleanIffQuiet(registry: seq<Aggregator>, start: Flow, steps: seq<FlowStep>)
    requires ValidRegistry(registry) && Sound(registry, start) && start.open == map[]
    requires OneByOne(registry, start, steps, |steps|) && NoFlush(At(registry, start, steps, |steps|))
    ensures CleanRun(registry, start, steps, |steps|) <==> QuietRun(registry, start, steps, |steps|)
  {
    if QuietRun(registry, start, steps, |steps|) {
      QuietRunsAreClean(registry, start, steps, |steps|);
    } else if CleanRun(registry, start, steps, |steps|) {
      var j := IntrusionAt(registry, start, steps, |steps|);
      var f, e := At(registry, start, steps, j), steps[j].e;
      var slot, id := SlotFor(registry, f.store, e), e.Identity();
      var t :| t in f.open && Stale(f.open[t], slot, id);
      StepRecord(registry, f, steps[j], slot, id);
      DoomedToTheEnd(registry, start, steps, j + 1, |steps|, t, slot, id);
      assert false;
    }
  }

  lemma {:induction false} DoomedToTheEnd(registry: seq<Aggregator>, start: Flow, steps: seq<FlowStep>, j: nat, n: nat,
        t: nat, slot: Slot, id: Id)
    requires ValidRegistry(registry) && Sound(registry, start) && start.open == map[] && j <= n <= |steps|
    requires OneByOne(registry, start, steps, n) && CleanRun(registry, start, steps, n)
    requires Doomed(At(registry, start, steps, j), t, slot, id)
    ensures Doomed(At(registry, start, steps, n), t, slot, id)
  {
    if j < n {
      DoomedToTheEnd(registry, start, steps, j, n - 1, t, slot, id);
      OneByOneOpen(registry, start, steps, n - 1);
      StillDoomed(registry, At(registry, start, steps, n - 1), steps[n - 1], t, slot, id);
    }
  }

  // ---------------------------------------------------------------- one window for each log

  /** Every stored event was really handed over. */
  lemma {:induction false} StoredWasTaken(registry: seq<Aggregator>, steps: seq<FlowStep>, n: nat, e: Event)
    requires ValidRegistry(registry) && n <= |steps| && e in EventsIn(At(registry, IDLE, steps, n).store)
    ensures Routed(registry, e) && Handle(e) in steps
    decreases n
  {
    var f, s := At(registry, IDLE, steps, n - 1), steps[n - 1];
    AlwaysSound(registry, IDLE, steps, n - 1);
    if s.Handle? && Routed(registry, s.e) {
      OnEventIsAddTo(registry, f.store, s.e);
      AddToEvents(registry, f.store, s.e);
    } else if s.Finish? && f.Queue(s.task) != [] {
      DiscardSettled(registry, f.store, f.Queue(s.task)[0]);
    }
    if e in EventsIn(f.store) { StoredWasTaken(registry, steps, n - 1, e); }
  }

  lemma {:induction false} SameLogFits(registry: seq<Aggregator>, w: Window, e: Event, f: Event)
    requires SameLog(registry, e, f)
    ensures Fits(registry, w, e) <==> Fits(registry, w, f)
  {
  }

  lemma {:induction false} SharedLog(registry: seq<Aggregator>, store: seq<Window>, i: nat, j: nat, e: Event, f: Event)
    requires Settled(registry, store) && i < |store| && j < |store| && SameLog(registry, e, f)
    requires e in store[i].events && f in store[j].events
    ensures i == j
  {
    SameLogFits(registry, store[i], e, f);
    SameLogFits(registry, store[j], e, f);
    if i <= j {
      SettledAt(registry, store, i, i);
      SettledAt(registry, store, i, j);
    } else {
      SettledAt(registry, store, j, j);
      SettledAt(registry, store, j, i);
    }
  }

  /** No log identity sits in two pending windows, even when late events made windows overlap. Events of one
      identity are the same log, decoded again; the rest of them may differ. */
  lemma {:induction false} OnePendingWindowPerLog(registry: seq<Aggregator>, steps: seq<FlowStep>, i: nat, j: nat,
        x: nat, y: nat)
    requires ValidRegistry(registry)
    requires forall e, f ::
      Handle(e) in steps && Handle(f) in steps && e.Identity() == f.Identity() ==> SameLog(registry, e, f)
    requires var s := At(registry, IDLE, steps, |steps|).store;
             && i < |s| && j < |s| && x < |s[i].events| && y < |s[j].events|
             && s[i].events[x].Identity() == s[j].events[y].Identity()
    ensures i == j
  {
    var s := At(registry, IDLE, steps, |steps|).store;
    var e, f := s[i].events[x], s[j].events[y];
    assert s[i] in s && e in s[i].events && s[j] in s && f in s[j].events;
    StoredWasTaken(registry, steps, |steps|, e);
    StoredWasTaken(registry, steps, |steps|, f);
    AlwaysSound(registry, IDLE, steps, |steps|);
    SharedLog(registry, s, i, j, e, f);
  }

  /** While the window holding it is pending, handing a log over again changes nothing at all, whatever
      flushes are in progress. */
  lemma {:induction false} RedeliveryChangesNothing(registry: seq<Aggregator>, steps: seq<FlowStep>, e: Event, f: Event)
    requires ValidRegistry(registry) && e in EventsIn(At(registry, IDLE, steps, |steps|).store)
    requires SameLog(registry, e, f)
    ensures At(registry, IDLE, steps + [Handle(f)], |steps| + 1) == At(registry, IDLE, steps, |steps|)
  {
    var s := At(registry, IDLE, steps, |steps|).store;
    AlwaysSound(registry, IDLE, steps, |steps|);
    StoredWasTaken(registry, steps, |steps|, e);
    AtNext(registry, IDLE, steps, Handle(f));
    OnEventIsAddTo(registry, s, f);
    RedeliveryIsNoOp(registry, s, e, f);
  }
}
