/** Checkpoint coverage across crashes: in any order of logs, with flushes of any tasks in between, with
    digests, and with a snapshot at any step, every chain log at or below the checkpoint of a snapshot was
    sent or is in that snapshot's windows or digest; so a restart at checkpoint + 1 loses nothing
    (sentinel/services/subscription.py, sentinel/services/digest.py, sentinel/app/storage.py). */
module Resume {
  import opened Events
  import opened Sorting
  import opened Windows
  import opened Partition
  import opened Batching
  import opened Flows
  import opened Conservation
  import opened Interleavings
  import opened Feed
  import opened Coverage
  import opened HandOver
  import opened Reconnect
  import D = Digests

  // ---------------------------------------------------------------- the state and its steps

  /** Windows, logs sent on their own, the stored digest and the digests sent, and the checkpoint. */
  datatype State = State(flow: Flow, direct: seq<Event>, digest: seq<Event>, digests: seq<Notification>,
    processed: int)

  /** A log is handled or the checkpoint moves over a block; a task takes a step of a flush; the digest is
      sent, unless that fails. */
  datatype Act = Deliver(item: Item) | Task(step: FlowStep) | SendDigest(ok: bool)

  /** `digestName` is the one event name that the digest takes. */
  function Handled(registry: seq<Aggregator>, digestName: string, s: State, e: Event): State {
    if e.name == digestName then s.(digest := D.Stored(s.digest + [e]))
    else if Routed(registry, e) then s.(flow := Do(registry, s.flow, Handle(e)))
    else s.(direct := s.direct + [e])
  }

  function DigestSent(s: State): State {
    var ready := D.ReadyThrough(s.digest, s.processed);
    if ready == [] then s
    else s.(digest := D.Stored(D.Dropped(s.digest, ready)), digests := s.digests + [Notification(ready)])
  }

  function After(registry: seq<Aggregator>, digestName: string, s: State, act: Act): State {
    match act
    case Deliver(Log(e)) => Handled(registry, digestName, s, e)
    case Deliver(Mark(n)) => if n > s.processed then s.(processed := n) else s
    case Task(step) => s.(flow := Do(registry, s.flow, step))
    case SendDigest(ok) => if ok then DigestSent(s) else s
  }

  function Upto(registry: seq<Aggregator>, digestName: string, s: State, acts: seq<Act>, n: nat): State
    requires n <= |acts|
  {
    if n == 0 then s else After(registry, digestName, Upto(registry, digestName, s, acts, n - 1), acts[n - 1])
  }

  /** What the first n acts delivered. */
  function Delivered(acts: seq<Act>, n: nat): seq<Item>
    requires n <= |acts|
  {
    if n == 0 then []
    else Delivered(acts, n - 1) + (if acts[n - 1].Deliver? then [acts[n - 1].item] else [])
  }

  /** The log is where it belongs: in the digest or a digest sent, in a pending window or one wholly sent, or
      sent on its own. */
  ghost predicate Kept(registry: seq<Aggregator>, digestName: string, s: State, e: Event) {
    if e.name == digestName then D.KeptBy(s.digest, s.digests, e.Identity())
    else if Routed(registry, e) then Accounted(s.flow, e.Identity())
    else e in s.direct
  }

  ghost predicate Good(registry: seq<Aggregator>, s: State) {
    Sound(registry, s.flow) && D.Tidy(s.digest)
  }

  /** No flush discards a log that it did not send. */
  ghost predicate CleanActs(registry: seq<Aggregator>, digestName: string, s: State, acts: seq<Act>, n: nat)
    requires n <= |acts|
  {
    n > 0 ==>
      && CleanActs(registry, digestName, s, acts, n - 1)
      && (acts[n - 1].Task? ==>
           Clean(registry, Upto(registry, digestName, s, acts, n - 1).flow, acts[n - 1].step))
  }

  // ---------------------------------------------------------------- one act

  lemma {:induction false} DigestGains(stored: seq<Event>, e: Event)
    requires D.Tidy(stored)
    ensures var r := D.Stored(stored + [e]);
            D.Tidy(r) && forall id :: D.Has(r, id) <==> D.Has(stored, id) || id == e.Identity()
  {
    var r := D.Stored(stored + [e]);
    D.StoredIsTidy(stored + [e]);
    D.LastOfUnique(stored);
    forall x ensures x in r <==> x == e || (x in stored && x.Identity() != e.Identity()) {
      D.LastOfSnoc(stored, e, x);
    }
    forall id ensures D.Has(r, id) <==> D.Has(stored, id) || id == e.Identity() { D.StillThere(stored, e, r, id); }
  }

  lemma {:induction false} DigestSends(stored: seq<Event>, sent: seq<Notification>, block: int)
    requires D.Tidy(stored)
    ensures var ready := D.ReadyThrough(stored, block);
            var rest := D.Stored(D.Dropped(stored, ready));
            && D.Tidy(rest)
            && forall id :: D.KeptBy(stored, sent, id) ==> D.KeptBy(rest, sent + [Notification(ready)], id)
  {
    var ready := D.ReadyThrough(stored, block);
    var rest := D.Stored(D.Dropped(stored, ready));
    D.FilteredMembers(D.NotOf(ready), stored);
    D.StoredIsTidy(D.Dropped(stored, ready));
    D.LastOfUnique(D.Dropped(stored, ready));
    forall id | D.KeptBy(stored, sent, id) ensures D.KeptBy(rest, sent + [Notification(ready)], id) {
      D.SentOrKept(stored, rest, ready, sent, id);
    }
  }

  /** A digest is sent exactly when something stored is processed; it holds exactly that, and the rest
      stays stored. */
  lemma {:induction false} DigestSentIs(s: State)
    requires D.Tidy(s.digest)
    ensures DigestSent(s) == s <==> forall x :: x in s.digest ==> x.block > s.processed
    ensures DigestSent(s) != s ==>
      var digests := DigestSent(s).digests;
      && |digests| == |s.digests| + 1 && s.digests <= digests
      && D.IsDigest(digests[|s.digests|].sources, s.digest, s.processed)
      && forall x :: x in DigestSent(s).digest <==> x in s.digest && x.block > s.processed
    ensures DigestSent(s).(digest := s.digest, digests := s.digests) == s
  {
    var ready := D.ReadyThrough(s.digest, s.processed);
    D.ReadyIs(s.digest, s.processed);
    D.FilteredMembers(D.NotOf(ready), s.digest);
    D.StoredIsTidy(D.Dropped(s.digest, ready));
    D.LastOfUnique(D.Dropped(s.digest, ready));
    if ready != [] {
      assert DigestSent(s).digests[|s.digests|] == Notification(ready);
      forall x ensures x in DigestSent(s).digest <==> x in s.digest && x.block > s.processed {
        if x in s.digest && x.block > s.processed { NotReady(s.digest, s.processed, x); }
        if x in s.digest && x.block <= s.processed { D.StillHas(ready); }
      }
    }
  }

  lemma {:induction false} NotReady(stored: seq<Event>, block: int, x: Event)
    requires D.UniqueIdentities(stored) && x in stored && x.block > block
    ensures !D.Has(D.ReadyThrough(stored, block), x.Identity())
  {
    var ready := D.ReadyThrough(stored, block);
    D.ReadyIs(stored, block);
    forall k | 0 <= k < |ready| ensures ready[k].Identity() != x.Identity() { assert ready[k] in ready; }
  }

  lemma {:induction false} ActKeeps(registry: seq<Aggregator>, digestName: string, s: State, act: Act, e: Event)
    requires ValidRegistry(registry) && Good(registry, s) && (act.Task? ==> Clean(registry, s.flow, act.step))
    ensures Good(registry, After(registry, digestName, s, act))
    ensures Kept(registry, digestName, s, e) ==> Kept(registry, digestName, After(registry, digestName, s, act), e)
  {
    match act {
      case Deliver(Log(x)) =>
        if x.name == digestName {
          DigestGains(s.digest, x);
        } else if Routed(registry, x) {
          FlowKeeps(registry, s.flow, Handle(x), e.Identity());
        }
      case Deliver(Mark(_)) =>
      case Task(step) =>
        FlowKeeps(registry, s.flow, step, e.Identity());
      case SendDigest(_) =>
        DigestSends(s.digest, s.digests, s.processed);
    }
  }

  lemma {:induction false} FlowKeeps(registry: seq<Aggregator>, f: Flow, step: FlowStep, id: Id)
    requires ValidRegistry(registry) && Sound(registry, f) && Clean(registry, f, step)
    ensures Sound(registry, Do(registry, f, step))
    ensures Accounted(f, id) ==> Accounted(Do(registry, f, step), id)
  {
    DoSound(registry, f, step);
    if Accounted(f, id) { StepKeeps(registry, f, step, id); }
  }

  /** A log that was handled is where it belongs. */
  lemma {:induction false} HandledIsKept(registry: seq<Aggregator>, digestName: string, s: State, e: Event)
    requires ValidRegistry(registry) && Good(registry, s)
    ensures Kept(registry, digestName, Handled(registry, digestName, s, e), e)
  {
    if e.name == digestName {
      DigestGains(s.digest, e);
    } else if Routed(registry, e) {
      StepStores(registry, s.flow, e);
    }
  }

  // ---------------------------------------------------------------- one process

  lemma {:induction false} ActsKeep(registry: seq<Aggregator>, digestName: string, s: State, acts: seq<Act>, n: nat,
        e: Event)
    requires ValidRegistry(registry) && Good(registry, s) && n <= |acts|
    requires CleanActs(registry, digestName, s, acts, n)
    ensures Good(registry, Upto(registry, digestName, s, acts, n))
    ensures Kept(registry, digestName, s, e) || Log(e) in Delivered(acts, n) ==>
      Kept(registry, digestName, Upto(registry, digestName, s, acts, n), e)
  {
    if n > 0 {
      var front := Upto(registry, digestName, s, acts, n - 1);
      ActsKeep(registry, digestName, s, acts, n - 1, e);
      ActKeeps(registry, digestName, front, acts[n - 1], e);
      if acts[n - 1] == Deliver(Log(e)) { HandledIsKept(registry, digestName, front, e); }
    }
  }

  lemma {:induction false} ProcessedIs(registry: seq<Aggregator>, digestName: string, s: State, acts: seq<Act>, n: nat)
    requires n <= |acts|
    ensures Upto(registry, digestName, s, acts, n).processed == CheckpointFrom(s.processed, Delivered(acts, n))
  {
    if n > 0 {
      var front, items := Upto(registry, digestName, s, acts, n - 1), Delivered(acts, n - 1);
      ProcessedIs(registry, digestName, s, acts, n - 1);
      NextProcessed(registry, digestName, s.processed, front, items, acts[n - 1]);
      assert Delivered(acts, n) == items + (if acts[n - 1].Deliver? then [acts[n - 1].item] else []);
    }
  }

  lemma {:induction false} NextProcessed(registry: seq<Aggregator>, digestName: string, start: int, front: State,
        items: seq<Item>, act: Act)
    requires front.processed == CheckpointFrom(start, items)
    ensures After(registry, digestName, front, act).processed
      == CheckpointFrom(start, items + (if act.Deliver? then [act.item] else []))
  {
    if act.Deliver? { CheckpointNext(start, items, act.item); } else { assert items + [] == items; }
  }

  lemma {:induction false} CheckpointNext(start: int, items: seq<Item>, x: Item)
    ensures CheckpointFrom(start, items + [x]) ==
      if x.Mark? && x.number > CheckpointFrom(start, items) then x.number else CheckpointFrom(start, items)
  {
    assert (items + [x])[..|items|] == items;
  }

  lemma {:induction false} DeliveredGrows(acts: seq<Act>, m: nat, n: nat)
    requires m <= n <= |acts|
    ensures Delivered(acts, m) <= Delivered(acts, n)
  {
    if m < n { DeliveredGrows(acts, m, n - 1); }
  }

  /** Every chain log above the base and at or below the checkpoint is where it belongs. */
  ghost predicate Secured(registry: seq<Aggregator>, digestName: string, chain: seq<Event>, base: int, s: State) {
    forall x :: x in chain && base < x.block <= s.processed ==> Kept(registry, digestName, s, x)
  }

  lemma {:induction false} ProcessSecured(registry: seq<Aggregator>, digestName: string, chain: seq<Event>, base: int,
        s: State, acts: seq<Act>, n: nat, trace: seq<Item>)
    requires ValidRegistry(registry) && Good(registry, s) && Secured(registry, digestName, chain, base, s)
    requires n <= |acts| && CleanActs(registry, digestName, s, acts, n)
    requires Delivered(acts, |acts|) <= trace && MarksCover(chain, s.processed, trace)
    ensures Secured(registry, digestName, chain, base, Upto(registry, digestName, s, acts, n))
  {
    var d, now := Delivered(acts, n), Upto(registry, digestName, s, acts, n);
    DeliveredGrows(acts, n, |acts|);
    MarksCoverPrefix(chain, s.processed, d, trace);
    CheckpointClaims(chain, s.processed, d);
    ProcessedIs(registry, digestName, s, acts, n);
    forall x | x in chain && base < x.block <= now.processed ensures Kept(registry, digestName, now, x) {
      ActsKeep(registry, digestName, s, acts, n, x);
      if x.block > s.processed { assert Log(x) in d; }
    }
  }

  // ---------------------------------------------------------------- crashes

  /** What the next process finds: what was sent stays sent, the rest is as the snapshot has it, and no flush
      is in progress. */
  function Crashed(snapshot: State, end: State): State {
    State(Flow(snapshot.flow.store, end.flow.sent, map[]), end.direct, snapshot.digest, end.digests,
      snapshot.processed)
  }

  /** More was sent. */
  ghost predicate Outgrows(s: State, t: State) {
    s.flow.sent <= t.flow.sent && s.direct <= t.direct && s.digests <= t.digests
  }

  lemma {:induction false} SentGrows(registry: seq<Aggregator>, digestName: string, s: State, acts: seq<Act>, m: nat,
        n: nat)
    requires m <= n <= |acts|
    ensures Outgrows(Upto(registry, digestName, s, acts, m), Upto(registry, digestName, s, acts, n))
  {
    if m < n { SentGrows(registry, digestName, s, acts, m, n - 1); }
  }

  lemma {:induction false} CrashKeeps(registry: seq<Aggregator>, digestName: string, s: State, t: State, e: Event)
    requires Good(registry, s) && Outgrows(s, t)
    ensures Good(registry, Crashed(s, t))
    ensures Kept(registry, digestName, s, e) ==> Kept(registry, digestName, Crashed(s, t), e)
  {
    assert t.flow.sent == s.flow.sent + t.flow.sent[|s.flow.sent|..];
    HasIdConcat(s.flow.sent, t.flow.sent[|s.flow.sent|..], e.Identity());
    if D.HasSent(s.digests, e.Identity()) {
      var k :| 0 <= k < |s.digests| && D.Has(s.digests[k].sources, e.Identity());
      assert t.digests[k] == s.digests[k];
    }
  }

  // ---------------------------------------------------------------- any number of processes

  /** A process or connection: what the environment had in store, what was handed over to the consumer, what
      the program did, and after how many of its acts the last snapshot was taken. */
  datatype Session = Session(plan: Plan, batch: int, contact: Contact, acts: seq<Act>, kept: nat)

  /** It resumes at checkpoint + 1; no head comes before its replay buffers, a feed marks a block only after
      its logs, and the head it reads is no lower than the checkpoint. What it handled is what was handed
      over, up to where it died. */
  ghost predicate SessionFrom(registry: seq<Aggregator>, digestName: string, chain: seq<Event>, s: State, x: Session) {
    && x.batch >= 1 && s.processed <= x.plan.head && NoHeads(x.plan.Early())
    && MarksCover(chain, x.plan.head, x.plan.Stream())
    && Follows(chain, x.batch, s.processed + 1, x.plan, x.contact)
    && Delivered(x.acts, |x.acts|) <= x.contact.Trace() && x.kept <= |x.acts|
    && CleanActs(registry, digestName, s, x.acts, |x.acts|)
  }

  /** What the n-th session finds. */
  function Found(registry: seq<Aggregator>, digestName: string, s: State, sessions: seq<Session>, n: nat): State
    requires n <= |sessions|
  {
    if n == 0 then s
    else NextFound(registry, digestName, Found(registry, digestName, s, sessions, n - 1), sessions[n - 1])
  }

  /** What the session after it finds. */
  function NextFound(registry: seq<Aggregator>, digestName: string, found: State, x: Session): State {
    var kept := if x.kept <= |x.acts| then x.kept else |x.acts|;
    Crashed(Upto(registry, digestName, found, x.acts, kept), Upto(registry, digestName, found, x.acts, |x.acts|))
  }

  ghost predicate Sessions(registry: seq<Aggregator>, digestName: string, chain: seq<Event>, s: State,
                           sessions: seq<Session>)
  {
    forall i :: 0 <= i < |sessions| ==> SessionAt(registry, digestName, chain, s, sessions, i)
  }

  ghost predicate SessionAt(registry: seq<Aggregator>, digestName: string, chain: seq<Event>, s: State,
                            sessions: seq<Session>, i: nat)
    requires i < |sessions|
  {
    SessionFrom(registry, digestName, chain, Found(registry, digestName, s, sessions, i), sessions[i])
  }

  lemma {:induction false} CleanPrefix(registry: seq<Aggregator>, digestName: string, s: State, acts: seq<Act>, m: nat,
        n: nat)
    requires m <= n <= |acts| && CleanActs(registry, digestName, s, acts, n)
    ensures CleanActs(registry, digestName, s, acts, m)
  {
    if m < n { CleanPrefix(registry, digestName, s, acts, m, n - 1); }
  }

  lemma {:induction false} SessionSecured(registry: seq<Aggregator>, digestName: string, chain: seq<Event>, base: int,
        s: State, x: Session, k: nat)
    requires ValidRegistry(registry) && ChainOrdered(chain) && Good(registry, s)
    requires Secured(registry, digestName, chain, base, s) && SessionFrom(registry, digestName, chain, s, x)
    requires k <= |x.acts|
    ensures Good(registry, Upto(registry, digestName, s, x.acts, k))
    ensures Secured(registry, digestName, chain, base, Upto(registry, digestName, s, x.acts, k))
    ensures Upto(registry, digestName, s, x.acts, k).processed >= s.processed
  {
    var c := x.contact;
    ContactMarksCover(chain, x.batch, s.processed, x.plan, c);
    MarksCoverConcat(chain, s.processed, c.early, s.processed, c.handed + c.live + c.later);
    CleanPrefix(registry, digestName, s, x.acts, k, |x.acts|);
    ProcessSecured(registry, digestName, chain, base, s, x.acts, k, c.Trace());
    ProcessedIs(registry, digestName, s, x.acts, k);
    ActsKeep(registry, digestName, s, x.acts, k, SOME);
  }

  const SOME := Event("", 0, 0, "", 0, 0, 0, "", "")

  lemma {:induction false} NextFinds(registry: seq<Aggregator>, digestName: string, chain: seq<Event>, base: int,
        first: State, s: State, x: Session)
    requires ValidRegistry(registry) && ChainOrdered(chain) && Fine(registry, digestName, chain, base, first, s)
    requires SessionFrom(registry, digestName, chain, s, x)
    ensures Fine(registry, digestName, chain, base, first, NextFound(registry, digestName, s, x))
  {
    var snapshot, end := Upto(registry, digestName, s, x.acts, x.kept), Upto(registry, digestName, s, x.acts, |x.acts|);
    SessionSecured(registry, digestName, chain, base, s, x, x.kept);
    SentGrows(registry, digestName, s, x.acts, x.kept, |x.acts|);
    forall e ensures Good(registry, Crashed(snapshot, end))
      ensures Kept(registry, digestName, snapshot, e) ==> Kept(registry, digestName, Crashed(snapshot, end), e)
    {
      CrashKeeps(registry, digestName, snapshot, end, e);
    }
    CrashKeeps(registry, digestName, snapshot, end, SOME);
  }

  /** The state is well-formed, secured, and its checkpoint no lower than at the start. */
  ghost predicate Fine(registry: seq<Aggregator>, digestName: string, chain: seq<Event>, base: int, s: State,
                       found: State)
  {
    Good(registry, found) && Secured(registry, digestName, chain, base, found) && found.processed >= s.processed
  }

  /** However often the process dies, wherever, and whichever step its last snapshot was taken at: at every
      step of every session each chain log at or below the checkpoint was sent or is still stored, and the
      checkpoints found never go back. */
  lemma {:induction false} ResumeLosesNothing(registry: seq<Aggregator>, digestName: string, chain: seq<Event>,
        base: int, s: State, sessions: seq<Session>, n: nat, k: nat)
    requires ValidRegistry(registry) && ChainOrdered(chain) && Good(registry, s)
    requires Secured(registry, digestName, chain, base, s) && Sessions(registry, digestName, chain, s, sessions)
    requires n < |sessions| && k <= |sessions[n].acts|
    ensures var found := Found(registry, digestName, s, sessions, n);
            var now := Upto(registry, digestName, found, sessions[n].acts, k);
            Secured(registry, digestName, chain, base, now) && now.processed >= found.processed >= s.processed
  {
    EveryFindGood(registry, digestName, chain, base, s, sessions, n);
    assert SessionAt(registry, digestName, chain, s, sessions, n);
    SessionSecured(registry, digestName, chain, base, Found(registry, digestName, s, sessions, n), sessions[n], k);
  }

  /** The checkpoint that a process finds never lies below one found before. */
  lemma {:induction false} FoundNeverBack(registry: seq<Aggregator>, digestName: string, s: State,
        sessions: seq<Session>, m: nat, n: nat)
    requires m <= n <= |sessions|
    ensures CheckpointFound(registry, digestName, s, sessions, m)
         <= CheckpointFound(registry, digestName, s, sessions, n)
  {
    if m < n {
      FoundNeverBack(registry, digestName, s, sessions, m, n - 1);
      NextNotLower(registry, digestName, s, sessions, n);
    }
  }

  function CheckpointFound(registry: seq<Aggregator>, digestName: string, s: State, sessions: seq<Session>, n: nat): int
    requires n <= |sessions|
  {
    Found(registry, digestName, s, sessions, n).processed
  }

  lemma {:induction false} NextNotLower(registry: seq<Aggregator>, digestName: string, s: State,
        sessions: seq<Session>, n: nat)
    requires 0 < n <= |sessions|
    ensures CheckpointFound(registry, digestName, s, sessions, n - 1)
         <= CheckpointFound(registry, digestName, s, sessions, n)
  {
    var x := sessions[n - 1];
    ProcessedIs(registry, digestName, Found(registry, digestName, s, sessions, n - 1), x.acts,
      if x.kept <= |x.acts| then x.kept else |x.acts|);
  }

  lemma {:induction false} EveryFindGood(registry: seq<Aggregator>, digestName: string, chain: seq<Event>, base: int,
        s: State, sessions: seq<Session>, n: nat)
    requires ValidRegistry(registry) && ChainOrdered(chain) && Good(registry, s)
    requires Secured(registry, digestName, chain, base, s) && Sessions(registry, digestName, chain, s, sessions)
    requires n <= |sessions|
    ensures Fine(registry, digestName, chain, base, s, Found(registry, digestName, s, sessions, n))
  {
    if n > 0 {
      EveryFindGood(registry, digestName, chain, base, s, sessions, n - 1);
      assert SessionAt(registry, digestName, chain, s, sessions, n - 1);
      NextFinds(registry, digestName, chain, base, s, Found(registry, digestName, s, sessions, n - 1), sessions[n - 1]);
    }
  }

  // ---------------------------------------------------------------- the windows of a process

  function Tasks(steps: seq<FlowStep>): seq<Act> {
    if steps == [] then [] else Tasks(steps[..|steps| - 1]) + [Task(steps[|steps| - 1])]
  }

  /** What the program does with one item when the sink never suspends: a mark is one whole flush, and then
      the checkpoint moves. */
  function ItemActs(s: State, item: Item): seq<Act> {
    match item
    case Log(_) => [Deliver(item)]
    case Mark(n) => FlushActs(s, n) + [Deliver(item)]
  }

  function Promptly(registry: seq<Aggregator>, digestName: string, s: State, items: seq<Item>): seq<Act> {
    if items == [] then [] else
    var front := Promptly(registry, digestName, s, items[..|items| - 1]);
    front + ItemActs(Upto(registry, digestName, s, front, |front|), items[|items| - 1])
  }

  lemma {:induction false} UptoConcat(registry: seq<Aggregator>, digestName: string, s: State, a: seq<Act>, b: seq<Act>,
        n: nat)
    requires n <= |b|
    ensures Upto(registry, digestName, s, a + b, |a| + n)
      == Upto(registry, digestName, Upto(registry, digestName, s, a, |a|), b, n)
    ensures CleanActs(registry, digestName, s, a, |a|)
            && CleanActs(registry, digestName, Upto(registry, digestName, s, a, |a|), b, n)
        ==> CleanActs(registry, digestName, s, a + b, |a| + n)
  {
    if n == 0 {
      FirstActs(registry, digestName, s, a, b, |a|);
    } else {
      UptoConcat(registry, digestName, s, a, b, n - 1);
      assert (a + b)[|a| + n - 1] == b[n - 1];
    }
  }

  lemma {:induction false} DeliveredConcat(a: seq<Act>, b: seq<Act>, n: nat)
    requires n <= |b|
    ensures Delivered(a + b, |a| + n) == Delivered(a, |a|) + Delivered(b, n)
  {
    if n == 0 {
      FirstDelivered(a, b, |a|);
    } else {
      DeliveredConcat(a, b, n - 1);
      assert (a + b)[|a| + n - 1] == b[n - 1];
    }
  }

  lemma {:induction false} FirstActs(registry: seq<Aggregator>, digestName: string, s: State, a: seq<Act>, b: seq<Act>,
        n: nat)
    requires n <= |a|
    ensures Upto(registry, digestName, s, a + b, n) == Upto(registry, digestName, s, a, n)
    ensures CleanActs(registry, digestName, s, a, n) ==> CleanActs(registry, digestName, s, a + b, n)
  {
    if n > 0 { FirstActs(registry, digestName, s, a, b, n - 1); }
  }

  lemma {:induction false} TasksDeliver(steps: seq<FlowStep>)
    ensures |Tasks(steps)| == |steps| && Delivered(Tasks(steps), |steps|) == []
  {
    if steps != [] {
      var front, last := steps[..|steps| - 1], steps[|steps| - 1];
      TasksDeliver(front);
      FirstDelivered(Tasks(front), [Task(last)], |front|);
    }
  }

  lemma {:induction false} FirstDelivered(a: seq<Act>, b: seq<Act>, n: nat)
    requires n <= |a|
    ensures Delivered(a + b, n) == Delivered(a, n)
  {
    if n > 0 { FirstDelivered(a, b, n - 1); }
  }

  lemma {:induction false} TasksRun(registry: seq<Aggregator>, digestName: string, s: State, steps: seq<FlowStep>)
    ensures |Tasks(steps)| == |steps|
    ensures Upto(registry, digestName, s, Tasks(steps), |steps|) == s.(flow := At(registry, s.flow, steps, |steps|))
    ensures CleanRun(registry, s.flow, steps, |steps|) ==>
      CleanActs(registry, digestName, s, Tasks(steps), |steps|)
  {
    TasksDeliver(steps);
    if steps != [] {
      var front, last := steps[..|steps| - 1], steps[|steps| - 1];
      TasksRun(registry, digestName, s, front);
      assert steps == front + [last];
      AtPrefix(registry, s.flow, front, [last], |front|);
      CleanFront(registry, s.flow, front, last, |front|);
      FirstActs(registry, digestName, s, Tasks(front), [Task(last)], |front|);
    }
  }

  lemma {:induction false} CleanFront(registry: seq<Aggregator>, f: Flow, front: seq<FlowStep>, last: FlowStep, n: nat)
    requires n <= |front|
    ensures CleanRun(registry, f, front + [last], n) <==> CleanRun(registry, f, front, n)
  {
    if n > 0 {
      CleanFront(registry, f, front, last, n - 1);
      AtPrefix(registry, f, front, [last], n - 1);
    }
  }

  function BookOf(s: State): Book {
    Book(s.flow.store, s.flow.sent)
  }

  /** The acts handle these items, discard nothing unsent, and leave the book of the run over the items. */
  ghost predicate Prompt(registry: seq<Aggregator>, digestName: string, s: State, acts: seq<Act>, items: seq<Item>) {
    var after := Upto(registry, digestName, s, acts, |acts|);
    && CleanActs(registry, digestName, s, acts, |acts|) && Delivered(acts, |acts|) == items
    && NoFlush(after.flow) && BookOf(after) == RunFrom(registry, BookOf(s), items)
  }

  lemma {:induction false} OneDelivery(registry: seq<Aggregator>, digestName: string, s: State, item: Item)
    ensures Upto(registry, digestName, s, [Deliver(item)], 1) == After(registry, digestName, s, Deliver(item))
    ensures CleanActs(registry, digestName, s, [Deliver(item)], 1) && Delivered([Deliver(item)], 1) == [item]
  {
    assert Delivered([Deliver(item)], 0) == [];
  }

  lemma {:induction false} OneItem(registry: seq<Aggregator>, b: Book, item: Item)
    ensures RunFrom(registry, b, [item]) == Step(registry, b, item)
  {
    assert [item][..0] == [];
  }

  /** The flush of a mark. */
  function FlushActs(s: State, n: int): seq<Act> {
    Tasks(StepsOf(Alone(0, n, |Ready(s.flow.store, n)|)))
  }

  lemma {:induction false} FlushPromptly(registry: seq<Aggregator>, digestName: string, s: State, n: int)
    requires ValidRegistry(registry) && Good(registry, s) && NoFlush(s.flow)
    ensures var acts := FlushActs(s, n);
            var after := Upto(registry, digestName, s, acts, |acts|);
            && CleanActs(registry, digestName, s, acts, |acts|) && Delivered(acts, |acts|) == []
            && NoFlush(after.flow) && BookOf(after) == Step(registry, BookOf(s), Mark(n))
  {
    var steps := StepsOf(Alone(0, n, |Ready(s.flow.store, n)|));
    AloneIsAtomic(registry, s.flow, 0, n);
    TasksDeliver(steps);
    TasksRun(registry, digestName, s, steps);
  }

  lemma {:induction false} MarkPromptly(registry: seq<Aggregator>, digestName: string, s: State, n: int)
    requires ValidRegistry(registry) && Good(registry, s) && NoFlush(s.flow)
    ensures Prompt(registry, digestName, s, ItemActs(s, Mark(n)), [Mark(n)])
  {
    FlushPromptly(registry, digestName, s, n);
    FlushThenMark(registry, digestName, s, FlushActs(s, n), n);
  }

  lemma {:induction false} FlushThenMark(registry: seq<Aggregator>, digestName: string, s: State, acts: seq<Act>,
        n: int)
    requires CleanActs(registry, digestName, s, acts, |acts|) && Delivered(acts, |acts|) == []
    requires var after := Upto(registry, digestName, s, acts, |acts|);
             NoFlush(after.flow) && BookOf(after) == Step(registry, BookOf(s), Mark(n))
    ensures Prompt(registry, digestName, s, acts + [Deliver(Mark(n))], [Mark(n)])
  {
    OneItem(registry, BookOf(s), Mark(n));
    OneMoreDelivery(registry, digestName, s, acts, Mark(n));
  }

  lemma {:induction false} OneMoreDelivery(registry: seq<Aggregator>, digestName: string, s: State, acts: seq<Act>,
        item: Item)
    requires CleanActs(registry, digestName, s, acts, |acts|)
    ensures var all := acts + [Deliver(item)];
            && Upto(registry, digestName, s, all, |all|)
                 == After(registry, digestName, Upto(registry, digestName, s, acts, |acts|), Deliver(item))
            && CleanActs(registry, digestName, s, all, |all|)
            && Delivered(all, |all|) == Delivered(acts, |acts|) + [item]
  {
    OneDelivery(registry, digestName, Upto(registry, digestName, s, acts, |acts|), item);
    UptoConcat(registry, digestName, s, acts, [Deliver(item)], 1);
    DeliveredConcat(acts, [Deliver(item)], 1);
  }

  lemma {:induction false} LogPromptly(registry: seq<Aggregator>, digestName: string, s: State, e: Event)
    requires NoFlush(s.flow) && RouteOf(registry, digestName).None?
    ensures Prompt(registry, digestName, s, ItemActs(s, Log(e)), [Log(e)])
  {
    OneItem(registry, BookOf(s), Log(e));
    OneDelivery(registry, digestName, s, Log(e));
  }

  lemma {:induction false} ItemPromptly(registry: seq<Aggregator>, digestName: string, s: State, item: Item)
    requires ValidRegistry(registry) && Good(registry, s) && NoFlush(s.flow) && RouteOf(registry, digestName).None?
    ensures Prompt(registry, digestName, s, ItemActs(s, item), [item])
  {
    match item {
      case Log(e) => LogPromptly(registry, digestName, s, e);
      case Mark(n) => MarkPromptly(registry, digestName, s, n);
    }
  }

  lemma {:induction false} PromptJoins(registry: seq<Aggregator>, digestName: string, s: State, a: seq<Act>,
        x: seq<Item>, b: seq<Act>, item: Item)
    requires Prompt(registry, digestName, s, a, x)
    requires Prompt(registry, digestName, Upto(registry, digestName, s, a, |a|), b, [item])
    ensures Prompt(registry, digestName, s, a + b, x + [item])
  {
    UptoConcat(registry, digestName, s, a, b, |b|);
    DeliveredConcat(a, b, |b|);
    OneItem(registry, RunFrom(registry, BookOf(s), x), item);
    assert (x + [item])[..|x|] == x;
  }

  lemma {:induction false} NextPromptly(registry: seq<Aggregator>, digestName: string, s: State, acts: seq<Act>,
        items: seq<Item>, item: Item, mid: State, all: seq<Act>, more: seq<Item>)
    requires ValidRegistry(registry) && Good(registry, s) && RouteOf(registry, digestName).None?
    requires Prompt(registry, digestName, s, acts, items)
    requires mid == Upto(registry, digestName, s, acts, |acts|)
    requires all == acts + ItemActs(mid, item) && more == items + [item]
    ensures Prompt(registry, digestName, s, all, more)
  {
    ActsKeep(registry, digestName, s, acts, |acts|, SOME);
    ItemPromptly(registry, digestName, mid, item);
    PromptJoins(registry, digestName, s, acts, items, ItemActs(mid, item), item);
  }

  /** The program's own sink puts the notification into an unbounded queue and never suspends. Then nothing is
      discarded unsent, and the windows are those of the run over what was handed over. */
  lemma {:induction false} PromptRun(registry: seq<Aggregator>, digestName: string, s: State, items: seq<Item>)
    requires ValidRegistry(registry) && Good(registry, s) && NoFlush(s.flow) && RouteOf(registry, digestName).None?
    ensures Prompt(registry, digestName, s, Promptly(registry, digestName, s, items), items)
  {
    if items == [] {
      NothingPromptly(registry, digestName, s);
    } else {
      PromptRun(registry, digestName, s, items[..|items| - 1]);
      LastPromptly(registry, digestName, s, items);
    }
  }

  lemma {:induction false} LastPromptly(registry: seq<Aggregator>, digestName: string, s: State, items: seq<Item>)
    requires ValidRegistry(registry) && Good(registry, s) && RouteOf(registry, digestName).None? && items != []
    requires var front := items[..|items| - 1];
             Prompt(registry, digestName, s, Promptly(registry, digestName, s, front), front)
    ensures Prompt(registry, digestName, s, Promptly(registry, digestName, s, items), items)
  {
    var front := items[..|items| - 1];
    var acts, all := Promptly(registry, digestName, s, front), Promptly(registry, digestName, s, items);
    var mid := Upto(registry, digestName, s, acts, |acts|);
    assert all == acts + ItemActs(mid, items[|items| - 1]);
    NextPromptly(registry, digestName, s, acts, front, items[|items| - 1], mid, all, items);
  }

  lemma {:induction false} NothingPromptly(registry: seq<Aggregator>, digestName: string, s: State)
    requires NoFlush(s.flow)
    ensures Prompt(registry, digestName, s, [], [])
  {
    assert Delivered([], 0) == [];
  }
}
