/** From the socket to the windows, across restarts: sessions that each resume at checkpoint + 1, may hand
    over live logs before their replay, replay up to a head with any batch size while live items arrive at
    any await, drain, go on live, and die with some last snapshot persisted. What each sends is exactly the
    windows the chain declares between the checkpoint it found and the one it reached
    (sentinel/rpc.py, sentinel/services/subscription.py, sentinel/services/aggregation.py). */
module Lifecycle {
  import opened Events
  import opened Windows
  import Partition
  import opened Batching
  import opened Feed
  import opened Coverage
  import opened ChainWindows
  import opened Placement
  import opened Arrivals
  import opened Restart
  import opened HandOver
  import opened Reconnect

  /** One process session or connection: what the environment had in store, what was handed over, and
      how much of that is in the last persisted snapshot. */
  datatype Session = Session(plan: Plan, batch: int, contact: Contact, kept: nat)

  function LivesOf(sessions: seq<Session>): seq<Life> {
    seq(|sessions|, i requires 0 <= i < |sessions| => Life(sessions[i].contact.Trace(), sessions[i].kept))
  }

  /** What the environment may have in store after `p`: heads no lower than the checkpoint and none before
      the replay; logs of the chain; marks after the logs they claim and no log after a mark that claims
      it; and in groups of several blocks each key in block order from the replay on. */
  ghost predicate FeedFits(registry: seq<Aggregator>, chain: seq<Event>, base: int, p: seq<Item>, plan: Plan) {
    && CheckpointFrom(base, p) <= plan.head && NoHeads(plan.Early()) && FromChain(chain, base, plan.Early())
    && MarksCover(chain, plan.head, plan.Stream()) && Orderly(registry, chain, plan.head, plan.Stream())
  }

  /** And before the replay only logs that pass the check. */
  ghost predicate Fitting(registry: seq<Aggregator>, chain: seq<Event>, base: int, p: seq<Item>, plan: Plan) {
    FeedFits(registry, chain, base, p, plan) && InPlace(registry, chain, base, p + plan.Early())
  }

  /** A session resumes after the checkpoint it finds and follows its plan, wherever it ends. */
  ghost predicate SessionFrom(registry: seq<Aggregator>, chain: seq<Event>, base: int, p: seq<Item>, s: Session) {
    && s.batch >= 1 && Fitting(registry, chain, base, p, s.plan)
    && Follows(chain, s.batch, CheckpointFrom(base, p) + 1, s.plan, s.contact)
  }

  ghost predicate Sessions(registry: seq<Aggregator>, chain: seq<Event>, base: int, before: seq<Item>,
                           sessions: seq<Session>)
  {
    && Sound(registry, chain, base, before)
    && forall i :: 0 <= i < |sessions| ==> SessionAt(registry, chain, base, before, sessions, i)
  }

  ghost predicate SessionAt(registry: seq<Aggregator>, chain: seq<Event>, base: int, before: seq<Item>,
                            sessions: seq<Session>, i: nat)
    requires i < |sessions|
  {
    SessionFrom(registry, chain, base, History(before, LivesOf(sessions), i), sessions[i])
  }

  // ---------------------------------------------------------------- one session

  /** Drained and live items keep what the feed keeps. */
  lemma {:induction false} LiveOrderly(registry: seq<Aggregator>, chain: seq<Event>, batch: int, start: int, plan: Plan,
        c: Contact)
    requires batch >= 1 && Follows(chain, batch, start, plan, c)
    requires Orderly(registry, chain, plan.head, plan.Stream())
    ensures Orderly(registry, chain, plan.head, c.live + c.later)
  {
    OrderlyPrefix(registry, chain, plan.head, c.settled + c.later, plan.Stream());
    LiveTimely(c.full, c.settled, c.later);
    LiveInOrder(registry, chain, plan.head, c.full, c.settled, c.later);
    LiveFromChain(chain, plan.head, c.full, c.settled, c.later);
    OrderlyPrefix(registry, chain, plan.head, c.live + c.later, c.full + c.later);
  }

  lemma {:induction false} LiveFromChain(chain: seq<Event>, from: int, out: seq<Item>, items: seq<Item>,
        later: seq<Item>)
    requires Drained(out, items) && FromChain(chain, from, items + later)
    ensures FromChain(chain, from, out + later)
  {
    DrainedMembers(out, items);
    var t, s := out + later, items + later;
    forall i | 0 <= i < |t| && t[i].Log? ensures t[i].event in chain && t[i].event.block > from {
      assert t[i] in s;
    }
  }

  /** Chain logs above `from`, none late, and each key in order. */
  ghost predicate Orderly(registry: seq<Aggregator>, chain: seq<Event>, from: int, r: seq<Item>) {
    FromChain(chain, from, r) && Timely(r) && KeysInOrder(registry, chain, from, r)
  }

  lemma {:induction false} OrderlyPrefix(registry: seq<Aggregator>, chain: seq<Event>, from: int, p: seq<Item>,
        r: seq<Item>)
    requires p <= r && Orderly(registry, chain, from, r)
    ensures Orderly(registry, chain, from, p)
  {
    TimelyPrefix(p, r);
    KeysInOrderPrefix(registry, chain, from, p, r);
  }

  lemma {:induction false} OrderlyThenLive(registry: seq<Aggregator>, chain: seq<Event>, found: int, replay: seq<Item>,
        head: int, live: seq<Item>)
    requires Orderly(registry, chain, found, replay) && Orderly(registry, chain, head, live) && found <= head
    requires Covers(chain, found + 1, head, replay) && forall x :: x in replay ==> Number(x) <= head
    ensures Orderly(registry, chain, found, replay + live)
  {
    ThenLive(chain, replay, head, live);
    KeysInOrderConcat(registry, chain, found, replay, head, live);
    FromChainConcat(chain, found, replay, head, live);
  }

  /** So does what the session hands over from its replay on. */
  lemma {:induction false} RestOrderly(registry: seq<Aggregator>, chain: seq<Event>, batch: int, found: int, plan: Plan,
        c: Contact)
    requires ChainOrdered(chain) && batch >= 1 && found <= plan.head
    requires Follows(chain, batch, found + 1, plan, c) && Orderly(registry, chain, plan.head, plan.Stream())
    ensures Orderly(registry, chain, found, c.handed + c.live + c.later)
  {
    var replay := Replayed(chain, found + 1, plan.head, batch);
    ReplayedGapless(chain, found + 1, plan.head, batch);
    NothingLateTimely(replay);
    GaplessInOrder(registry, chain, found, replay);
    if c.handed == replay {
      LiveOrderly(registry, chain, batch, found + 1, plan, c);
      OrderlyThenLive(registry, chain, found, replay, plan.head, c.live + c.later);
      Regroup(replay, c.live, c.later);
    } else {
      OrderlyPrefix(registry, chain, found, c.handed, replay);
      assert c.handed + c.live + c.later == c.handed;
    }
  }

  lemma {:induction false} ThenLive(chain: seq<Event>, replay: seq<Item>, head: int, live: seq<Item>)
    requires Timely(replay) && Timely(live) && FromChain(chain, head, live)
    requires forall x :: x in replay ==> Number(x) <= head
    ensures Timely(replay + live)
  {
    forall n, e | Mark(n) in replay && Log(e) in live ensures e.block > n {
      assert Number(Mark(n)) <= head;
      var j :| 0 <= j < |live| && live[j] == Log(e);
      assert live[j].event.block > head;
    }
    TimelyConcat(replay, live);
  }

  lemma {:induction false} FromChainConcat(chain: seq<Event>, base: int, a: seq<Item>, from: int, b: seq<Item>)
    requires FromChain(chain, base, a) && FromChain(chain, from, b) && base <= from
    ensures FromChain(chain, base, a + b)
  {
  }

  lemma {:induction false} JoinAnswered(chain: seq<Event>, base: int, p: seq<Item>, early: seq<Item>, rest: seq<Item>)
    requires Answered(chain, base, p) && FromChain(chain, base, early) && NoHeads(early)
    requires var found := CheckpointFrom(base, p); FromChain(chain, found, rest) && MarksCover(chain, found, rest)
    ensures Answered(chain, base, p + early + rest)
  {
    var found := CheckpointFrom(base, p);
    CheckpointClaims(chain, base, p);
    MarksCoverConcat(chain, base, p, found, early);
    MarksCoverConcat(chain, base, p + early, found, rest);
    FromChainConcat(chain, base, p, base, early);
    FromChainConcat(chain, base, p + early, found, rest);
  }

  lemma {:induction false} EarlyCheckpoint(chain: seq<Event>, base: int, p: seq<Item>, early: seq<Item>)
    requires MarksCover(chain, base, p) && NoHeads(early)
    ensures CheckpointFrom(base, p + early) == CheckpointFrom(base, p) >= base
    ensures Covers(chain, base + 1, CheckpointFrom(base, p), p + early)
  {
    CheckpointClaims(chain, base, p);
    CheckpointAdds(base, p, early);
    CheckpointOfLogs(CheckpointFrom(base, p), early);
  }

  /** What may be handed over after `p`: logs that pass the check, then a stretch that keeps the orders. */
  ghost predicate Continues(registry: seq<Aggregator>, chain: seq<Event>, base: int, p: seq<Item>, early: seq<Item>,
                            rest: seq<Item>)
  {
    var found := CheckpointFrom(base, p);
    && FromChain(chain, base, early) && NoHeads(early) && InPlace(registry, chain, base, p + early)
    && MarksCover(chain, found, rest) && Orderly(registry, chain, found, rest)
  }

  lemma {:induction false} JoinSound(registry: seq<Aggregator>, chain: seq<Event>, base: int, p: seq<Item>,
        early: seq<Item>, rest: seq<Item>, all: seq<Item>)
    requires ValidRegistry(registry) && Sound(registry, chain, base, p)
    requires Continues(registry, chain, base, p, early, rest) && all == p + early + rest
    ensures Sound(registry, chain, base, all)
  {
    EarlyCheckpoint(chain, base, p, early);
    OrderlyInPlace(registry, chain, base, p + early, CheckpointFrom(base, p), rest);
    JoinAnswered(chain, base, p, early, rest);
  }

  lemma {:induction false} SessionContinues(registry: seq<Aggregator>, chain: seq<Event>, base: int, p: seq<Item>,
        s: Session)
    requires ChainOrdered(chain) && SessionFrom(registry, chain, base, p, s)
    ensures var c := s.contact; Continues(registry, chain, base, p, c.early, c.handed + c.live + c.later)
  {
    RestOrderly(registry, chain, s.batch, CheckpointFrom(base, p), s.plan, s.contact);
    ContactMarksCover(chain, s.batch, CheckpointFrom(base, p), s.plan, s.contact);
  }

  /** A session goes on soundly from what it finds. */
  lemma {:induction false} SessionSound(registry: seq<Aggregator>, chain: seq<Event>, base: int, p: seq<Item>,
        s: Session)
    requires ValidRegistry(registry) && ChainOrdered(chain) && Sound(registry, chain, base, p)
    requires SessionFrom(registry, chain, base, p, s)
    ensures Sound(registry, chain, base, p + s.contact.Trace())
  {
    var c := s.contact;
    var rest := c.handed + c.live + c.later;
    Regroup(p, c.early, rest);
    SessionContinues(registry, chain, base, p, s);
    JoinSound(registry, chain, base, p, c.early, rest, p + c.Trace());
  }

  lemma {:induction false} SessionAnswered(registry: seq<Aggregator>, chain: seq<Event>, base: int, p: seq<Item>,
        s: Session)
    requires ChainOrdered(chain) && Answered(chain, base, p) && s.batch >= 1
    requires FeedFits(registry, chain, base, p, s.plan)
    requires Follows(chain, s.batch, CheckpointFrom(base, p) + 1, s.plan, s.contact)
    ensures Answered(chain, base, p + s.contact.Trace())
  {
    var c := s.contact;
    RestOrderly(registry, chain, s.batch, CheckpointFrom(base, p), s.plan, c);
    ContactMarksCover(chain, s.batch, CheckpointFrom(base, p), s.plan, c);
    JoinAnswered(chain, base, p, c.early, c.handed + c.live + c.later);
    Regroup(p, c.early, c.handed + c.live + c.later);
  }

  lemma {:induction false} FrontInPlace(registry: seq<Aggregator>, chain: seq<Event>, base: int, p: seq<Item>,
        q: seq<Item>)
    requires p <= q && Answered(chain, base, q) && InPlace(registry, chain, base, q)
    ensures InPlace(registry, chain, base, p)
  {
    SoundPrefix(registry, chain, base, p, q);
  }

  /** Exactly which logs that come live before the replay change the windows: wherever the session ends, all
      windows opened by then are the chain's and none is opened twice, if and only if each of these logs
      passed the check. */
  lemma {:induction false} EarlyLogsIff(registry: seq<Aggregator>, chain: seq<Event>, base: int, p: seq<Item>,
        s: Session)
    requires ValidRegistry(registry) && OnePerGroup(registry) && ChainOrdered(chain)
    requires Sound(registry, chain, base, p) && s.batch >= 1 && FeedFits(registry, chain, base, p, s.plan)
    requires Follows(chain, s.batch, CheckpointFrom(base, p) + 1, s.plan, s.contact)
    ensures Proper(registry, chain, base, Run(registry, p + s.contact.Trace()))
            <==> InPlace(registry, chain, base, p + s.plan.Early())
  {
    var all := p + s.contact.Trace();
    SessionAnswered(registry, chain, base, p, s);
    ProperIffInPlace(registry, chain, base, all);
    if InPlace(registry, chain, base, p + s.plan.Early()) {
      SessionSound(registry, chain, base, p, s);
    } else if InPlace(registry, chain, base, all) {
      FrontInPlace(registry, chain, base, p + s.plan.Early(), all);
    }
  }

  /** When all windows have one block, the order of the logs does not matter at all: every feed whose marks
      come after the logs they claim, and whose logs come above the checkpoint, is fitting. */
  lemma {:induction false} AnyOrderFits(registry: seq<Aggregator>, chain: seq<Event>, base: int, p: seq<Item>,
        plan: Plan)
    requires ValidRegistry(registry) && Sound(registry, chain, base, p)
    requires CheckpointFrom(base, p) <= plan.head && NoHeads(plan.Early())
    requires FromChain(chain, CheckpointFrom(base, p), plan.Early()) && FromChain(chain, plan.head, plan.Stream())
    requires MarksCover(chain, plan.head, plan.Stream()) && Timely(plan.Stream())
    requires forall a :: a in registry ==> a.windowBlocks == 1
    ensures Fitting(registry, chain, base, p, plan)
  {
    EarlyInPlace(registry, chain, base, p, plan.Early());
  }

  /** A feed that brings the chain block by block, in any order within a block, is fitting in any groups. */
  lemma {:induction false} GaplessFits(registry: seq<Aggregator>, chain: seq<Event>, base: int, p: seq<Item>,
        plan: Plan)
    requires ValidRegistry(registry) && Sound(registry, chain, base, p)
    requires CheckpointFrom(base, p) <= plan.head && plan.Early() == []
    requires Gapless(chain, plan.head, plan.Stream())
    ensures Fitting(registry, chain, base, p, plan)
  {
    NothingLateTimely(plan.Stream());
    GaplessInOrder(registry, chain, plan.head, plan.Stream());
    GaplessMarksCover(chain, plan.head, plan.Stream());
    assert p + [] == p;
  }

  /** The check for what comes before the replay: logs of one-block groups above the checkpoint pass it. */
  lemma {:induction false} EarlyInPlace(registry: seq<Aggregator>, chain: seq<Event>, base: int, p: seq<Item>,
        early: seq<Item>)
    requires ValidRegistry(registry) && Sound(registry, chain, base, p) && NoHeads(early)
    requires FromChain(chain, CheckpointFrom(base, p), early)
    requires forall e :: Log(e) in early && Routed(registry, e) ==> RouteOf(registry, e.name).value.windowBlocks == 1
    ensures InPlace(registry, chain, base, p + early)
  {
    var found := CheckpointFrom(base, p);
    CheckpointClaims(chain, base, p);
    assert KeysInOrder(registry, chain, found, early);
    OrderlyInPlace(registry, chain, base, p, found, early);
  }

  // ---------------------------------------------------------------- any number of sessions

  lemma {:induction false} EverySnapshotSound(registry: seq<Aggregator>, chain: seq<Event>, base: int,
        before: seq<Item>, sessions: seq<Session>, n: nat)
    requires ValidRegistry(registry) && ChainOrdered(chain)
    requires Sessions(registry, chain, base, before, sessions) && n <= |sessions|
    ensures Sound(registry, chain, base, History(before, LivesOf(sessions), n))
  {
    if n > 0 {
      var lives, i := LivesOf(sessions), n - 1;
      EverySnapshotSound(registry, chain, base, before, sessions, i);
      assert SessionAt(registry, chain, base, before, sessions, i);
      SessionSound(registry, chain, base, History(before, lives, i), sessions[i]);
      KeptSound(registry, chain, base, History(before, lives, i), lives[i]);
    }
  }

  lemma {:induction false} KeptSound(registry: seq<Aggregator>, chain: seq<Event>, base: int, p: seq<Item>, life: Life)
    requires Sound(registry, chain, base, p + life.trace)
    ensures Sound(registry, chain, base, p + life.trace[..life.Kept()])
  {
    assert p + life.trace[..life.Kept()] <= p + life.trace;
    SoundPrefix(registry, chain, base, p + life.trace[..life.Kept()], p + life.trace);
  }

  /** Sessions with fitting feeds are sound lives, whatever snapshot each leaves. */
  lemma {:induction false} SessionsAreLives(registry: seq<Aggregator>, chain: seq<Event>, base: int, before: seq<Item>,
        sessions: seq<Session>)
    requires ValidRegistry(registry) && ChainOrdered(chain) && Sessions(registry, chain, base, before, sessions)
    ensures Lives(registry, chain, base, before, LivesOf(sessions))
  {
    var lives := LivesOf(sessions);
    forall i | 0 <= i < |lives| ensures GoesOn(registry, chain, base, before, lives, i) {
      EverySnapshotSound(registry, chain, base, before, sessions, i);
      assert SessionAt(registry, chain, base, before, sessions, i);
      SessionSound(registry, chain, base, History(before, lives, i), sessions[i]);
    }
  }

  /** The windows of a session: each is one that the chain declares, with exactly its logs, sent once and in
      flush order; and a declared window is among them exactly when it ends above the checkpoint found and
      at or below the one reached. */
  ghost predicate SendsItsShare(registry: seq<Aggregator>, chain: seq<Event>, base: int, sent: seq<Window>, lo: int,
                                hi: int)
  {
    && (forall w :: w in sent ==> Declared(registry, chain, base, w)) && InFlushOrder(sent)
    && forall a, key, s :: a in registry && Opens(registry, chain, a, key, base, s) ==>
         (Listed(sent, a, key, s) <==> lo < s + a.windowBlocks - 1 <= hi)
  }

  /** The whole path, for any number of restarts with any snapshots, any batch size in each session and any
      interleaving with a fitting feed. A window is sent again only as `Restart.SentAgainIff` says. */
  lemma {:induction false} SocketToWindows(registry: seq<Aggregator>, chain: seq<Event>, base: int, before: seq<Item>,
        sessions: seq<Session>, i: nat)
    requires ValidRegistry(registry) && OnePerGroup(registry) && ChainOrdered(chain)
    requires Sessions(registry, chain, base, before, sessions) && i < |sessions|
    ensures var lives := LivesOf(sessions);
            && Lives(registry, chain, base, before, lives)
            && SendsItsShare(registry, chain, base, SentIn(registry, before, lives, i), Found(base, before, lives, i),
                 Reached(base, before, lives, i))
            && forall a, key, s ::
                 (a in registry && Opens(registry, chain, a, key, base, s)
                  && s + a.windowBlocks - 1 <= Reached(base, before, lives, i))
                 ==> Listed(Run(registry, before).flushed, a, key, s)
                     || exists j :: 0 <= j <= i && Listed(SentIn(registry, before, lives, j), a, key, s)
  {
    var lives := LivesOf(sessions);
    SessionsAreLives(registry, chain, base, before, sessions);
    SentIsDeclared(registry, chain, base, before, lives, i, |lives[i].trace|);
    forall a, key, s | a in registry && Opens(registry, chain, a, key, base, s)
      ensures Listed(SentIn(registry, before, lives, i), a, key, s) <==>
        Found(base, before, lives, i) < s + a.windowBlocks - 1 <= Reached(base, before, lives, i)
    {
      SendsExactly(registry, chain, base, before, lives, i, |lives[i].trace|, a, key, s);
    }
    forall a, key, s | a in registry && Opens(registry, chain, a, key, base, s)
        && s + a.windowBlocks - 1 <= Reached(base, before, lives, i)
      ensures Listed(Run(registry, before).flushed, a, key, s)
        || exists j :: 0 <= j <= i && Listed(SentIn(registry, before, lives, j), a, key, s)
    {
      DeclaredIsSent(registry, chain, base, before, lives, i, a, key, s);
    }
  }

  /** The same for a process that starts with nothing but a checkpoint: every window declared above it that
      is due by the checkpoint of any session has been sent by one of them. */
  lemma {:induction false} FromCheckpoint(registry: seq<Aggregator>, chain: seq<Event>, base: int,
        sessions: seq<Session>, i: nat, a: Aggregator, key: Key, s: int)
    requires ValidRegistry(registry) && OnePerGroup(registry) && ChainOrdered(chain)
    requires forall j :: 0 <= j < |sessions| ==> SessionAt(registry, chain, base, [], sessions, j)
    requires i < |sessions| && a in registry && Opens(registry, chain, a, key, base, s)
    requires s + a.windowBlocks - 1 <= Reached(base, [], LivesOf(sessions), i)
    ensures exists j :: 0 <= j <= i && Listed(SentIn(registry, [], LivesOf(sessions), j), a, key, s)
  {
    assert Sound(registry, chain, base, []);
    SocketToWindows(registry, chain, base, [], sessions, i);
    assert Run(registry, []).flushed == [];
  }

  // ---------------------------------------------------------------- a window sent twice

  /** A run with a crash: a session replays one log and its block and dies with nothing of it persisted, and
      the next one finds the same checkpoint. Both send the log's window. */
  lemma {:induction false} SentTwice(e: Event, s: Session)
    requires e.name == "E" && e.block == 3
    requires s.plan == Plan(None, [], [], [], 0, 10) && s.batch == 10 && s.kept == 0
    requires s.contact == Contact([], [Log(e), Mark(10)], [], [], [], [])
    ensures Sessions(SAMPLE, [e], 0, [], [s, s])
    ensures var lives, a := LivesOf([s, s]), SAMPLE[0];
            && Listed(SentIn(SAMPLE, [], lives, 0), a, a.KeyFor(e), 3)
            && Listed(SentIn(SAMPLE, [], lives, 1), a, a.KeyFor(e), 3)
  {
    var chain, lives, a := [e], LivesOf([s, s]), SAMPLE[0];
    SampleRoute(e);
    OneLogReplayed(e);
    assert s.contact.Trace() == [Log(e), Mark(10)];
    assert History([], lives, 1) == [];
    assert s.plan.Early() == [] && s.plan.Stream() == [];
    assert SessionFrom(SAMPLE, chain, 0, [], s);
    forall i | 0 <= i < 2 ensures SessionAt(SAMPLE, chain, 0, [], [s, s], i) {
    }
    SessionsAreLives(SAMPLE, chain, 0, [], [s, s]);
    OneLogOpens(e);
    OneLogReaches(e, lives);
    SendsExactly(SAMPLE, chain, 0, [], lives, 0, 2, a, a.KeyFor(e), 3);
    SendsExactly(SAMPLE, chain, 0, [], lives, 1, 2, a, a.KeyFor(e), 3);
  }

  lemma {:induction false} OneLogReplayed(e: Event)
    requires e.block == 3
    ensures Replayed([e], 1, 10, 10) == [Log(e), Mark(10)] && ChainOrdered([e])
  {
    assert [e][1..] == [];
    assert Logs([]) == [] && Logs([e]) == [Log(e)] + Logs([e][1..]);
    assert InRange([e], 1, 10) == [e];
    assert Replayed([e], 11, 10, 10) == [];
  }

  lemma {:induction false} OneLogOpens(e: Event)
    requires e.name == "E" && e.block == 3
    ensures OnePerGroup(SAMPLE) && Opens(SAMPLE, [e], SAMPLE[0], SAMPLE[0].KeyFor(e), 0, 3)
  {
    SampleRoute(e);
    EventHasWindow(SAMPLE, [e], SAMPLE[0], SAMPLE[0].KeyFor(e), 0, e);
    LastOpenOpens(SAMPLE, [e], SAMPLE[0], SAMPLE[0].KeyFor(e), 0, 3);
  }

  lemma {:induction false} OneLogReaches(e: Event, lives: seq<Life>)
    requires lives == [Life([Log(e), Mark(10)], 0), Life([Log(e), Mark(10)], 0)]
    ensures Found(0, [], lives, 0) == Found(0, [], lives, 1) == 0
    ensures Reached(0, [], lives, 0) == Reached(0, [], lives, 1) == 10
  {
    var t := [Log(e), Mark(10)];
    assert History([], lives, 0) == History([], lives, 1) == [];
    assert [] + t[..2] == t && t[..1] == [Log(e)];
    CheckpointOfLogs(0, [Log(e)]);
    assert CheckpointFrom(0, t) == 10;
  }
}
