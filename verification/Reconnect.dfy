/** Reconnects (sentinel/services/subscription.py): each connection resumes at checkpoint + 1, may hand
    over live logs before its replay begins to buffer, and may end at any point, in the middle of a
    replay included. What the checkpoint claims has always been handed over. */
module Reconnect {
  import opened Events
  import opened Windows
  import opened Feed
  import opened Coverage
  import opened HandOver
  import opened Supervisor

  // ---------------------------------------------------------------- one connection

  ghost predicate HeadsBelow(plan: Plan, top: int) {
    plan.head <= top && forall b :: Mark(b) in plan.Stream() ==> b <= top
  }

  ghost predicate ServedOne(chain: seq<Event>, batch: int, checkpoint: int, plan: Plan, c: Contact)
    requires batch >= 1
  {
    Follows(chain, batch, checkpoint + 1, plan, c) && EndsAs(chain, batch, checkpoint + 1, plan, c)
  }

  /** A replay that stopped, or a whole one and what came live after it. */
  lemma {:induction false} ContactMarksCover(chain: seq<Event>, batch: int, checkpoint: int, plan: Plan, c: Contact)
    requires ChainOrdered(chain) && batch >= 1 && checkpoint <= plan.head
    requires Follows(chain, batch, checkpoint + 1, plan, c) && MarksCover(chain, plan.head, plan.Stream())
    ensures MarksCover(chain, checkpoint, c.handed + c.live + c.later)
  {
    var replay := Replayed(chain, checkpoint + 1, plan.head, batch);
    ReplayedGapless(chain, checkpoint + 1, plan.head, batch);
    GaplessMarksCover(chain, checkpoint, replay);
    MarksCoverPrefix(chain, plan.head, c.settled + c.later, plan.Stream());
    LiveMarksCover(chain, plan.head, c.full, c.settled, c.later);
    if c.handed == replay {
      MarksCoverPrefix(chain, plan.head, c.live + c.later, c.full + c.later);
      MarksCoverConcat(chain, checkpoint, replay, plan.head, c.live + c.later);
      Regroup(replay, c.live, c.later);
    } else {
      assert c.handed + c.live + c.later == c.handed;
      MarksCoverPrefix(chain, checkpoint, c.handed, replay);
    }
  }

  /** A feed that keeps the order of blocks also does so through the buffer. */
  lemma {:induction false} StreamGapless(chain: seq<Event>, batch: int, start: int, plan: Plan, c: Contact)
    requires batch >= 1 && Follows(chain, batch, start, plan, c) && Gapless(chain, plan.head, plan.Stream())
    ensures Gapless(chain, plan.head, c.full + c.later)
  {
    GaplessPrefix(chain, plan.head, c.settled + c.later, plan.Stream());
    LiveGapless(chain, plan.head, c.full, c.settled, c.later);
  }

  lemma {:induction false} OneConnection(chain: seq<Event>, batch: int, checkpoint: int, plan: Plan, c: Contact)
    requires ChainOrdered(chain) && batch >= 1 && checkpoint <= plan.head && NoHeads(plan.Early())
    requires ServedOne(chain, batch, checkpoint, plan, c) && MarksCover(chain, plan.head, plan.Stream())
    ensures Covers(chain, checkpoint + 1, CheckpointFrom(checkpoint, c.Trace()), c.Trace())
  {
    ContactMarksCover(chain, batch, checkpoint, plan, c);
    MarksCoverConcat(chain, checkpoint, c.early, checkpoint, c.handed + c.live + c.later);
    CheckpointClaims(chain, checkpoint, c.Trace());
  }

  /** No mark of a connection lies above its head and the heads its feed brings. */
  lemma {:induction false} ContactWithin(chain: seq<Event>, batch: int, checkpoint: int, plan: Plan, c: Contact,
        top: int)
    requires ChainOrdered(chain) && batch >= 1 && ServedOne(chain, batch, checkpoint, plan, c)
    requires NoHeads(plan.Early()) && HeadsBelow(plan, top)
    ensures forall b :: Mark(b) in c.Trace() ==> b <= top
  {
    ReplayedGapless(chain, checkpoint + 1, plan.head, batch);
    DrainedMembers(c.full, c.settled);
    forall b | Mark(b) in c.Trace() ensures b <= top {
      if Mark(b) in c.handed {
        assert Number(Mark(b)) <= plan.head;
      } else {
        assert Mark(b) in c.full || Mark(b) in c.later;
        assert Mark(b) in c.settled + c.later;
      }
    }
  }

  // ---------------------------------------------------------------- any number of connections

  function Total(contacts: seq<Contact>, n: nat): seq<Item>
    requires n <= |contacts|
  {
    if n == 0 then [] else Total(contacts, n - 1) + contacts[n - 1].Trace()
  }

  /** Each of the first n connections follows its plan, from the checkpoint that those before it left. */
  ghost predicate Served(chain: seq<Event>, batch: int, persisted: int, plans: seq<Plan>, contacts: seq<Contact>,
          n: nat)
    requires batch >= 1 && n <= |contacts| <= |plans|
  {
    n > 0 ==>
      && Served(chain, batch, persisted, plans, contacts, n - 1)
      && ServedOne(chain, batch, CheckpointFrom(persisted, Total(contacts, n - 1)), plans[n - 1], contacts[n - 1])
  }

  /** In the first n plans no head comes in before a replay buffers, a feed marks a block only after its
      logs, and the head that a connection reads is no lower than any it was told of before. */
  ghost predicate Calm(chain: seq<Event>, persisted: int, plans: seq<Plan>, n: nat)
    requires n <= |plans|
  {
    n > 0 ==>
      && Calm(chain, persisted, plans, n - 1)
      && CalmOne(chain, persisted, plans[n - 1]) && AllBelow(plans, n - 1, plans[n - 1].head)
  }

  ghost predicate AllBelow(plans: seq<Plan>, n: nat, top: int)
    requires n <= |plans|
  {
    n > 0 ==> AllBelow(plans, n - 1, top) && HeadsBelow(plans[n - 1], top)
  }

  ghost predicate CalmOne(chain: seq<Event>, persisted: int, plan: Plan) {
    persisted <= plan.head && NoHeads(plan.Early()) && MarksCover(chain, plan.head, plan.Stream())
  }

  lemma {:induction false} NextCheckpoint(chain: seq<Event>, batch: int, persisted: int, before: seq<Item>, plan: Plan,
        c: Contact, top: int)
    requires ChainOrdered(chain) && batch >= 1
    requires ServedOne(chain, batch, CheckpointFrom(persisted, before), plan, c)
    requires CalmOne(chain, persisted, plan) && HeadsBelow(plan, top) && CheckpointFrom(persisted, before) <= top
    ensures CheckpointFrom(persisted, before + c.Trace()) <= top
  {
    CheckpointAdds(persisted, before, c.Trace());
    ContactWithin(chain, batch, CheckpointFrom(persisted, before), plan, c, top);
    CheckpointWithin(CheckpointFrom(persisted, before), c.Trace(), top);
  }

  lemma {:induction false} NextCovers(chain: seq<Event>, batch: int, persisted: int, before: seq<Item>, plan: Plan,
        c: Contact)
    requires ChainOrdered(chain) && batch >= 1
    requires ServedOne(chain, batch, CheckpointFrom(persisted, before), plan, c)
    requires CalmOne(chain, persisted, plan) && CheckpointFrom(persisted, before) <= plan.head
    requires Covers(chain, persisted + 1, CheckpointFrom(persisted, before), before)
    ensures Covers(chain, persisted + 1, CheckpointFrom(persisted, before + c.Trace()), before + c.Trace())
  {
    var checkpoint := CheckpointFrom(persisted, before);
    OneConnection(chain, batch, checkpoint, plan, c);
    CheckpointAdds(persisted, before, c.Trace());
    CoversConcat(chain, persisted + 1, checkpoint, CheckpointFrom(checkpoint, c.Trace()), before, c.Trace());
  }

  lemma {:induction false} CheckpointBelowHead(chain: seq<Event>, batch: int, persisted: int, plans: seq<Plan>,
        contacts: seq<Contact>, n: nat, top: int)
    requires ChainOrdered(chain) && batch >= 1 && n <= |contacts| <= |plans| && persisted <= top
    requires Served(chain, batch, persisted, plans, contacts, n) && Calm(chain, persisted, plans, n)
    requires AllBelow(plans, n, top)
    ensures CheckpointFrom(persisted, Total(contacts, n)) <= top
  {
    if n > 0 {
      CheckpointBelowHead(chain, batch, persisted, plans, contacts, n - 1, top);
      NextCheckpoint(chain, batch, persisted, Total(contacts, n - 1), plans[n - 1], contacts[n - 1], top);
    }
  }

  /** However often the connection is lost, and wherever, every log above the persisted checkpoint and
      at or below the present one has been handed over; so the next connection, which starts at
      checkpoint + 1, misses nothing. */
  lemma {:induction false} ReconnectsCover(chain: seq<Event>, batch: int, persisted: int, plans: seq<Plan>,
        contacts: seq<Contact>, n: nat)
    requires ChainOrdered(chain) && batch >= 1 && n <= |contacts| <= |plans|
    requires Served(chain, batch, persisted, plans, contacts, n) && Calm(chain, persisted, plans, n)
    ensures Covers(chain, persisted + 1, CheckpointFrom(persisted, Total(contacts, n)), Total(contacts, n))
  {
    if n > 0 {
      ReconnectsCover(chain, batch, persisted, plans, contacts, n - 1);
      CheckpointBelowHead(chain, batch, persisted, plans, contacts, n - 1, plans[n - 1].head);
      NextCovers(chain, batch, persisted, Total(contacts, n - 1), plans[n - 1], contacts[n - 1]);
    }
  }

  // ---------------------------------------------------------------- the loop over connections

  lemma {:induction false} TotalStays(contacts: seq<Contact>, c: Contact, n: nat)
    requires n <= |contacts|
    ensures Total(contacts + [c], n) == Total(contacts, n)
  {
    if n > 0 { TotalStays(contacts, c, n - 1); }
  }

  lemma {:induction false} ServedStays(chain: seq<Event>, batch: int, persisted: int, plans: seq<Plan>,
        contacts: seq<Contact>, c: Contact, n: nat)
    requires batch >= 1 && n <= |contacts| < |plans| && Served(chain, batch, persisted, plans, contacts, n)
    ensures Served(chain, batch, persisted, plans, contacts + [c], n)
    ensures Total(contacts + [c], n) == Total(contacts, n)
  {
    TotalStays(contacts, c, n);
    if n > 0 {
      TotalStays(contacts, c, n - 1);
      ServedStays(chain, batch, persisted, plans, contacts, c, n - 1);
      assert (contacts + [c])[n - 1] == contacts[n - 1];
    }
  }

  /** One connection, from the checkpoint it finds. */
  method ServeOne(chain: seq<Event>, batch: int, checkpoint: int, plan: Plan)
    returns (trace: seq<Item>, ghost c: Contact)
    requires batch >= 1 && checkpoint >= 0
    ensures ServedOne(chain, batch, checkpoint, plan, c) && trace == c.Trace()
  {
    var complete;
    var start := if checkpoint + 1 > 1 then checkpoint + 1 else 1;
    complete, trace, c := Connect(chain, batch, start, plan);
  }

  /** `subscribe` with `_restart_after_rpc_disconnect`: a new subscription after every lost connection,
      each from the checkpoint the one before left. */
  method Serve(chain: seq<Event>, batch: int, persisted: int, plans: seq<Plan>)
    returns (checkpoint: int, total: seq<Item>, ghost contacts: seq<Contact>)
    requires batch >= 1 && persisted >= 0 && ChainOrdered(chain)
    ensures |contacts| == |plans| && Served(chain, batch, persisted, plans, contacts, |plans|)
    ensures total == Total(contacts, |plans|) && checkpoint == CheckpointFrom(persisted, total)
    ensures Calm(chain, persisted, plans, |plans|) ==> Covers(chain, persisted + 1, checkpoint, total)
  {
    checkpoint, total, contacts := persisted, [], [];
    for i := 0 to |plans|
      invariant |contacts| == i && Served(chain, batch, persisted, plans, contacts, i)
      invariant total == Total(contacts, i) && checkpoint == CheckpointFrom(persisted, total)
    {
      var trace;
      ghost var c;
      trace, c := ServeOne(chain, batch, checkpoint, plans[i]);
      ServedStays(chain, batch, persisted, plans, contacts, c, i);
      CheckpointAdds(persisted, total, trace);
      checkpoint := Advance(checkpoint, trace);
      contacts, total := contacts + [c], total + trace;
    }
    if Calm(chain, persisted, plans, |plans|) {
      ReconnectsCover(chain, batch, persisted, plans, contacts, |plans|);
    }
  }

  /** `_advance_block` over what was handed over. */
  method Advance(checkpoint: int, trace: seq<Item>) returns (r: int)
    ensures r == CheckpointFrom(checkpoint, trace)
  {
    r := checkpoint;
    for k := 0 to |trace|
      invariant r == CheckpointFrom(checkpoint, trace[..k])
    {
      assert trace[..k + 1][..k] == trace[..k];
      if trace[k].Mark? && trace[k].number > r {
        r := trace[k].number;
      }
    }
    assert trace[..|trace|] == trace;
  }

  /** One live head before the replay is enough to lose a log. A run in which it does: the mark of block 10
      comes while the head is read, the provider fails once it has answered the head, and the next
      connection starts at block 11 and replays up to 12. The log of block 5 is never handed over. */
  method EarlyHeadLosesLog() returns (checkpoint: int, total: seq<Item>)
    ensures var chain := [NextBlockLog(4)];
            && ChainOrdered(chain) && checkpoint == 12 && !Covers(chain, 1, checkpoint, total)
  {
    var chain, turn := [NextBlockLog(4)], [Arrive(Mark(10))];
    var loose := [turn];
    var failing, later := Plan(None, loose, [], [1], 1, 12), Plan(None, [], [], [], 0, 12);
    MarkPasses(turn, loose, 10);
    ghost var contacts;
    checkpoint, total, contacts := Serve(chain, 5, 0, [failing, later]);
    BothConnections(chain, failing, later, contacts);
    MarksOnly(chain, 12, total);
  }

  lemma {:induction false} MarksOnly(chain: seq<Event>, top: int, total: seq<Item>)
    requires chain == [NextBlockLog(4)] && top >= 5 && total == [Mark(10), Mark(12)]
    ensures ChainOrdered(chain) && !Covers(chain, 1, top, total)
  {
    assert chain[0] in chain && Log(chain[0]) !in total;
  }

  lemma {:induction false} BothConnections(chain: seq<Event>, failing: Plan, later: Plan, contacts: seq<Contact>)
    requires chain == [NextBlockLog(4)] && failing == Plan(None, [[Arrive(Mark(10))]], [], [1], 1, 12)
    requires later == Plan(None, [], [], [], 0, 12)
    requires |contacts| == 2 && Served(chain, 5, 0, [failing, later], contacts, 2)
    ensures Total(contacts, 2) == [Mark(10), Mark(12)] && CheckpointFrom(0, [Mark(10), Mark(12)]) == 12
  {
    TwoServed(chain, 5, 0, [failing, later], contacts);
    FailsAfterHead(chain, failing, contacts[0]);
    TwoMarks(10, 12);
    ReplaysRest(chain, later, contacts[1]);
  }

  lemma {:induction false} TwoServed(chain: seq<Event>, batch: int, persisted: int, plans: seq<Plan>,
        contacts: seq<Contact>)
    requires batch >= 1 && |contacts| == |plans| == 2 && Served(chain, batch, persisted, plans, contacts, 2)
    ensures ServedOne(chain, batch, persisted, plans[0], contacts[0])
    ensures ServedOne(chain, batch, CheckpointFrom(persisted, contacts[0].Trace()), plans[1], contacts[1])
    ensures Total(contacts, 2) == contacts[0].Trace() + contacts[1].Trace()
  {
    assert Served(chain, batch, persisted, plans, contacts, 1);
    assert Total(contacts, 0) == [] && Total(contacts, 1) == [] + contacts[0].Trace() == contacts[0].Trace();
  }

  lemma {:induction false} TwoMarks(m: int, n: int)
    requires 0 < m < n
    ensures CheckpointFrom(0, [Mark(m)]) == m && [Mark(m)] + [Mark(n)] == [Mark(m), Mark(n)]
    ensures CheckpointFrom(0, [Mark(m), Mark(n)]) == n
  {
    assert [Mark(m)][..0] == [];
    assert [Mark(m), Mark(n)][..1] == [Mark(m)];
  }

  lemma {:induction false} FailsAfterHead(chain: seq<Event>, plan: Plan, c: Contact)
    requires plan.loose == [[Arrive(Mark(10))]] && plan.held == [] && plan.rpc == [1] && plan.waits == 1
    requires plan.head == 12 && plan.ignored == None && EndsAs(chain, 5, 1, plan, c)
    ensures c.Trace() == [Mark(10)]
  {
    MarkPasses(plan.loose[0], plan.loose, 10);
    assert !StopsIn(plan.loose[0], 1);
    assert plan.Early() == [Mark(10)];
    assert plan.Handed(chain, 1, 5) == [];
  }

  lemma {:induction false} ReplaysRest(chain: seq<Event>, plan: Plan, c: Contact)
    requires chain == [NextBlockLog(4)] && plan == Plan(None, [], [], [], 0, 12) && EndsAs(chain, 5, 11, plan, c)
    ensures c.Trace() == [Mark(12)]
  {
    assert plan.Stream() == [] && plan.Early() == [];
    assert chain[1..] == [];
    assert InRange(chain, 11, 12) == [];
    assert Replayed(chain, 11, 12, 5) == Logs([]) + [Mark(12)] + [];
    DrainedIsPermutation(c.full, c.settled);
  }
}
