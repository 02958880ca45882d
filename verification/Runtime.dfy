/** The consumer of the subscription (sentinel/services/subscription.py): each log goes to the digest,
    to an aggregation window or straight out, and a completed block moves the checkpoint once its
    windows are flushed. The program registers exactly one digest (sentinel/jobs.py). */
module Runtime {
  import opened Events
  import opened Windows
  import opened Partition
  import opened Batching
  import opened Flows
  import opened Conservation
  import opened Coordinator
  import Digests

  class ModuleRuntime {
    const digest: Digests.Digest
    const aggregation: AggregationCoordinator
    /** The persisted number of the last processed block. */
    var processed: int
    /** Logs whose handling did not raise, in order. */
    ghost var handled: seq<Event>

    /** The log is stored for the digest or in a digest sent, in a pending window or in one whose
        notifications all went out, or it went out on its own. */
    ghost predicate Kept(e: Event)
      reads digest, digest.store, aggregation, aggregation.store
    {
      || digest.Accounts(e.Identity())
      || HasId(aggregation.store.records, e.Identity())
      || HasId(aggregation.flushed, e.Identity())
      || Notification([e]) in aggregation.emitted
    }

    /** Where the log was taken. */
    ghost predicate Recorded(e: Event)
      reads digest, digest.store, aggregation
    {
      || digest.Accounts(e.Identity())
      || (Routed(aggregation.registry, e) && InTrail(aggregation.trail, e))
      || Notification([e]) in aggregation.emitted
    }

    ghost predicate Tracked()
      reads this, digest, digest.store, aggregation, aggregation.store
    {
      && digest.Conserved() && aggregation.Valid() && aggregation.Announced()
      && forall e :: e in handled ==> Recorded(e)
    }

    /** No flush so far discarded a record that another task had added to meanwhile. */
    ghost predicate Undisturbed()
      reads aggregation
    {
      CleanTrail(aggregation.registry, aggregation.start, aggregation.trail)
    }

    constructor (digest: Digests.Digest, aggregation: AggregationCoordinator, processed: int)
      requires digest.Conserved() && aggregation.Valid() && aggregation.Announced()
      ensures Tracked() && handled == [] && this.processed == processed
      ensures this.digest == digest && this.aggregation == aggregation
    {
      this.digest, this.aggregation, this.processed, handled := digest, aggregation, processed, [];
    }

    /** Whatever was handled since the start, and however often flushes failed, every log is still
        accounted for, unless a flush was disturbed. */
    lemma HandledIsKept(e: Event)
      requires Tracked() && Undisturbed() && e in handled
      ensures Kept(e)
    {
      if Routed(aggregation.registry, e) && InTrail(aggregation.trail, e) {
        TrailKeeps(aggregation.registry, aggregation.start, aggregation.trail, e);
      }
    }

    /** `handle_event`: the module's side effects come first and may raise, and so may the sink; then the log
        is not counted as handled. */
    method HandleEvent(e: Event, sideEffectsRaise: bool) returns (ok: bool)
      requires Tracked()
      modifies this`handled, digest, digest.store, aggregation`emitted, aggregation`capacity, aggregation`trail
      modifies aggregation`turn, aggregation.store
      ensures Tracked() && handled == if ok then old(handled) + [e] else old(handled)
      ensures sideEffectsRaise ==>
        !ok && digest.taken == old(digest.taken) && aggregation.View() == old(aggregation.View())
                                   && aggregation.emitted == old(aggregation.emitted)
      ensures !sideEffectsRaise && e.name == digest.eventName ==>
        ok && digest.taken == old(digest.taken) + [e] && aggregation.View() == old(aggregation.View())
      ensures e.name != digest.eventName ==> digest.store.records == old(digest.store.records)
      ensures !sideEffectsRaise && e.name != digest.eventName && Routed(aggregation.registry, e) ==>
        ok && aggregation.View() == Step(aggregation.registry, old(aggregation.View()), Log(e))
      ensures !sideEffectsRaise && e.name != digest.eventName && !Routed(aggregation.registry, e) ==>
        (ok <==> old(aggregation.capacity) > 0) &&
        aggregation.emitted == old(aggregation.emitted) + (if ok then [Notification([e])] else [])
    {
      if sideEffectsRaise {
        return false;
      }
      var forDigest := digest.HandleEvent(e);
      if forDigest {
        handled := handled + [e];
        return true;
      }
      ok := Aggregate(e);
      if ok { handled := handled + [e]; }
    }

    /** The log goes to the coordinator. */
    method Aggregate(e: Event) returns (ok: bool)
      requires Tracked()
      modifies aggregation`emitted, aggregation`capacity, aggregation`trail, aggregation`turn, aggregation.store
      ensures Tracked() && (ok ==> Recorded(e))
      ensures Routed(aggregation.registry, e) ==>
        ok && aggregation.View() == Step(aggregation.registry, old(aggregation.View()), Log(e))
      ensures !Routed(aggregation.registry, e) ==>
        (ok <==> old(aggregation.capacity) > 0) &&
        aggregation.emitted == old(aggregation.emitted) + (if ok then [Notification([e])] else [])
    {
      ghost var before, t := aggregation.trail, aggregation.turn;
      ok := aggregation.HandleEvent(e);
      forall x | x == e || InTrail(before, x) ensures InTrail(aggregation.trail, x) {
        MeanwhileRemembers(Then(before, Handle(e)), aggregation.turns, t, aggregation.turn, x);
      }
    }

    /** `handle_block`: the checkpoint moves, never back, and only when every ready window went out. */
    method HandleBlock(number: int) returns (ok: bool)
      requires Tracked()
      modifies this`processed, aggregation`emitted, aggregation`capacity, aggregation`flushed, aggregation`trail
      modifies aggregation`turn, aggregation`queue, aggregation.store
      ensures Tracked() && old(aggregation.turn) <= aggregation.turn && old(aggregation.flushed) <= aggregation.flushed
      ensures ok ==> aggregation.SentSince(old(aggregation.flushed), old(aggregation.emitted))
      ensures processed == if ok && number > old(processed) then number else old(processed)
      ensures ok ==> forall w :: w in aggregation.flushed[|old(aggregation.flushed)|..] <==>
        w in old(aggregation.store.records) && w.end <= number && Known(aggregation.registry, w)
      ensures ok <==> |AllNotes(aggregation.registry, aggregation.aggregate, old(aggregation.store.records), number)|
                      <= old(aggregation.capacity)
      ensures ok && AllAbove(aggregation.turns, old(aggregation.turn), aggregation.turn, number) ==>
        aggregation.View() == RunFrom(aggregation.registry,
          Step(aggregation.registry, old(aggregation.View()), Mark(number)),
          TurnLogs(aggregation.turns, old(aggregation.turn), aggregation.turn))
    {
      ok := Flush(number);
      if ok && number > processed {
        processed := number;
      }
    }

    /** `resume_pending_aggregations`: what was ready at the last shutdown is flushed first. */
    method ResumePending() returns (ok: bool)
      requires Tracked()
      modifies aggregation`emitted, aggregation`capacity, aggregation`flushed, aggregation`trail
      modifies aggregation`turn, aggregation`queue, aggregation.store
      ensures Tracked() && old(aggregation.turn) <= aggregation.turn && old(aggregation.flushed) <= aggregation.flushed
      ensures ok ==> aggregation.SentSince(old(aggregation.flushed), old(aggregation.emitted))
      ensures ok <==> |AllNotes(aggregation.registry, aggregation.aggregate, old(aggregation.store.records), processed)|
                      <= old(aggregation.capacity)
      ensures ok && AllAbove(aggregation.turns, old(aggregation.turn), aggregation.turn, processed) ==>
        aggregation.View() == RunFrom(aggregation.registry,
          Step(aggregation.registry, old(aggregation.View()), Mark(processed)),
          TurnLogs(aggregation.turns, old(aggregation.turn), aggregation.turn))
    {
      ok := Flush(processed);
    }

    /** The daily digest, for everything processed so far. */
    method FlushDigest(emitting: Digests.Emitting) returns (r: Option<nat>)
      requires Tracked()
      modifies digest, digest.store
      ensures Tracked()
      ensures r.Some? ==>
        forall x :: x in digest.store.Of(digest.name) ==> x.block > processed || x in emitting.meanwhile
      ensures r == Some(1) ==>
        digest.sent != []
        && Digests.IsDigest(digest.sent[|digest.sent| - 1].sources, old(digest.store.Of(digest.name)), processed)
    {
      r := digest.FlushThrough(processed, emitting);
    }

    method Flush(block: int) returns (ok: bool)
      requires Tracked()
      modifies aggregation`emitted, aggregation`capacity, aggregation`flushed, aggregation`trail
      modifies aggregation`turn, aggregation`queue, aggregation.store
      ensures Tracked() && old(aggregation.turn) <= aggregation.turn && old(aggregation.flushed) <= aggregation.flushed
      ensures ok ==> aggregation.SentSince(old(aggregation.flushed), old(aggregation.emitted))
      ensures ok ==> forall w :: w in aggregation.flushed[|old(aggregation.flushed)|..] <==>
        w in old(aggregation.store.records) && w.end <= block && Known(aggregation.registry, w)
      ensures ok <==> |AllNotes(aggregation.registry, aggregation.aggregate, old(aggregation.store.records), block)|
                      <= old(aggregation.capacity)
      ensures ok && AllAbove(aggregation.turns, old(aggregation.turn), aggregation.turn, block) ==>
        aggregation.View() == RunFrom(aggregation.registry,
          Step(aggregation.registry, old(aggregation.View()), Mark(block)),
          TurnLogs(aggregation.turns, old(aggregation.turn), aggregation.turn))
    {
      ok := aggregation.HandleBlock(block);
    }
  }
}
