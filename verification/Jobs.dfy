/** The once-a-day digest job (sentinel/jobs.py). Times are whole microseconds on the UTC time line. */
module Jobs {
  import opened Events
  import opened Windows
  import Digests

  const DAY: int := 86_400_000_000

  /** The boundaries of the schedule: every day at the same time of day. */
  predicate Boundary(t: int, timeOfDay: int) {
    (t - timeOfDay) % DAY == 0
  }

  /** `latest_scheduled_for`, for a time of day given `offset` ahead of UTC: today's occurrence, or
      yesterday's when today's lies in the future. */
  function LatestScheduledFor(now: int, timeOfDay: int, offset: int): int {
    var midnight := now - now % DAY;
    var candidate := midnight + timeOfDay - offset;
    if candidate > now then candidate - DAY else candidate
  }

  /** For a UTC schedule it is the one boundary that is due and not older than a day. */
  lemma {:induction false} LatestIsTheDueBoundary(now: int, timeOfDay: int, t: int)
    requires 0 <= timeOfDay < DAY
    ensures Boundary(t, timeOfDay) && t <= now < t + DAY <==> t == LatestScheduledFor(now, timeOfDay, 0)
  {
    var r := LatestScheduledFor(now, timeOfDay, 0);
    var d := now / DAY;
    assert now == d * DAY + now % DAY;
    assert r - timeOfDay == d * DAY || r - timeOfDay == (d - 1) * DAY;
    Multiple(d);
    Multiple(d - 1);
    if Boundary(t, timeOfDay) && t <= now < t + DAY {
      var k := (t - timeOfDay) / DAY;
      assert t - timeOfDay == k * DAY;
      SameDay(k, if r - timeOfDay == d * DAY then d else d - 1, t - r);
    }
  }

  lemma {:induction false} OneDue(now: int, timeOfDay: int)
    requires 0 <= timeOfDay < DAY
    ensures forall due :: Boundary(due, timeOfDay) && due <= now < due + DAY ==>
      due == LatestScheduledFor(now, timeOfDay, 0)
  {
    forall due | Boundary(due, timeOfDay) && due <= now < due + DAY
      ensures due == LatestScheduledFor(now, timeOfDay, 0)
    {
      LatestIsTheDueBoundary(now, timeOfDay, due);
    }
  }

  lemma {:induction false} Multiple(k: int)
    ensures (k * DAY) % DAY == 0
  {
  }

  lemma {:induction false} SameDay(k: int, m: int, gap: int)
    requires gap == k * DAY - m * DAY && -DAY < gap < DAY
    ensures gap == 0
  {
  }

  /** For a schedule in another time zone it is the due boundary exactly when the time of day, taken
      back to UTC, is within a day of the current UTC time of day; one day off otherwise. */
  lemma {:induction false} LatestIsDueIff(now: int, timeOfDay: int, offset: int)
    requires 0 <= timeOfDay < DAY && -DAY < offset < DAY
    ensures var r, utc := LatestScheduledFor(now, timeOfDay, offset), timeOfDay - offset;
            && Boundary(r, utc)
            && (r <= now < r + DAY <==> now % DAY - DAY < utc <= now % DAY + DAY)
  {
    var d := now / DAY;
    assert now == d * DAY + now % DAY;
    var r, utc := LatestScheduledFor(now, timeOfDay, offset), timeOfDay - offset;
    assert r - utc == d * DAY || r - utc == (d - 1) * DAY;
    Multiple(d);
    Multiple(d - 1);
  }

  // ---------------------------------------------------------------- runs

  /** Starting the scheduler, or the daily or recovery job firing and its flush ending well or not. */
  datatype Step = Start(now: int, pending: bool) | Fire(now: int, ok: bool)

  /** `marker` is the persisted completion marker; `flushed` the boundaries flushed, in order. */
  datatype Job = Job(marker: Option<int>, flushed: seq<int>)

  predicate Done(j: Job, due: int) {
    j.marker.Some? && j.marker.value >= due
  }

  function Next(j: Job, step: Step, timeOfDay: int): Job {
    var due := LatestScheduledFor(step.now, timeOfDay, 0);
    match step
    case Start(_, pending) => if j.marker.None? && !pending then j.(marker := Some(due)) else j
    case Fire(_, ok) => if Done(j, due) || !ok then j else Job(Some(due), j.flushed + [due])
  }

  /** The recovery job is queued: something is due that no marker covers. */
  predicate Recovers(j: Job, now: int, pending: bool, timeOfDay: int) {
    !(j.marker.None? && !pending) && !Done(j, LatestScheduledFor(now, timeOfDay, 0))
  }

  function Run(j: Job, steps: seq<Step>, timeOfDay: int): Job {
    if steps == [] then j else Next(Run(j, steps[..|steps| - 1], timeOfDay), steps[|steps| - 1], timeOfDay)
  }

  /** Flushed boundaries only go forward and never pass the marker. */
  ghost predicate Orderly(j: Job) {
    && (forall i, k :: 0 <= i < k < |j.flushed| ==> j.flushed[i] < j.flushed[k])
    && (j.flushed != [] ==> j.marker.Some? && j.flushed[|j.flushed| - 1] <= j.marker.value)
  }

  /** Whatever the clock does and however flushes fail: the marker never goes back and no boundary is
      flushed twice. */
  lemma {:induction false} EveryRunOrderly(j: Job, steps: seq<Step>, timeOfDay: int)
    requires Orderly(j)
    ensures var r := Run(j, steps, timeOfDay);
            && Orderly(r) && j.flushed <= r.flushed
            && (j.marker.Some? ==> r.marker.Some? && j.marker.value <= r.marker.value)
  {
    if steps == [] {
    } else {
      EveryRunOrderly(j, steps[..|steps| - 1], timeOfDay);
    }
  }

  /** The marker stands where it stood, on a flushed boundary, or where a start with nothing pending
      set it. */
  lemma {:induction false} MarkerIsEarned(j: Job, steps: seq<Step>, timeOfDay: int)
    requires Orderly(j)
    ensures var r := Run(j, steps, timeOfDay);
            r.marker == j.marker ||
            (r.marker.Some? && (r.marker.value in r.flushed || SetAtStart(j, steps, timeOfDay, r.marker.value)))
  {
    if steps == [] {
    } else {
      var front, last := steps[..|steps| - 1], steps[|steps| - 1];
      MarkerIsEarned(j, front, timeOfDay);
      EveryRunOrderly(j, front, timeOfDay);
      var before, r := Run(j, front, timeOfDay), Run(j, steps, timeOfDay);
      if r.marker == before.marker {
        if r.marker != j.marker { StillEarned(j, steps, timeOfDay, before, r); }
      } else if last.Fire? {
        assert r.flushed[|r.flushed| - 1] == r.marker.value;
      } else {
        assert StartAt(j, steps, timeOfDay, r.marker.value, |front|);
      }
    }
  }

  lemma {:induction false} StillEarned(j: Job, steps: seq<Step>, timeOfDay: int, before: Job, r: Job)
    requires steps != [] && r.marker == before.marker && r.marker.Some? && before.flushed <= r.flushed
    requires
      || before.marker.value in before.flushed
      || SetAtStart(j, steps[..|steps| - 1], timeOfDay, before.marker.value)
    ensures r.marker.value in r.flushed || SetAtStart(j, steps, timeOfDay, r.marker.value)
  {
    var front := steps[..|steps| - 1];
    if r.marker.value !in r.flushed {
      var k :| StartAt(j, front, timeOfDay, r.marker.value, k);
      assert front[..k] == steps[..k];
      assert StartAt(j, steps, timeOfDay, r.marker.value, k);
    }
  }

  ghost predicate SetAtStart(j: Job, steps: seq<Step>, timeOfDay: int, value: int) {
    exists k :: StartAt(j, steps, timeOfDay, value, k)
  }

  ghost predicate StartAt(j: Job, steps: seq<Step>, timeOfDay: int, value: int, k: int) {
    && 0 <= k < |steps| && steps[k].Start? && !steps[k].pending
    && Run(j, steps[..k], timeOfDay).marker.None?
    && value == LatestScheduledFor(steps[k].now, timeOfDay, 0)
  }

  /** After a flush that ended well, the boundary due at the time is covered, and firing again, now or
      with the clock set back, flushes nothing until the next boundary has come. */
  lemma {:induction false} OncePerBoundary(j: Job, now: int, later: seq<Step>, again: int, timeOfDay: int)
    requires Orderly(j) && 0 <= timeOfDay < DAY && again < LatestScheduledFor(now, timeOfDay, 0) + DAY
    ensures var done := Run(Next(j, Fire(now, true), timeOfDay), later, timeOfDay);
            Next(done, Fire(again, true), timeOfDay) == done && !Recovers(done, again, true, timeOfDay)
  {
    var first := Next(j, Fire(now, true), timeOfDay);
    var due := LatestScheduledFor(now, timeOfDay, 0);
    EveryRunOrderly(first, later, timeOfDay);
    LatestIsTheDueBoundary(now, timeOfDay, due);
    LatestIsTheDueBoundary(again, timeOfDay, LatestScheduledFor(again, timeOfDay, 0));
    BoundariesApart(due, LatestScheduledFor(again, timeOfDay, 0), timeOfDay);
  }

  lemma {:induction false} BoundariesApart(a: int, b: int, timeOfDay: int)
    requires Boundary(a, timeOfDay) && Boundary(b, timeOfDay) && b < a + DAY
    ensures b <= a
  {
    var k, m := (a - timeOfDay) / DAY, (b - timeOfDay) / DAY;
    assert a - timeOfDay == k * DAY && b - timeOfDay == m * DAY;
  }

  // ---------------------------------------------------------------- the job

  class JobContext {
    const timeOfDay: int
    const digest: Digests.Digest
    var marker: Option<int>
    ghost var flushed: seq<int>

    ghost function View(): Job
      reads this
    {
      Job(marker, flushed)
    }

    constructor (timeOfDay: int, digest: Digests.Digest, marker: Option<int>)
      requires digest.Conserved()
      ensures this.timeOfDay == timeOfDay && this.digest == digest && View() == Job(marker, [])
    {
      this.timeOfDay, this.digest, this.marker, flushed := timeOfDay, digest, marker, [];
    }

    /** The digest part of `schedule`: a first start with nothing pending begins at the latest boundary;
        otherwise a boundary that was missed is recovered. */
    method Schedule(now: int) returns (recover: bool)
      requires digest.Conserved()
      modifies this
      ensures var pending := digest.store.Of(digest.name) != [];
              && View() == Next(old(View()), Start(now, pending), timeOfDay)
              && (recover <==> Recovers(old(View()), now, pending, timeOfDay))
      ensures 0 <= timeOfDay < DAY ==> forall due :: Boundary(due, timeOfDay) && due <= now < due + DAY ==>
        var pending := digest.store.Of(digest.name) != [];
        && (recover <==> if old(marker).Some? then old(marker).value < due else pending)
        && marker == (if old(marker).None? && !pending then Some(due) else old(marker))
    {
      var due := LatestScheduledFor(now, timeOfDay, 0);
      if 0 <= timeOfDay < DAY { OneDue(now, timeOfDay); }
      var pending := digest.store.Of(digest.name);
      recover := false;
      if marker.None? && pending == [] {
        marker := Some(due);
      } else if marker.None? || marker.value < due {
        recover := true;
      }
    }

    /** `_flush_deposit_digest`; not ok: the emit raised. A boundary already covered is left alone;
        otherwise everything stored up to the processed block is sent before the marker moves. */
    method FlushDepositDigest(now: int, processed: int, emitting: Digests.Emitting) returns (ok: bool)
      requires digest.Conserved()
      modifies this, digest, digest.store
      ensures digest.Conserved() && View() == Next(old(View()), Fire(now, ok), timeOfDay)
      ensures !ok ==> emitting.raises
      ensures Done(old(View()), LatestScheduledFor(now, timeOfDay, 0)) ==>
        ok && digest.sent == old(digest.sent) && digest.store.records == old(digest.store.records)
      ensures ok && !Done(old(View()), LatestScheduledFor(now, timeOfDay, 0)) ==>
        forall x :: x in digest.store.Of(digest.name) ==> x.block > processed || x in emitting.meanwhile
      ensures 0 <= timeOfDay < DAY ==> forall due :: Boundary(due, timeOfDay) && due <= now < due + DAY ==>
        if old(marker).Some? && old(marker).value >= due
        then ok && marker == old(marker) && digest.sent == old(digest.sent)
        else marker == if ok then Some(due) else old(marker)
      ensures digest.sent != old(digest.sent) ==>
        digest.sent != [] && digest.sent == old(digest.sent) + [digest.sent[|digest.sent| - 1]]
        && Digests.IsDigest(digest.sent[|digest.sent| - 1].sources, old(digest.store.Of(digest.name)), processed)
      ensures digest.sent != old(digest.sent) ==>
        ok && marker == Some(LatestScheduledFor(now, timeOfDay, 0)) != old(marker)
    {
      var due := LatestScheduledFor(now, timeOfDay, 0);
      if 0 <= timeOfDay < DAY { OneDue(now, timeOfDay); }
      if marker.Some? && marker.value >= due {
        return true;
      }
      ok := SendDigest(processed, emitting);
      if ok {
        marker, flushed := Some(due), flushed + [due];
      }
    }

    /** `flush_digest` up to the processed block; not ok: the emit raised, and nothing counts as sent. */
    method SendDigest(processed: int, emitting: Digests.Emitting) returns (ok: bool)
      requires digest.Conserved()
      modifies digest, digest.store
      ensures digest.Conserved() && (!ok ==> emitting.raises && digest.sent == old(digest.sent))
      ensures ok ==> forall x :: x in digest.store.Of(digest.name) ==> x.block > processed || x in emitting.meanwhile
      ensures digest.sent != old(digest.sent) ==>
        digest.sent != [] && digest.sent == old(digest.sent) + [digest.sent[|digest.sent| - 1]]
        && Digests.IsDigest(digest.sent[|digest.sent| - 1].sources, old(digest.store.Of(digest.name)), processed)
    {
      var count := digest.FlushThrough(processed, emitting);
      ok := count.Some?;
    }
  }
}
