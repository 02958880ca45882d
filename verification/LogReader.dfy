/** Reading historical logs in batches (sentinel/web3_event_log_reader.py). The provider returns
    exactly the chain's logs that match a filter; the fetched list is compared with reading the chain
    once, in order. */
module LogReader {
  import opened Events
  import opened Sorting
  import opened Windows
  import Feed

  /** A log before decoding: its first topic and everything that decoding keeps. */
  datatype RawLog = RawLog(topic: int, event: Event)

  /** A contract to follow: which of its events (None: all known ones), and which of those to keep. */
  datatype Source = Source(address: string, names: Option<set<string>>, keep: Event -> bool)

  function Decode(abi: map<int, string>, log: RawLog): Event
    requires log.topic in abi
  {
    log.event.(name := abi[log.topic])
  }

  /** The events one reader wants from one log of the chain, for one source. */
  predicate Takes(source: Source, abi: map<int, string>, log: RawLog) {
    && log.event.address == source.address
    && log.topic in abi
    && (source.names.Some? ==> abi[log.topic] in source.names.value)
    && source.keep(Decode(abi, log))
  }

  /** One copy of the decoded log for each source that takes it. */
  function Copies(sources: seq<Source>, abi: map<int, string>, log: RawLog): seq<Event> {
    if sources == [] then [] else
    var last := sources[|sources| - 1];
    Copies(sources[..|sources| - 1], abi, log) + (if Takes(last, abi, log) then [Decode(abi, log)] else [])
  }

  /** The reference: one pass over the chain, keeping what is in range and wanted. */
  function OnePass(sources: seq<Source>, abi: map<int, string>, chain: seq<RawLog>, lo: int, hi: int): seq<Event> {
    if chain == [] then [] else
    var last := chain[|chain| - 1];
    OnePass(sources, abi, chain[..|chain| - 1], lo, hi)
    + (if lo <= last.event.block <= hi then Copies(sources, abi, last) else [])
  }

  /** Logs in chain order, each at its own place. */
  ghost predicate Strict(chain: seq<RawLog>) {
    forall i, j :: 0 <= i < j < |chain| ==> !EventLeq(chain[j].event, chain[i].event)
  }

  // ---------------------------------------------------------------- provider and filters

  /** `topic_filter_for_events`: the known topics of the wanted names. */
  function TopicsFor(abi: map<int, string>, names: set<string>): set<int> {
    set t | t in abi && abi[t] in names
  }

  predicate Matches(source: Source, abi: map<int, string>, log: RawLog, lo: int, hi: int) {
    && lo <= log.event.block <= hi && log.event.address == source.address
    && (source.names.Some? ==> log.topic in TopicsFor(abi, source.names.value))
  }

  /** What the provider answers to a filter. */
  function Provided(source: Source, abi: map<int, string>, chain: seq<RawLog>, lo: int, hi: int): seq<RawLog> {
    if chain == [] then [] else
    var last := chain[|chain| - 1];
    Provided(source, abi, chain[..|chain| - 1], lo, hi) + (if Matches(source, abi, last, lo, hi) then [last] else [])
  }

  /** The events kept from an answer: known topic, wanted name, predicate. */
  function Kept(source: Source, abi: map<int, string>, logs: seq<RawLog>): seq<Event> {
    if logs == [] then [] else
    var last := logs[|logs| - 1];
    Kept(source, abi, logs[..|logs| - 1]) + KeptOf(source, abi, last)
  }

  function KeptOf(source: Source, abi: map<int, string>, log: RawLog): seq<Event> {
    if || log.topic !in abi || (source.names.Some? && abi[log.topic] !in source.names.value)
       || !source.keep(Decode(abi, log))
    then [] else [Decode(abi, log)]
  }

  function Taken(source: Source, abi: map<int, string>, chain: seq<RawLog>, lo: int, hi: int): seq<Event> {
    Kept(source, abi, Provided(source, abi, chain, lo, hi))
  }

  function BySource(sources: seq<Source>, abi: map<int, string>, chain: seq<RawLog>, lo: int, hi: int): seq<Event> {
    if sources == [] then [] else
    BySource(sources[..|sources| - 1], abi, chain, lo, hi) + Taken(sources[|sources| - 1], abi, chain, lo, hi)
  }

  lemma {:induction false} OneMoreSource(sources: seq<Source>, i: nat, abi: map<int, string>, chain: seq<RawLog>,
        lo: int, hi: int)
    requires i < |sources|
    ensures BySource(sources[..i + 1], abi, chain, lo, hi) ==
            BySource(sources[..i], abi, chain, lo, hi) + Taken(sources[i], abi, chain, lo, hi)
  {
    assert sources[..i + 1][..i] == sources[..i];
  }

  lemma {:induction false} KeptSnoc(source: Source, abi: map<int, string>, logs: seq<RawLog>, log: RawLog)
    ensures Kept(source, abi, logs + [log]) == Kept(source, abi, logs) + KeptOf(source, abi, log)
  {
    assert (logs + [log])[..|logs|] == logs;
  }

  lemma {:induction false} TakenSnoc(source: Source, abi: map<int, string>, chain: seq<RawLog>, lo: int, hi: int)
    requires chain != []
    ensures var front, last := chain[..|chain| - 1], chain[|chain| - 1];
            Taken(source, abi, chain, lo, hi) == Taken(source, abi, front, lo, hi) +
              (if lo <= last.event.block <= hi && Takes(source, abi, last) then [Decode(abi, last)] else [])
  {
    var front, last := chain[..|chain| - 1], chain[|chain| - 1];
    var before := Provided(source, abi, front, lo, hi);
    MatchingIsTaking(source, abi, last, lo, hi);
    if Matches(source, abi, last, lo, hi) {
      KeptSnoc(source, abi, before, last);
      assert Taken(source, abi, chain, lo, hi) == Kept(source, abi, before) + KeptOf(source, abi, last);
    } else {
      assert before + [] == before;
    }
  }

  /** The provider's filter lets through every log the reader would take, and the reader drops the rest. */
  lemma {:induction false} MatchingIsTaking(source: Source, abi: map<int, string>, log: RawLog, lo: int, hi: int)
    ensures (if Matches(source, abi, log, lo, hi) then KeptOf(source, abi, log) else []) ==
            (if lo <= log.event.block <= hi && Takes(source, abi, log) then [Decode(abi, log)] else [])
  {
  }

  lemma {:induction false} Regroup<T>(a: seq<T>, b: seq<T>, c: seq<T>)
    ensures (a + b) + c == a + (b + c)
    ensures b == [] ==> a + b + c == (a + c) + b
  {
  }

  lemma {:induction false} TakenNothing(source: Source, abi: map<int, string>, chain: seq<RawLog>, lo: int, hi: int)
    requires forall i :: 0 <= i < |chain| ==> !(lo <= chain[i].event.block <= hi)
    ensures Taken(source, abi, chain, lo, hi) == []
  {
    if chain == [] {
    } else {
      TakenSnoc(source, abi, chain, lo, hi);
      TakenNothing(source, abi, chain[..|chain| - 1], lo, hi);
    }
  }

  /** Two consecutive ranges give what their union gives. */
  lemma {:induction false} TakenSplit(source: Source, abi: map<int, string>, chain: seq<RawLog>, lo: int, mid: int,
        hi: int)
    requires Strict(chain) && lo - 1 <= mid <= hi
    ensures Taken(source, abi, chain, lo, hi)
      == Taken(source, abi, chain, lo, mid) + Taken(source, abi, chain, mid + 1, hi)
  {
    if chain == [] {
    } else {
      var front, last := chain[..|chain| - 1], chain[|chain| - 1];
      TakenSplit(source, abi, front, lo, mid, hi);
      TakenSnoc(source, abi, chain, lo, hi);
      TakenSnoc(source, abi, chain, lo, mid);
      TakenSnoc(source, abi, chain, mid + 1, hi);
      if last.event.block <= mid {
        TakenNothing(source, abi, front, mid + 1, hi);
      }
      SplitSnoc(Taken(source, abi, front, lo, mid), Taken(source, abi, front, mid + 1, hi),
                if Takes(source, abi, last) then [Decode(abi, last)] else [], lo, mid, hi, last.event.block);
    }
  }

  lemma {:induction false} OneMoreRange(source: Source, abi: map<int, string>, chain: seq<RawLog>,
                                        lo: int, from: int, to: int, before: seq<Event>)
    requires Strict(chain) && lo <= from <= to + 1
    ensures (before + Taken(source, abi, chain, lo, from - 1)) + Taken(source, abi, chain, from, to)
         == before + Taken(source, abi, chain, lo, to)
  {
    TakenSplit(source, abi, chain, lo, from - 1, to);
    Regroup(before, Taken(source, abi, chain, lo, from - 1), Taken(source, abi, chain, from, to));
  }

  // ---------------------------------------------------------------- fetched = one pass

  lemma {:induction false} BySourceSnoc(sources: seq<Source>, abi: map<int, string>, chain: seq<RawLog>, lo: int,
        hi: int)
    requires chain != []
    ensures var front, last := chain[..|chain| - 1], chain[|chain| - 1];
            multiset(BySource(sources, abi, chain, lo, hi)) == multiset(BySource(sources, abi, front, lo, hi)) +
              multiset(if lo <= last.event.block <= hi then Copies(sources, abi, last) else [])
  {
    if sources == [] {
    } else {
      BySourceSnoc(sources[..|sources| - 1], abi, chain, lo, hi);
      TakenSnoc(sources[|sources| - 1], abi, chain, lo, hi);
    }
  }

  lemma {:induction false} SameLogs(sources: seq<Source>, abi: map<int, string>, chain: seq<RawLog>, lo: int, hi: int)
    ensures multiset(BySource(sources, abi, chain, lo, hi)) == multiset(OnePass(sources, abi, chain, lo, hi))
  {
    if chain == [] {
      NothingAtAll(sources, abi, lo, hi);
    } else {
      SameLogs(sources, abi, chain[..|chain| - 1], lo, hi);
      BySourceSnoc(sources, abi, chain, lo, hi);
    }
  }

  lemma {:induction false} NothingAtAll(sources: seq<Source>, abi: map<int, string>, lo: int, hi: int)
    ensures BySource(sources, abi, [], lo, hi) == []
  {
    if sources == [] {
    } else {
      NothingAtAll(sources[..|sources| - 1], abi, lo, hi);
    }
  }

  lemma {:induction false} CopiesAreTheLog(sources: seq<Source>, abi: map<int, string>, log: RawLog)
    ensures forall e :: e in Copies(sources, abi, log) ==> log.topic in abi && e == Decode(abi, log)
  {
    if sources == [] {
    } else {
      CopiesAreTheLog(sources[..|sources| - 1], abi, log);
    }
  }

  /** The event is the log, under the name that its topic has. */
  ghost predicate WantedFrom(e: Event, sources: seq<Source>, abi: map<int, string>, log: RawLog) {
    && log.topic in abi && e.name == abi[log.topic] && e == log.event.(name := e.name)
    && exists i :: 0 <= i < |sources| && sources[i].address == e.address
         && (sources[i].names.Some? ==> e.name in sources[i].names.value) && sources[i].keep(e)
  }

  lemma {:induction false} CopiesMeans(sources: seq<Source>, abi: map<int, string>, log: RawLog, e: Event)
    ensures e in Copies(sources, abi, log) <==> WantedFrom(e, sources, abi, log)
  {
    if sources != [] {
      var front, last := sources[..|sources| - 1], sources[|sources| - 1];
      assert sources == front + [last];
      CopiesMeans(front, abi, log, e);
      if Takes(last, abi, log) && e == Decode(abi, log) { assert sources[|sources| - 1].address == e.address; }
      if WantedFrom(e, front, abi, log) {
        var i :| 0 <= i < |front| && front[i].address == e.address
          && (front[i].names.Some? ==> e.name in front[i].names.value) && front[i].keep(e);
        assert sources[i] == front[i];
      }
    }
  }

  /** Some source wants it from some log of the chain. */
  ghost predicate WantedFromChain(e: Event, sources: seq<Source>, abi: map<int, string>, chain: seq<RawLog>) {
    exists k :: 0 <= k < |chain| && WantedFrom(e, sources, abi, chain[k])
  }

  lemma {:induction false} WantedSnoc(e: Event, sources: seq<Source>, abi: map<int, string>, front: seq<RawLog>,
        last: RawLog)
    ensures WantedFromChain(e, sources, abi, front + [last]) <==>
      WantedFromChain(e, sources, abi, front) || WantedFrom(e, sources, abi, last)
  {
    var all := front + [last];
    if k :| 0 <= k < |front| && WantedFrom(e, sources, abi, front[k]) { assert all[k] == front[k]; }
    assert all[|front|] == last;
  }

  /** What one pass keeps: exactly the logs of the range that some source wants. */
  lemma {:induction false} OnePassMeans(sources: seq<Source>, abi: map<int, string>, chain: seq<RawLog>, lo: int,
        hi: int, e: Event)
    ensures e in OnePass(sources, abi, chain, lo, hi) <==>
      lo <= e.block <= hi && WantedFromChain(e, sources, abi, chain)
  {
    if chain != [] {
      var front, last := chain[..|chain| - 1], chain[|chain| - 1];
      assert chain == front + [last];
      OnePassMeans(sources, abi, front, lo, hi, e);
      CopiesMeans(sources, abi, last, e);
      WantedSnoc(e, sources, abi, front, last);
    }
  }

  ghost predicate ComesFrom(e: Event, abi: map<int, string>, chain: seq<RawLog>, lo: int, hi: int) {
    exists i :: 0 <= i < |chain| && chain[i].topic in abi && e == Decode(abi, chain[i]) && lo <= e.block <= hi
  }

  lemma {:induction false} OnePassFrom(sources: seq<Source>, abi: map<int, string>, chain: seq<RawLog>, lo: int,
        hi: int)
    ensures forall e :: e in OnePass(sources, abi, chain, lo, hi) ==> ComesFrom(e, abi, chain, lo, hi)
  {
    if chain == [] {
    } else {
      var front, last := chain[..|chain| - 1], chain[|chain| - 1];
      OnePassFrom(sources, abi, front, lo, hi);
      CopiesAreTheLog(sources, abi, last);
      forall e | e in OnePass(sources, abi, chain, lo, hi) ensures ComesFrom(e, abi, chain, lo, hi) {
        if e in OnePass(sources, abi, front, lo, hi) {
          var i :| 0 <= i < |front| && front[i].topic in abi && e == Decode(abi, front[i]);
          assert chain[i] == front[i];
        } else {
          assert chain[|chain| - 1] == last;
        }
      }
    }
  }

  /** The one pass is in chain order, and only copies of one log tie. */
  lemma {:induction false} OnePassOrdered(sources: seq<Source>, abi: map<int, string>, chain: seq<RawLog>, lo: int,
        hi: int)
    requires Strict(chain)
    ensures SortedBy(EventLeq, OnePass(sources, abi, chain, lo, hi))
    ensures NoTies(EventLeq, OnePass(sources, abi, chain, lo, hi))
  {
    if chain == [] {
    } else {
      var front, last := chain[..|chain| - 1], chain[|chain| - 1];
      var before := OnePass(sources, abi, front, lo, hi);
      OnePassOrdered(sources, abi, front, lo, hi);
      OnePassFrom(sources, abi, front, lo, hi);
      CopiesAreTheLog(sources, abi, last);
      forall e | e in before ensures EventLeq(e, last.event) && !EventLeq(last.event, e) {
        var i :| 0 <= i < |front| && front[i].topic in abi && e == Decode(abi, front[i]);
        assert chain[i] == front[i];
      }
      var copies := if lo <= last.event.block <= hi then Copies(sources, abi, last) else [];
      OrderedSnoc(before, copies, if last.topic in abi then Decode(abi, last) else last.event);
    }
  }

  lemma {:induction false} OrderedSnoc(before: seq<Event>, copies: seq<Event>, e: Event)
    requires SortedBy(EventLeq, before) && NoTies(EventLeq, before)
    requires forall x :: x in before ==> EventLeq(x, e) && !EventLeq(e, x)
    requires forall x :: x in copies ==> x == e
    ensures SortedBy(EventLeq, before + copies) && NoTies(EventLeq, before + copies)
  {
    var all := before + copies;
    assert forall i :: 0 <= i < |before| ==> all[i] == before[i] && before[i] in before;
    assert forall i :: |before| <= i < |all| ==> all[i] == copies[i - |before|] && all[i] in copies;
  }

  /** Sorting what was collected source by source gives the one pass over the chain. */
  lemma {:induction false} SortedIsOnePass(sources: seq<Source>, abi: map<int, string>, chain: seq<RawLog>, lo: int,
        hi: int)
    requires Strict(chain)
    ensures Sort(EventLeq, BySource(sources, abi, chain, lo, hi)) == OnePass(sources, abi, chain, lo, hi)
  {
    SameLogs(sources, abi, chain, lo, hi);
    OnePassOrdered(sources, abi, chain, lo, hi);
    EventLeqIsPreorder();
    SortSorts(EventLeq, BySource(sources, abi, chain, lo, hi));
    SortedUnique(EventLeq, OnePass(sources, abi, chain, lo, hi), Sort(EventLeq, BySource(sources, abi, chain, lo, hi)));
  }

  lemma {:induction false} OnePassNothing(sources: seq<Source>, abi: map<int, string>, chain: seq<RawLog>, lo: int,
        hi: int)
    requires forall i :: 0 <= i < |chain| ==> !(lo <= chain[i].event.block <= hi)
    ensures OnePass(sources, abi, chain, lo, hi) == []
  {
    if chain == [] {
    } else {
      OnePassNothing(sources, abi, chain[..|chain| - 1], lo, hi);
    }
  }

  lemma {:induction false} OnePassSplit(sources: seq<Source>, abi: map<int, string>, chain: seq<RawLog>, lo: int,
        mid: int, hi: int)
    requires Strict(chain) && lo - 1 <= mid <= hi
    ensures OnePass(sources, abi, chain, lo, hi)
      == OnePass(sources, abi, chain, lo, mid) + OnePass(sources, abi, chain, mid + 1, hi)
  {
    if chain == [] {
    } else {
      var front, last := chain[..|chain| - 1], chain[|chain| - 1];
      OnePassSplit(sources, abi, front, lo, mid, hi);
      if last.event.block <= mid {
        OnePassNothing(sources, abi, front, mid + 1, hi);
      }
      SplitSnoc(OnePass(sources, abi, front, lo, mid), OnePass(sources, abi, front, mid + 1, hi),
        Copies(sources, abi, last),
                lo, mid, hi, last.event.block);
    }
  }

  lemma {:induction false} SplitSnoc<T>(a: seq<T>, b: seq<T>, x: seq<T>, lo: int, mid: int, hi: int, block: int)
    requires lo - 1 <= mid <= hi && (block <= mid ==> b == [])
    ensures (a + b) + (if lo <= block <= hi then x else []) ==
            (a + (if lo <= block <= mid then x else [])) + (b + (if mid + 1 <= block <= hi then x else []))
  {
  }

  /** Fetching consecutive ranges and appending the answers, as a replay does. */
  function FetchedInTurn(sources: seq<Source>, abi: map<int, string>, chain: seq<RawLog>, ranges: seq<(int,
        int)>): seq<Event> {
    if ranges == [] then [] else
    FetchedInTurn(sources, abi, chain, ranges[..|ranges| - 1]) +
      OnePass(sources, abi, chain, ranges[|ranges| - 1].0, ranges[|ranges| - 1].1)
  }

  /** However a range is cut into consecutive ranges, fetching them in turn gives the whole range. */
  lemma {:induction false} BatchSizeDoesNotMatter(sources: seq<Source>, abi: map<int, string>, chain: seq<RawLog>,
        ranges: seq<(int, int)>, lo: int, hi: int)
    requires Strict(chain) && Cover(ranges, lo, hi)
    ensures FetchedInTurn(sources, abi, chain, ranges) == OnePass(sources, abi, chain, lo, hi)
    decreases |ranges|
  {
    if ranges == [] {
      OnePassNothing(sources, abi, chain, lo, hi);
    } else {
      var front, from := ranges[..|ranges| - 1], ranges[|ranges| - 1].0;
      assert ranges[|ranges| - 1].1 == hi;
      BatchSizeDoesNotMatter(sources, abi, chain, front, lo, from - 1);
      OnePassSplit(sources, abi, chain, lo, from - 1, hi);
    }
  }

  /** What a replay treats as the chain: every wanted log, in order. */
  function Wanted(sources: seq<Source>, abi: map<int, string>, chain: seq<RawLog>): seq<Event> {
    if chain == [] then [] else
    Wanted(sources, abi, chain[..|chain| - 1]) + Copies(sources, abi, chain[|chain| - 1])
  }

  lemma {:induction false} InRangeConcat(a: seq<Event>, b: seq<Event>, lo: int, hi: int)
    ensures Feed.InRange(a + b, lo, hi) == Feed.InRange(a, lo, hi) + Feed.InRange(b, lo, hi)
  {
    if a == [] {
      assert a + b == b;
    } else {
      assert (a + b)[1..] == a[1..] + b;
      InRangeConcat(a[1..], b, lo, hi);
    }
  }

  lemma {:induction false} InRangeOfCopies(copies: seq<Event>, lo: int, hi: int, block: int)
    requires forall e :: e in copies ==> e.block == block
    ensures Feed.InRange(copies, lo, hi) == if lo <= block <= hi then copies else []
  {
    if copies == [] {
    } else {
      assert copies[0] in copies;
      InRangeOfCopies(copies[1..], lo, hi, block);
    }
  }

  /** The batches a replay fetches are the ranges of the wanted logs, as the replay model assumes. */
  lemma {:induction false} OnePassIsInRange(sources: seq<Source>, abi: map<int, string>, chain: seq<RawLog>, lo: int,
        hi: int)
    ensures OnePass(sources, abi, chain, lo, hi) == Feed.InRange(Wanted(sources, abi, chain), lo, hi)
  {
    if chain == [] {
    } else {
      var front, last := chain[..|chain| - 1], chain[|chain| - 1];
      OnePassIsInRange(sources, abi, front, lo, hi);
      CopiesAreTheLog(sources, abi, last);
      InRangeConcat(Wanted(sources, abi, front), Copies(sources, abi, last), lo, hi);
      InRangeOfCopies(Copies(sources, abi, last), lo, hi, last.event.block);
    }
  }

  // ---------------------------------------------------------------- ranges

  /** Consecutive non-empty ranges from lo to hi; none when lo > hi. */
  ghost predicate Cover(ranges: seq<(int, int)>, lo: int, hi: int) {
    if ranges == [] then lo > hi else
    var (from, to) := ranges[|ranges| - 1];
    from <= to == hi && lo <= from && Cover(ranges[..|ranges| - 1], lo, from - 1)
  }

  // ---------------------------------------------------------------- the reader

  /** The passing of time before a request, and whether the stop event is set by its end. */
  datatype Tick = Tick(elapsed: real, stop: bool)

  datatype Fetch = Stopped | NoTopics | Fetched(events: seq<Event>)

  class Web3EventLogReader {
    const sources: seq<Source>
    const abi: map<int, string>
    const chain: seq<RawLog>
    const batchSize: Option<nat>
    const interval: Option<real>
    var lastRequest: Option<real>
    var clock: real
    var ticks: seq<Tick>
    /** Start times of the requests sent, in order. */
    ghost var requests: seq<real>

    ghost predicate Valid()
      reads this
    {
      && Strict(chain) && (batchSize.Some? ==> batchSize.value >= 1)
      && (forall k :: 0 <= k < |ticks| ==> ticks[k].elapsed >= 0.0)
      && (lastRequest.Some? ==> lastRequest.value <= clock)
      && (interval.Some? ==> Spaced(requests, interval.value))
      && (interval.Some? && requests != [] ==> lastRequest == Some(requests[|requests| - 1]))
    }

    constructor (sources: seq<Source>, abi: map<int, string>, chain: seq<RawLog>, batchSize: Option<nat>,
                 interval: Option<real>, clock: real, ticks: seq<Tick>)
      requires Strict(chain) && (batchSize.Some? ==> batchSize.value >= 1)
      requires forall k :: 0 <= k < |ticks| ==> ticks[k].elapsed >= 0.0
      ensures Valid() && requests == []
      ensures this.sources == sources && this.abi == abi && this.chain == chain && this.batchSize == batchSize
    {
      this.sources, this.abi, this.chain, this.batchSize, this.interval := sources, abi, chain, batchSize, interval;
      lastRequest, this.clock, this.ticks, requests := None, clock, ticks, [];
    }

    /** `_block_ranges`, with its generator run to the end. */
    method BlockRanges(lo: int, hi: int) returns (ranges: seq<(int, int)>)
      requires Valid()
      ensures Cover(ranges, lo, hi)
      ensures batchSize.Some? ==> forall k :: 0 <= k < |ranges| ==>
        && ranges[k].1 - ranges[k].0 < batchSize.value
        && (k < |ranges| - 1 ==> ranges[k].1 - ranges[k].0 == batchSize.value - 1)
      ensures batchSize.None? && lo <= hi ==> ranges == [(lo, hi)]
    {
      var size := if batchSize.Some? then batchSize.value else if hi - lo + 1 > 1 then hi - lo + 1 else 1;
      ranges := [];
      var from := lo;
      ghost var last := if lo <= hi then lo - 1 else hi;
      while from <= hi
        invariant from >= lo && Cover(ranges, lo, last) && last == if from <= hi then from - 1 else hi
        invariant forall k :: 0 <= k < |ranges| ==>
          ranges[k].1 - ranges[k].0 < size && (k < |ranges| - 1 || from <= hi ==> ranges[k].1 - ranges[k].0 == size - 1)
        invariant batchSize.None? ==> ranges == if from == lo then [] else [(lo, hi)]
        invariant batchSize.None? && from > lo ==> from > hi
        decreases hi - from
      {
        var to := if from + size - 1 < hi then from + size - 1 else hi;
        CoverSnoc(ranges, lo, from, to);
        ranges, last := ranges + [(from, to)], to;
        from := from + size;
      }
    }

    /** `throttle` and the request itself; None: the stop event was set. */
    method GetLogs(source: Source, lo: int, hi: int) returns (logs: Option<seq<RawLog>>)
      requires Valid()
      modifies this
      ensures Valid()
      ensures logs.Some? ==> logs.value == Provided(source, abi, chain, lo, hi)
      ensures logs.Some? && interval.Some? ==> exists t :: requests == old(requests) + [t]
      ensures old(ticks) == [] ==> logs.Some? && ticks == []
    {
      var stop := false;
      if ticks != [] {
        clock := clock + ticks[0].elapsed;
        stop := ticks[0].stop;
        ticks := ticks[1..];
      }
      if stop {
        return None;
      }
      if interval.Some? {
        if lastRequest.Some? && interval.value - (clock - lastRequest.value) > 0.0 {
          clock := lastRequest.value + interval.value;
        }
        lastRequest := Some(clock);
        requests := requests + [clock];
      }
      logs := Some(Provided(source, abi, chain, lo, hi));
    }

    /** The innermost loop of `fetch_events`. */
    method KeepWanted(source: Source, logs: seq<RawLog>, before: seq<Event>) returns (events: seq<Event>)
      ensures events == before + Kept(source, abi, logs)
    {
      events := before;
      for j := 0 to |logs|
        invariant events == before + Kept(source, abi, logs[..j])
      {
        var log := logs[j];
        assert logs[..j + 1] == logs[..j] + [log];
        KeptSnoc(source, abi, logs[..j], log);
        if log.topic !in abi {
          continue;
        }
        if source.names.Some? && abi[log.topic] !in source.names.value {
          continue;
        }
        var event := Decode(abi, log);
        if !source.keep(event) {
          continue;
        }
        events := events + [event];
      }
      assert logs[..|logs|] == logs;
    }

    /** One batch of one source. */
    method FetchBatch(source: Source, lo: int, hi: int, before: seq<Event>) returns (r: Fetch)
      requires Valid()
      modifies this
      ensures Valid() && r != NoTopics && (old(ticks) == [] ==> r != Stopped && ticks == [])
      ensures r.Fetched? ==> r.events == before + Taken(source, abi, chain, lo, hi)
    {
      var logs := GetLogs(source, lo, hi);
      if logs.None? {
        return Stopped;
      }
      var events := KeepWanted(source, logs.value, before);
      r := Fetched(events);
    }

    /** The batches of one source. */
    method FetchBatches(source: Source, lo: int, hi: int, before: seq<Event>) returns (r: Fetch)
      requires Valid()
      modifies this
      ensures Valid() && r != NoTopics && (old(ticks) == [] ==> r != Stopped && ticks == [])
      ensures r.Fetched? ==> r.events == before + Taken(source, abi, chain, lo, hi)
    {
      var ranges := BlockRanges(lo, hi);
      var events := before;
      TakenNothing(source, abi, chain, lo, lo - 1);
      if ranges == [] {
        TakenNothing(source, abi, chain, lo, hi);
      }
      ghost var done := lo - 1;
      for k := 0 to |ranges|
        invariant Valid() && (old(ticks) == [] ==> ticks == [])
        invariant done == (if k == 0 then lo - 1 else ranges[k - 1].1) && done >= lo - 1
        invariant events == before + Taken(source, abi, chain, lo, done)
      {
        CoverAt(ranges, lo, hi, k);
        var fetched := FetchBatch(source, ranges[k].0, ranges[k].1, events);
        if fetched == Stopped {
          return Stopped;
        }
        OneMoreRange(source, abi, chain, lo, ranges[k].0, ranges[k].1, before);
        events, done := fetched.events, ranges[k].1;
      }
      if ranges != [] { CoverAt(ranges, lo, hi, |ranges| - 1); }
      r := Fetched(events);
    }

    /** One source: skipped when it wants nothing, refused when no known topic has its names. */
    method FetchSource(source: Source, lo: int, hi: int, before: seq<Event>) returns (r: Fetch)
      requires Valid()
      modifies this
      ensures Valid() && (r == NoTopics <==> Unknown(source, abi)) && (old(ticks) == [] ==> r != Stopped && ticks == [])
      ensures r.Fetched? ==> r.events == before + Taken(source, abi, chain, lo, hi)
    {
      if source.names == Some({}) {
        NothingWanted(source, abi, chain, lo, hi);
        assert before + [] == before;
        return Fetched(before);
      }
      if source.names.Some? && TopicsFor(abi, source.names.value) == {} {
        NoTopicsIs(abi, source.names.value);
        return NoTopics;
      }
      if source.names.Some? { NoTopicsIs(abi, source.names.value); }
      r := FetchBatches(source, lo, hi, before);
    }

    /** `fetch_events`: unless stopped, exactly the wanted logs of the range in chain order, whatever
        the batch size; it fails when a source names events that no known topic has. */
    method FetchEvents(lo: int, hi: int) returns (r: Fetch)
      requires Valid()
      modifies this
      ensures Valid()
      ensures r.Fetched? ==> r.events == OnePass(sources, abi, chain, lo, hi) && SortedBy(EventLeq, r.events)
      ensures r.Fetched? ==> forall e :: e in r.events <==>
        lo <= e.block <= hi && WantedFromChain(e, sources, abi, chain)
      ensures r == Stopped ==> old(ticks) != []
      ensures r == NoTopics ==> exists i :: 0 <= i < |sources| && Unknown(sources[i], abi)
      ensures r.Fetched? ==> forall i :: 0 <= i < |sources| ==> !Unknown(sources[i], abi)
    {
      r := CollectEvents(lo, hi);
      if r.Fetched? {
        SortedIsOnePass(sources, abi, chain, lo, hi);
        OnePassOrdered(sources, abi, chain, lo, hi);
        forall e ensures e in OnePass(sources, abi, chain, lo, hi) <==>
          lo <= e.block <= hi && WantedFromChain(e, sources, abi, chain)
        {
          OnePassMeans(sources, abi, chain, lo, hi, e);
        }
        r := Fetched(Sort(EventLeq, r.events));
      }
    }

    /** The logs of all sources, one source after another. */
    method CollectEvents(lo: int, hi: int) returns (r: Fetch)
      requires Valid()
      modifies this
      ensures Valid()
      ensures r.Fetched? ==> r.events == BySource(sources, abi, chain, lo, hi)
      ensures r == Stopped ==> old(ticks) != []
      ensures r == NoTopics ==> exists i :: 0 <= i < |sources| && Unknown(sources[i], abi)
      ensures r.Fetched? ==> forall i :: 0 <= i < |sources| ==> !Unknown(sources[i], abi)
    {
      var events: seq<Event> := [];
      for i := 0 to |sources|
        invariant Valid() && (old(ticks) == [] ==> ticks == [])
        invariant events == BySource(sources[..i], abi, chain, lo, hi)
        invariant forall j :: 0 <= j < i ==> !Unknown(sources[j], abi)
      {
        var fetched := FetchSource(sources[i], lo, hi, events);
        if !fetched.Fetched? {
          return fetched;
        }
        OneMoreSource(sources, i, abi, chain, lo, hi);
        events := fetched.events;
      }
      assert sources[..|sources|] == sources;
      r := Fetched(events);
    }
  }

  /** Consecutive requests are at least the interval apart. */
  ghost predicate Spaced(times: seq<real>, interval: real) {
    forall k :: 0 <= k < |times| - 1 ==> times[k + 1] - times[k] >= interval
  }

  ghost predicate Unknown(source: Source, abi: map<int, string>) {
    source.names.Some? && source.names.value != {} && forall t :: t in abi ==> abi[t] !in source.names.value
  }

  lemma {:induction false} NoTopicsIs(abi: map<int, string>, names: set<string>)
    ensures TopicsFor(abi, names) == {} <==> forall t :: t in abi ==> abi[t] !in names
  {
    var topics := TopicsFor(abi, names);
    if forall t :: t in abi ==> abi[t] !in names {
      assert forall t :: t !in topics;
      assert topics == {};
    } else {
      var t :| t in abi && abi[t] in names;
      assert t in topics;
    }
  }

  lemma {:induction false} NothingWanted(source: Source, abi: map<int, string>, chain: seq<RawLog>, lo: int, hi: int)
    requires source.names == Some({})
    ensures Taken(source, abi, chain, lo, hi) == []
  {
    if chain == [] {
    } else {
      TakenSnoc(source, abi, chain, lo, hi);
      NothingWanted(source, abi, chain[..|chain| - 1], lo, hi);
    }
  }

  lemma {:induction false} CoverSnoc(ranges: seq<(int, int)>, lo: int, from: int, to: int)
    requires Cover(ranges, lo, from - 1) && lo <= from <= to
    ensures Cover(ranges + [(from, to)], lo, to)
  {
    assert (ranges + [(from, to)])[..|ranges|] == ranges;
  }

  /** Each range starts where the previous one ended, the first at lo, and the last ends at hi. */
  lemma {:induction false} CoverAt(ranges: seq<(int, int)>, lo: int, hi: int, k: nat)
    requires Cover(ranges, lo, hi) && k < |ranges|
    ensures lo <= ranges[k].0 <= ranges[k].1 <= hi
    ensures ranges[k].0 == if k == 0 then lo else ranges[k - 1].1 + 1
    ensures k == |ranges| - 1 ==> ranges[k].1 == hi
    decreases |ranges|
  {
    var front, from := ranges[..|ranges| - 1], ranges[|ranges| - 1].0;
    if front == [] {
    } else {
      CoverAt(front, lo, from - 1, if k < |front| then k else k - 1);
    }
  }
}
