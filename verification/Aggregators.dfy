/** How a flushed window becomes notifications (sentinel/modules/aggregation.py): one per node operator
    and event, one for everything, or one per operator group with its final state. */
module Aggregators {
  import opened Events
  import opened Sorting
  import opened Windows

  /** The event names of operator-group changes. What follows holds for any three names. */
  datatype GroupNames = GroupNames(created: string, updated: string, cleared: string)
  {
    function All(): set<string> {
      {created, updated, cleared}
    }
  }

  const OPERATOR_GROUP_NAMES := GroupNames("OperatorGroupCreated", "OperatorGroupUpdated", "OperatorGroupCleared")

  function Named(names: set<string>, events: seq<Event>): seq<Event> {
    if events == [] then [] else
    Named(names, events[..|events| - 1]) + (if events[|events| - 1].name in names then [events[|events| - 1]] else [])
  }

  /** The aggregator's own events, in chain order. */
  function Relevant(names: set<string>, events: seq<Event>): seq<Event> {
    Sort(EventLeq, Named(names, events))
  }

  lemma {:induction false} NamedMembers(names: set<string>, events: seq<Event>)
    ensures forall e :: e in Named(names, events) <==> e in events && e.name in names
  {
    if events == [] {
    } else {
      assert events == events[..|events| - 1] + [events[|events| - 1]];
      NamedMembers(names, events[..|events| - 1]);
    }
  }

  lemma {:induction false} RelevantMembers(names: set<string>, events: seq<Event>)
    ensures SortedBy(EventLeq, Relevant(names, events))
    ensures forall e :: e in Relevant(names, events) <==> e in events && e.name in names
  {
    NamedMembers(names, events);
    EventLeqIsPreorder();
    SortSorts(EventLeq, Named(names, events));
    SameElements(Relevant(names, events), Named(names, events));
  }

  // ---------------------------------------------------------------- grouping

  datatype Grouping = PerOperator | PerGroup

  /** The dictionary key: event name and operator id, or the group id alone. */
  function KeyOf(rule: Grouping, e: Event): (string, int) {
    match rule
    case PerOperator => (e.name, e.operatorId)
    case PerGroup => ("", e.groupId)
  }

  datatype Bucket = Bucket(key: (string, int), events: seq<Event>)

  /** `setdefault(key, []).append(event)` on an insertion-ordered dictionary. */
  function PutIn(buckets: seq<Bucket>, key: (string, int), e: Event): seq<Bucket> {
    if buckets == [] then [Bucket(key, [e])]
    else if buckets[0].key == key then [Bucket(key, buckets[0].events + [e])] + buckets[1..]
    else [buckets[0]] + PutIn(buckets[1..], key, e)
  }

  function GroupBy(rule: Grouping, events: seq<Event>): seq<Bucket> {
    if events == [] then [] else
    PutIn(GroupBy(rule, events[..|events| - 1]), KeyOf(rule, events[|events| - 1]), events[|events| - 1])
  }

  /** The events of one key, in their order. */
  function OfKey(rule: Grouping, key: (string, int), events: seq<Event>): seq<Event> {
    if events == [] then [] else
    OfKey(rule, key, events[..|events| - 1]) +
      (if KeyOf(rule, events[|events| - 1]) == key then [events[|events| - 1]] else [])
  }

  ghost predicate HasKey(buckets: seq<Bucket>, key: (string, int)) {
    exists i :: 0 <= i < |buckets| && buckets[i].key == key
  }

  ghost predicate DistinctKeys(buckets: seq<Bucket>) {
    forall i, j :: 0 <= i < j < |buckets| ==> buckets[i].key != buckets[j].key
  }

  lemma {:induction false} HasKeyTail(buckets: seq<Bucket>, key: (string, int))
    requires buckets != [] && buckets[0].key != key
    ensures HasKey(buckets, key) <==> HasKey(buckets[1..], key)
  {
    if HasKey(buckets, key) {
      var i :| 0 <= i < |buckets| && buckets[i].key == key;
      assert buckets[1..][i - 1].key == key;
    }
    if HasKey(buckets[1..], key) {
      var i :| 0 <= i < |buckets[1..]| && buckets[1..][i].key == key;
      assert buckets[i + 1].key == key;
    }
  }

  lemma {:induction false} PutInKeeps(buckets: seq<Bucket>, key: (string, int), e: Event)
    requires DistinctKeys(buckets)
    ensures var r := PutIn(buckets, key, e);
            && DistinctKeys(r) && |buckets| <= |r| <= |buckets| + 1
            && (|r| > |buckets| <==> !HasKey(buckets, key))
            && (forall i :: 0 <= i < |buckets| ==>
                  r[i] == if buckets[i].key == key then Bucket(key, buckets[i].events + [e]) else buckets[i])
            && (|r| > |buckets| ==> r[|buckets|] == Bucket(key, [e]))
  {
    if buckets == [] {
    } else if buckets[0].key == key {
    } else {
      PutInKeeps(buckets[1..], key, e);
      HasKeyTail(buckets, key);
      var rest := PutIn(buckets[1..], key, e);
      forall i | 0 <= i < |rest| ensures rest[i].key != buckets[0].key {
        if i < |buckets| - 1 { assert rest[i].key == buckets[i + 1].key; }
      }
    }
  }

  /** Each bucket holds exactly the events of its key, in their order. */
  ghost predicate Exact(buckets: seq<Bucket>, rule: Grouping, events: seq<Event>) {
    forall i :: 0 <= i < |buckets| ==>
      buckets[i].events != [] && buckets[i].events == OfKey(rule, buckets[i].key, events)
  }

  ghost predicate Covers(buckets: seq<Bucket>, rule: Grouping, events: seq<Event>) {
    forall e :: e in events ==> HasKey(buckets, KeyOf(rule, e))
  }

  /** Every event is in the bucket of its key, and in no other. */
  ghost predicate Partitions(buckets: seq<Bucket>, rule: Grouping, events: seq<Event>) {
    DistinctKeys(buckets) && Exact(buckets, rule, events) && Covers(buckets, rule, events)
  }

  lemma {:induction false} GroupByPartitions(rule: Grouping, events: seq<Event>)
    ensures Partitions(GroupBy(rule, events), rule, events)
  {
    if events == [] {
    } else {
      var front, last := events[..|events| - 1], events[|events| - 1];
      var before := GroupBy(rule, front);
      GroupByPartitions(rule, front);
      PutInKeeps(before, KeyOf(rule, last), last);
      AbsentKey(before, rule, front, KeyOf(rule, last));
      ExactStep(before, rule, events);
      CoverStep(before, rule, events);
    }
  }

  lemma {:induction false} CoverStep(before: seq<Bucket>, rule: Grouping, events: seq<Event>)
    requires events != [] && DistinctKeys(before) && Covers(before, rule, events[..|events| - 1])
    ensures Covers(PutIn(before, KeyOf(rule, events[|events| - 1]), events[|events| - 1]), rule, events)
  {
    var front, last := events[..|events| - 1], events[|events| - 1];
    var after := PutIn(before, KeyOf(rule, last), last);
    PutInKeeps(before, KeyOf(rule, last), last);
    assert events == front + [last];
    forall e | e in events ensures HasKey(after, KeyOf(rule, e)) {
      assert e in front || e == last;
      StillHasKey(before, after, KeyOf(rule, e), KeyOf(rule, last));
    }
  }

  lemma {:induction false} AbsentKey(buckets: seq<Bucket>, rule: Grouping, events: seq<Event>, key: (string, int))
    requires Covers(buckets, rule, events)
    ensures !HasKey(buckets, key) ==> OfKey(rule, key, events) == []
  {
    OfKeyMembers(rule, key, events);
    if OfKey(rule, key, events) != [] {
      var e := OfKey(rule, key, events)[0];
      assert e in OfKey(rule, key, events);
      assert HasKey(buckets, KeyOf(rule, e));
    }
  }

  lemma {:induction false} ExactStep(before: seq<Bucket>, rule: Grouping, events: seq<Event>)
    requires events != [] && DistinctKeys(before) && Exact(before, rule, events[..|events| - 1])
    requires var key := KeyOf(rule, events[|events| - 1]);
             !HasKey(before, key) ==> OfKey(rule, key, events[..|events| - 1]) == []
    ensures Exact(PutIn(before, KeyOf(rule, events[|events| - 1]), events[|events| - 1]), rule, events)
  {
    var front, last := events[..|events| - 1], events[|events| - 1];
    var after := PutIn(before, KeyOf(rule, last), last);
    PutInKeeps(before, KeyOf(rule, last), last);
    forall i | 0 <= i < |after| ensures after[i].events != [] && after[i].events == OfKey(rule, after[i].key, events) {
      if i < |before| {
        assert before[i].events == OfKey(rule, before[i].key, front);
      }
    }
  }

  lemma {:induction false} StillHasKey(before: seq<Bucket>, after: seq<Bucket>, key: (string, int), added: (string,
        int))
    requires |before| <= |after| && (forall i :: 0 <= i < |before| ==> after[i].key == before[i].key)
    requires HasKey(before, key) || key == added
    requires !HasKey(before, added) ==> |after| > |before| && after[|before|].key == added
    ensures HasKey(after, key)
  {
    if HasKey(before, key) {
      var i :| 0 <= i < |before| && before[i].key == key;
      assert after[i].key == key;
    } else {
      assert after[|before|].key == key;
    }
  }

  lemma {:induction false} OfKeyMembers(rule: Grouping, key: (string, int), events: seq<Event>)
    ensures forall e :: e in OfKey(rule, key, events) <==> e in events && KeyOf(rule, e) == key
  {
    if events == [] {
    } else {
      assert events == events[..|events| - 1] + [events[|events| - 1]];
      OfKeyMembers(rule, key, events[..|events| - 1]);
    }
  }

  // ---------------------------------------------------------------- node operators

  /** Tuple comparison on (event name, operator id). */
  predicate OperatorLeq(a: Bucket, b: Bucket) {
    || (a.key.0 != b.key.0 && StrLeq(a.key.0, b.key.0))
    || (a.key.0 == b.key.0 && a.key.1 <= b.key.1)
  }

  lemma {:induction false} OperatorLeqIsPreorder()
    ensures TotalPreorder(OperatorLeq)
  {
    forall a, b ensures OperatorLeq(a, b) || OperatorLeq(b, a) {
      StrLeqTotal(a.key.0, b.key.0);
    }
    forall a, b, c | OperatorLeq(a, b) && OperatorLeq(b, c) ensures OperatorLeq(a, c) {
      if a.key.0 != b.key.0 && b.key.0 != c.key.0 {
        StrLeqTransitive(a.key.0, b.key.0, c.key.0);
        if a.key.0 == c.key.0 { StrLeqAntisymmetric(a.key.0, b.key.0); }
      }
    }
  }

  lemma {:induction false} SortKeepsPartition(buckets: seq<Bucket>, rule: Grouping, events: seq<Event>)
    requires Partitions(buckets, rule, events)
    ensures Partitions(Sort(OperatorLeq, buckets), rule, events)
  {
    var r := Sort(OperatorLeq, buckets);
    SameElements(r, buckets);
    PermutationNoRepeats(buckets, r);
    forall i, j | 0 <= i < j < |r| ensures r[i].key != r[j].key {
      assert r[i] in buckets && r[j] in buckets;
    }
    forall i | 0 <= i < |r| ensures r[i].events != [] && r[i].events == OfKey(rule, r[i].key, events) {
      assert r[i] in buckets;
    }
    forall e | e in events ensures HasKey(r, KeyOf(rule, e)) {
      SameKeys(buckets, r, KeyOf(rule, e));
    }
  }

  lemma {:induction false} SameKeys(a: seq<Bucket>, b: seq<Bucket>, key: (string, int))
    requires HasKey(a, key) && forall x :: x in a ==> x in b
    ensures HasKey(b, key)
  {
    var k :| 0 <= k < |a| && a[k].key == key;
    assert a[k] in b;
    var i :| 0 <= i < |b| && b[i] == a[k];
    assert b[i].key == key;
  }

  lemma {:induction false} KeyOfFirst(b: Bucket, rule: Grouping, events: seq<Event>)
    requires b.events != [] && b.events == OfKey(rule, b.key, events)
    ensures KeyOf(rule, b.events[0]) == b.key
    ensures forall e :: e in b.events <==> e in events && KeyOf(rule, e) == b.key
  {
    OfKeyMembers(rule, b.key, events);
    assert b.events[0] in b.events;
  }

  /** The notification is about the events of this key. */
  predicate About(n: Notification, rule: Grouping, key: (string, int)) {
    n.sources != [] && KeyOf(rule, n.sources[0]) == key
  }

  ghost predicate Reported(notes: seq<Notification>, rule: Grouping, key: (string, int)) {
    exists i :: 0 <= i < |notes| && About(notes[i], rule, key)
  }

  /** What one window's per-operator notifications must be, given its relevant events: one per event
      name and operator, holding exactly that operator's events in their order; increasing by name and
      operator, so no event is in two of them. */
  ghost predicate OperatorSummary(notes: seq<Notification>, all: seq<Event>) {
    && (forall i :: 0 <= i < |notes| ==>
          && notes[i].sources != []
          && notes[i].sources == OfKey(PerOperator, KeyOf(PerOperator, notes[i].sources[0]), all))
    && (forall i, j :: 0 <= i < j < |notes| ==>
          KeyLess(KeyOf(PerOperator, notes[i].sources[0]), KeyOf(PerOperator, notes[j].sources[0])))
    && (forall e :: e in all ==> Reported(notes, PerOperator, KeyOf(PerOperator, e)))
  }

  lemma {:induction false} ReportedKey(buckets: seq<Bucket>, notes: seq<Notification>, rule: Grouping, key: (string,
        int))
    requires HasKey(buckets, key) && |notes| == |buckets|
    requires forall i :: 0 <= i < |notes| ==> About(notes[i], rule, buckets[i].key)
    ensures Reported(notes, rule, key)
  {
    var i :| 0 <= i < |buckets| && buckets[i].key == key;
    assert About(notes[i], rule, key);
  }

  lemma {:induction false} KeysIncrease(sorted: seq<Bucket>)
    requires DistinctKeys(sorted) && SortedBy(OperatorLeq, sorted)
    ensures forall i, j :: 0 <= i < j < |sorted| ==> KeyLess(sorted[i].key, sorted[j].key)
  {
    forall i, j | 0 <= i < j < |sorted| ensures KeyLess(sorted[i].key, sorted[j].key) {
      assert OperatorLeq(sorted[i], sorted[j]);
    }
  }

  lemma {:induction false} OperatorSummaryHolds(all: seq<Event>, sorted: seq<Bucket>, notes: seq<Notification>)
    requires Exact(sorted, PerOperator, all) && Covers(sorted, PerOperator, all)
    requires forall i, j :: 0 <= i < j < |sorted| ==> KeyLess(sorted[i].key, sorted[j].key)
    requires |notes| == |sorted| && forall i :: 0 <= i < |notes| ==> notes[i] == Notification(sorted[i].events)
    ensures OperatorSummary(notes, all)
  {
    forall i | 0 <= i < |notes|
      ensures About(notes[i], PerOperator, sorted[i].key)
      ensures notes[i].sources == OfKey(PerOperator, sorted[i].key, all)
    {
      KeyOfFirst(sorted[i], PerOperator, all);
    }
    forall e | e in all ensures Reported(notes, PerOperator, KeyOf(PerOperator, e)) {
      ReportedKey(sorted, notes, PerOperator, KeyOf(PerOperator, e));
    }
  }

  /** So every relevant event is in exactly one notification, with its whole operator. */
  lemma {:induction false} OperatorEventOnce(notes: seq<Notification>, all: seq<Event>, e: Event)
    requires OperatorSummary(notes, all) && e in all
    ensures exists i :: 0 <= i < |notes| && e in notes[i].sources &&
              forall j :: 0 <= j < |notes| && j != i ==> e !in notes[j].sources
  {
    var i :| 0 <= i < |notes| && About(notes[i], PerOperator, KeyOf(PerOperator, e));
    OfKeyMembers(PerOperator, KeyOf(PerOperator, e), all);
    assert e in notes[i].sources;
    forall j | 0 <= j < |notes| && e in notes[j].sources ensures j == i {
      OfKeyMembers(PerOperator, KeyOf(PerOperator, notes[j].sources[0]), all);
      assert KeyOf(PerOperator, notes[j].sources[0]) == KeyOf(PerOperator, notes[i].sources[0]);
    }
  }

  predicate KeyLess(a: (string, int), b: (string, int)) {
    (a.0 != b.0 && StrLeq(a.0, b.0)) || (a.0 == b.0 && a.1 < b.1)
  }

  // ---------------------------------------------------------------- operator groups

  predicate AnyNamed(events: seq<Event>, name: string) {
    exists i :: 0 <= i < |events| && events[i].name == name
  }

  /** What happened to the group in the end. */
  function FinalName(g: GroupNames, group: seq<Event>): string {
    if group == [] then g.updated
    else if group[|group| - 1].name == g.cleared then g.cleared
    else if AnyNamed(group, g.cleared) then g.updated
    else if AnyNamed(group, g.created) then g.created
    else g.updated
  }

  /** The group's events, closed by its last event under the final name when that differs. */
  function Merged(g: GroupNames, group: seq<Event>): Notification {
    if group == [] then Notification([]) else
    var last := group[|group| - 1];
    Notification(if last.name == FinalName(g, group) then group else group + [last.(name := FinalName(g, group))])
  }

  predicate PrimaryLeq(a: Notification, b: Notification) {
    a.sources != [] && b.sources != [] ==> EventLeq(a.Primary(), b.Primary())
  }

  lemma {:induction false} PrimarySorts(notes: seq<Notification>)
    requires forall n :: n in notes ==> n.sources != []
    ensures SortedBy(PrimaryLeq, Sort(PrimaryLeq, notes))
  {
    if notes == [] {
    } else {
      assert notes[0] in notes;
      assert forall n :: n in notes[1..] ==> n in notes;
      PrimarySorts(notes[1..]);
      SameElements(Sort(PrimaryLeq, notes[1..]), notes[1..]);
      PrimaryInserts(notes[0], Sort(PrimaryLeq, notes[1..]));
    }
  }

  lemma {:induction false} PrimaryInserts(n: Notification, notes: seq<Notification>)
    requires n.sources != [] && (forall m :: m in notes ==> m.sources != []) && SortedBy(PrimaryLeq, notes)
    ensures SortedBy(PrimaryLeq, Insert(PrimaryLeq, n, notes))
  {
    if notes == [] {
    } else if PrimaryLeq(n, notes[0]) {
      assert forall k :: 0 <= k < |notes| ==> notes[k] in notes;
    } else {
      assert notes[0] in notes;
      assert forall m :: m in notes[1..] ==> m in notes;
      PrimaryInserts(n, notes[1..]);
      var tail := Insert(PrimaryLeq, n, notes[1..]);
      SameElements(tail, notes[1..] + [n]);
      assert forall m :: m in tail ==> PrimaryLeq(notes[0], m);
    }
  }

  /** What one window's operator-group notifications must be, given its relevant events: one per group
      id, made of exactly that group's events, ordered by primary event. */
  ghost predicate GroupSummary(g: GroupNames, notes: seq<Notification>, all: seq<Event>) {
    && (forall i :: 0 <= i < |notes| ==> IsMerged(g, notes[i], all))
    && (forall i, j :: 0 <= i < j < |notes| ==> !SameGroup(notes[i], notes[j]))
    && (forall e :: e in all ==> Reported(notes, PerGroup, KeyOf(PerGroup, e)))
    && SortedBy(PrimaryLeq, notes)
  }

  predicate SameGroup(m: Notification, n: Notification) {
    m.sources != [] && About(n, PerGroup, KeyOf(PerGroup, m.sources[0]))
  }

  ghost predicate IsMerged(g: GroupNames, n: Notification, all: seq<Event>) {
    n.sources != [] &&
    var group := OfKey(PerGroup, KeyOf(PerGroup, n.sources[0]), all);
    group != [] && n == Merged(g, group)
  }

  lemma {:induction false} MergedBuckets(g: GroupNames, all: seq<Event>, buckets: seq<Bucket>,
        merged: seq<Notification>)
    requires Exact(buckets, PerGroup, all) && |merged| == |buckets|
    requires forall i :: 0 <= i < |merged| ==> buckets[i].events != [] && merged[i] == Merged(g, buckets[i].events)
    ensures forall i :: 0 <= i < |merged| ==> About(merged[i], PerGroup, buckets[i].key) && IsMerged(g, merged[i], all)
  {
    forall i | 0 <= i < |merged| ensures About(merged[i], PerGroup, buckets[i].key) && IsMerged(g, merged[i], all) {
      KeyOfFirst(buckets[i], PerGroup, all);
      assert merged[i].sources[0] == buckets[i].events[0];
    }
  }

  /** Reordering notifications of distinct groups keeps them so. */
  lemma {:induction false} Reordered(buckets: seq<Bucket>, merged: seq<Notification>, notes: seq<Notification>)
    requires DistinctKeys(buckets) && |merged| == |buckets| && multiset(merged) == multiset(notes)
    requires forall i :: 0 <= i < |merged| ==> About(merged[i], PerGroup, buckets[i].key)
    ensures forall i, j :: 0 <= i < j < |notes| ==> !SameGroup(notes[i], notes[j])
    ensures forall n :: n in notes <==> n in merged
  {
    SameElements(notes, merged);
    PermutationNoRepeats(merged, notes);
    forall i, j | 0 <= i < j < |notes| ensures !SameGroup(notes[i], notes[j]) {
      assert notes[i] in merged && notes[j] in merged;
    }
  }

  lemma {:induction false} StillReported(merged: seq<Notification>, notes: seq<Notification>, key: (string, int))
    requires Reported(merged, PerGroup, key) && forall n :: n in merged ==> n in notes
    ensures Reported(notes, PerGroup, key)
  {
    var k :| 0 <= k < |merged| && About(merged[k], PerGroup, key);
    assert merged[k] in notes;
    var i :| 0 <= i < |notes| && notes[i] == merged[k];
    assert About(notes[i], PerGroup, key);
  }

  lemma {:induction false} GroupSummaryHolds(g: GroupNames, all: seq<Event>, buckets: seq<Bucket>,
        merged: seq<Notification>)
    requires Partitions(buckets, PerGroup, all) && |merged| == |buckets|
    requires forall i :: 0 <= i < |merged| ==> buckets[i].events != [] && merged[i] == Merged(g, buckets[i].events)
    ensures GroupSummary(g, Sort(PrimaryLeq, merged), all)
  {
    var notes := Sort(PrimaryLeq, merged);
    MergedBuckets(g, all, buckets, merged);
    Reordered(buckets, merged, notes);
    PrimarySorts(merged);
    forall i | 0 <= i < |notes| ensures IsMerged(g, notes[i], all) {
      assert notes[i] in merged;
    }
    forall e | e in all ensures Reported(notes, PerGroup, KeyOf(PerGroup, e)) {
      ReportedKey(buckets, merged, PerGroup, KeyOf(PerGroup, e));
      StillReported(merged, notes, KeyOf(PerGroup, e));
    }
  }

  /** So every relevant event is in exactly one notification, with its whole group. */
  lemma {:induction false} GroupEventOnce(g: GroupNames, notes: seq<Notification>, all: seq<Event>, e: Event)
    requires GroupSummary(g, notes, all) && e in all
    ensures exists i :: 0 <= i < |notes| && e in notes[i].sources &&
              forall j :: 0 <= j < |notes| && j != i ==> e !in notes[j].sources
  {
    var i :| 0 <= i < |notes| && About(notes[i], PerGroup, KeyOf(PerGroup, e));
    OfKeyMembers(PerGroup, KeyOf(PerGroup, e), all);
    assert IsMerged(g, notes[i], all);
    assert e in notes[i].sources;
    forall j | 0 <= j < |notes| && e in notes[j].sources ensures j == i {
      SourcesOfOneGroup(g, notes[j], all, e);
      assert SameGroup(notes[i], notes[j]) && SameGroup(notes[j], notes[i]);
    }
  }

  lemma {:induction false} SourcesOfOneGroup(g: GroupNames, n: Notification, all: seq<Event>, e: Event)
    requires IsMerged(g, n, all) && e in n.sources
    ensures KeyOf(PerGroup, e) == KeyOf(PerGroup, n.sources[0])
  {
    var group := OfKey(PerGroup, KeyOf(PerGroup, n.sources[0]), all);
    OfKeyMembers(PerGroup, KeyOf(PerGroup, n.sources[0]), all);
    assert group[|group| - 1] in group;
  }

  /** The primary event is the group's last event under the final name: cleared when the group ends
      cleared, created when it was created and never cleared, updated otherwise. At most one event is
      made up, and it stands for the same log as the last one, with the same arguments. */
  lemma {:induction false} MergedMeaning(g: GroupNames, group: seq<Event>)
    requires OwnEvents(g, group) && g.created != g.updated && g.created != g.cleared && g.updated != g.cleared
    ensures var n, last := Merged(g, group), group[|group| - 1];
            var cleared := exists e :: e in group && e.name == g.cleared;
            var created := exists e :: e in group && e.name == g.created;
            && n.sources != [] && group <= n.sources && |n.sources| <= |group| + 1
            && n.Primary() == last.(name := n.Primary().name) && n.Primary().Identity() == last.Identity()
            && n.Primary().name in g.All()
            && (n.Primary().name == g.cleared <==> last.name == g.cleared)
            && (n.Primary().name == g.created <==> created && !cleared)
            && (|n.sources| == |group| <==> last.name == n.Primary().name)
  {
    AnyNamedIs(group, g.cleared);
    AnyNamedIs(group, g.created);
    var last := group[|group| - 1];
    assert last in group && last.name in g.All();
  }

  lemma {:induction false} AnyNamedIs(group: seq<Event>, name: string)
    ensures AnyNamed(group, name) <==> exists e :: e in group && e.name == name
  {
    if AnyNamed(group, name) {
      var i :| 0 <= i < |group| && group[i].name == name;
      assert group[i] in group;
    }
  }

  // ---------------------------------------------------------------- told by the ids

  ghost predicate InSome(notes: seq<Notification>, e: Event) {
    exists i :: 0 <= i < |notes| && e in notes[i].sources
  }

  /** The notifications have the window's own events and no others, each as often as the window; each is
      about one event name and one operator, they come by name and then by operator id, and no event is left
      out. */
  ghost predicate SplitByOperator(notes: seq<Notification>, names: set<string>, events: seq<Event>) {
    && (forall i, x :: 0 <= i < |notes| && x in notes[i].sources ==>
          x.name in names && multiset(notes[i].sources)[x] == multiset(events)[x])
    && (forall i, x, y :: 0 <= i < |notes| && x in notes[i].sources && y in notes[i].sources ==>
          x.name == y.name && x.operatorId == y.operatorId)
    && (forall i, j, x, y :: 0 <= i < j < |notes| && x in notes[i].sources && y in notes[j].sources ==>
          (x.name != y.name && StrLeq(x.name, y.name)) || (x.name == y.name && x.operatorId < y.operatorId))
    && (forall x :: x in events && x.name in names ==> InSome(notes, x))
    && (forall i :: 0 <= i < |notes| ==> notes[i].sources != [] && SortedBy(EventLeq, notes[i].sources))
  }

  /** Each notification is about one group id and no two about the same; no event is left out. One says
      created exactly when its group was created and never cleared. */
  ghost predicate SplitByGroup(g: GroupNames, notes: seq<Notification>, events: seq<Event>) {
    && (forall i, x, y :: 0 <= i < |notes| && x in notes[i].sources && y in notes[i].sources ==>
          x.groupId == y.groupId)
    && (forall i, j, x, y :: 0 <= i < j < |notes| && x in notes[i].sources && y in notes[j].sources ==>
          x.groupId != y.groupId)
    && (forall x :: x in events && x.name in g.All() ==> InSome(notes, x))
    && (forall i :: 0 <= i < |notes| ==>
          notes[i].sources != [] && ClosedBySome(g, notes[i].sources, events)
          && TellsGroup(g, notes[i].Primary(), events))
  }

  ghost predicate Happened(events: seq<Event>, name: string, groupId: int) {
    exists e :: e in events && e.name == name && e.groupId == groupId
  }

  ghost predicate TellsGroup(g: GroupNames, primary: Event, events: seq<Event>) {
    && primary.name in g.All()
    && (primary.name == g.created <==>
          Happened(events, g.created, primary.groupId) && !Happened(events, g.cleared, primary.groupId))
  }

  ghost predicate ClosedBySome(g: GroupNames, sources: seq<Event>, events: seq<Event>)
    requires sources != []
  {
    exists last :: Closed(g, sources, events, last)
  }

  /** The sources are all events of the group, in chain order, the last of them again under another name if
      the primary event has another; that is so only if neither name says cleared. */
  ghost predicate Closed(g: GroupNames, sources: seq<Event>, events: seq<Event>, last: Event)
    requires sources != []
  {
    var primary := sources[|sources| - 1];
    var own := if primary.name == last.name then sources else sources[..|sources| - 1];
    && own != [] && own[|own| - 1] == last && primary == last.(name := primary.name)
    && (primary.name == g.cleared <==> last.name == g.cleared)
    && SortedBy(EventLeq, own)
    && IsGroup(g, own, events, primary.groupId)
  }

  /** Exactly the window's events of the group, each as often as in the window. */
  ghost predicate IsGroup(g: GroupNames, own: seq<Event>, events: seq<Event>, id: int) {
    forall x :: multiset(own)[x] == if x.name in g.All() && x.groupId == id then multiset(events)[x] else 0
  }

  lemma {:induction false} NamedCounts(names: set<string>, events: seq<Event>, x: Event)
    ensures multiset(Named(names, events))[x] == if x.name in names then multiset(events)[x] else 0
  {
    if events != [] {
      assert events == events[..|events| - 1] + [events[|events| - 1]];
      NamedCounts(names, events[..|events| - 1], x);
    }
  }

  lemma {:induction false} OfKeyCounts(rule: Grouping, key: (string, int), events: seq<Event>, x: Event)
    ensures multiset(OfKey(rule, key, events))[x] == if KeyOf(rule, x) == key then multiset(events)[x] else 0
  {
    if events != [] {
      assert events == events[..|events| - 1] + [events[|events| - 1]];
      OfKeyCounts(rule, key, events[..|events| - 1], x);
    }
  }

  /** An event is among those of its key as often as it is in the window. */
  lemma {:induction false} OwnCounts(names: set<string>, rule: Grouping, key: (string, int), events: seq<Event>,
        x: Event)
    ensures multiset(OfKey(rule, key, Relevant(names, events)))[x]
      == if x.name in names && KeyOf(rule, x) == key then multiset(events)[x] else 0
  {
    NamedCounts(names, events, x);
    OfKeyCounts(rule, key, Relevant(names, events), x);
  }

  lemma {:induction false} OfKeySorted(rule: Grouping, key: (string, int), events: seq<Event>)
    requires SortedBy(EventLeq, events)
    ensures SortedBy(EventLeq, OfKey(rule, key, events))
  {
    if events != [] {
      var front, last := events[..|events| - 1], events[|events| - 1];
      OfKeySorted(rule, key, front);
      OfKeyMembers(rule, key, front);
      var kept := OfKey(rule, key, front);
      forall i | 0 <= i < |kept| ensures EventLeq(kept[i], last) {
        assert kept[i] in kept;
        assert kept[i] in front;
        var k :| 0 <= k < |front| && front[k] == kept[i];
        assert events[k] == front[k];
      }
    }
  }

  lemma {:induction false} OperatorsApart(notes: seq<Notification>, names: set<string>, events: seq<Event>)
    requires OperatorSummary(notes, Relevant(names, events))
    ensures SplitByOperator(notes, names, events)
  {
    var all := Relevant(names, events);
    RelevantMembers(names, events);
    forall i, x | 0 <= i < |notes| && x in notes[i].sources
      ensures x.name in names && multiset(notes[i].sources)[x] == multiset(events)[x]
      ensures x.name == notes[i].sources[0].name && x.operatorId == notes[i].sources[0].operatorId
    {
      OfKeyMembers(PerOperator, KeyOf(PerOperator, notes[i].sources[0]), all);
      assert x in all && KeyOf(PerOperator, x) == KeyOf(PerOperator, notes[i].sources[0]);
      OwnCounts(names, PerOperator, KeyOf(PerOperator, notes[i].sources[0]), events, x);
    }
    forall i | 0 <= i < |notes| ensures SortedBy(EventLeq, notes[i].sources) {
      OfKeySorted(PerOperator, KeyOf(PerOperator, notes[i].sources[0]), all);
    }
    forall x | x in events && x.name in names ensures InSome(notes, x) {
      OperatorEventOnce(notes, all, x);
    }
    forall i, j, x, y | 0 <= i < j < |notes| && x in notes[i].sources && y in notes[j].sources
      ensures (x.name != y.name && StrLeq(x.name, y.name)) || (x.name == y.name && x.operatorId < y.operatorId)
    {
      assert KeyLess(KeyOf(PerOperator, notes[i].sources[0]), KeyOf(PerOperator, notes[j].sources[0]));
    }
  }

  lemma {:induction false} GroupsApart(g: GroupNames, notes: seq<Notification>, events: seq<Event>)
    requires GroupSummary(g, notes, Relevant(g.All(), events))
    requires g.created != g.updated && g.created != g.cleared && g.updated != g.cleared
    ensures SplitByGroup(g, notes, events)
  {
    var all := Relevant(g.All(), events);
    RelevantMembers(g.All(), events);
    forall i, x | 0 <= i < |notes| && x in notes[i].sources ensures x.groupId == notes[i].sources[0].groupId {
      SourcesOfOneGroup(g, notes[i], all, x);
    }
    forall i, j, x, y | 0 <= i < j < |notes| && x in notes[i].sources && y in notes[j].sources
      ensures x.groupId != y.groupId
    {
      assert !SameGroup(notes[i], notes[j]);
    }
    forall x | x in events && x.name in g.All() ensures InSome(notes, x) { GroupEventOnce(g, notes, all, x); }
    forall i | 0 <= i < |notes|
      ensures notes[i].sources != [] && ClosedBySome(g, notes[i].sources, events)
      ensures TellsGroup(g, notes[i].Primary(), events)
    {
      GroupTold(g, notes[i], events);
    }
  }

  lemma {:induction false} GroupTold(g: GroupNames, n: Notification, events: seq<Event>)
    requires IsMerged(g, n, Relevant(g.All(), events))
    requires g.created != g.updated && g.created != g.cleared && g.updated != g.cleared
    ensures n.sources != [] && TellsGroup(g, n.Primary(), events) && ClosedBySome(g, n.sources, events)
  {
    var all := Relevant(g.All(), events);
    var group := OfKey(PerGroup, KeyOf(PerGroup, n.sources[0]), all);
    RelevantMembers(g.All(), events);
    OfKeyMembers(PerGroup, KeyOf(PerGroup, n.sources[0]), all);
    forall i | 0 <= i < |group| ensures group[i].name in g.All() && group[i] in events { assert group[i] in group; }
    MergedMeaning(g, group);
    assert n.Primary().groupId == group[|group| - 1].groupId;
    assert group[|group| - 1] in group;
    forall e | e in events && e.name in g.All() && e.groupId == n.Primary().groupId ensures e in group {
      assert KeyOf(PerGroup, e) == KeyOf(PerGroup, n.sources[0]);
    }
    GroupClosed(g, n, events, group);
  }

  lemma {:induction false} GroupClosed(g: GroupNames, n: Notification, events: seq<Event>, group: seq<Event>)
    requires n.sources != [] && group == OfKey(PerGroup, KeyOf(PerGroup, n.sources[0]), Relevant(g.All(), events))
    requires OwnEvents(g, group) && n == Merged(g, group)
    requires g.created != g.updated && g.created != g.cleared && g.updated != g.cleared
    ensures ClosedBySome(g, n.sources, events)
  {
    var key := KeyOf(PerGroup, n.sources[0]);
    OwnIsGroup(g, events, key, group);
    MergedCloses(g, n.sources, events, group, key.1);
  }

  lemma {:induction false} MergedCloses(g: GroupNames, sources: seq<Event>, events: seq<Event>, group: seq<Event>,
        id: int)
    requires OwnEvents(g, group) && sources == Merged(g, group).sources
    requires g.created != g.updated && g.created != g.cleared && g.updated != g.cleared
    requires SortedBy(EventLeq, group) && IsGroup(g, group, events, id) && group[|group| - 1].groupId == id
    ensures sources != [] && ClosedBySome(g, sources, events)
  {
    MergedMeaning(g, group);
    ClosedBy(g, sources, events, group, id);
  }

  lemma {:induction false} OwnIsGroup(g: GroupNames, events: seq<Event>, key: (string, int), group: seq<Event>)
    requires group == OfKey(PerGroup, key, Relevant(g.All(), events)) && group != [] && key.0 == ""
    ensures SortedBy(EventLeq, group) && IsGroup(g, group, events, key.1) && group[|group| - 1].groupId == key.1
  {
    RelevantMembers(g.All(), events);
    OfKeySorted(PerGroup, key, Relevant(g.All(), events));
    OfKeyMembers(PerGroup, key, Relevant(g.All(), events));
    forall x ensures multiset(group)[x] == if x.name in g.All() && x.groupId == key.1 then multiset(events)[x] else 0 {
      OwnCounts(g.All(), PerGroup, key, events, x);
    }
    var last := group[|group| - 1];
    assert last in group;
    assert KeyOf(PerGroup, last) == key;
  }

  lemma {:induction false} ClosedBy(g: GroupNames, sources: seq<Event>, events: seq<Event>, group: seq<Event>, id: int)
    requires sources != [] && group != [] && group <= sources && |sources| <= |group| + 1
    requires var primary, last := sources[|sources| - 1], group[|group| - 1];
             && primary == last.(name := primary.name) && (primary.name == g.cleared <==> last.name == g.cleared)
             && (|sources| == |group| <==> last.name == primary.name) && last.groupId == id
    requires SortedBy(EventLeq, group)
    requires IsGroup(g, group, events, id)
    ensures ClosedBySome(g, sources, events)
  {
    var primary, last := sources[|sources| - 1], group[|group| - 1];
    assert group == if primary.name == last.name then sources else sources[..|sources| - 1];
    assert Closed(g, sources, events, last);
  }

  // ---------------------------------------------------------------- the aggregators

  /** What a window becomes: one notification per event name and operator. */
  function OperatorNotes(names: set<string>, events: seq<Event>): seq<Notification> {
    var sorted := Sort(OperatorLeq, GroupBy(PerOperator, Relevant(names, events)));
    seq(|sorted|, i requires 0 <= i < |sorted| => Notification(sorted[i].events))
  }

  /** One for everything relevant, or none. */
  function GlobalNotes(names: set<string>, events: seq<Event>): seq<Notification> {
    if Relevant(names, events) == [] then [] else [Notification(Relevant(names, events))]
  }

  function MergedAll(g: GroupNames, buckets: seq<Bucket>): seq<Notification> {
    seq(|buckets|, i requires 0 <= i < |buckets| => Merged(g, buckets[i].events))
  }

  /** One per group id, with the group's final state. */
  function GroupNotes(g: GroupNames, events: seq<Event>): seq<Notification> {
    Sort(PrimaryLeq, MergedAll(g, GroupBy(PerGroup, Relevant(g.All(), events))))
  }

  lemma {:induction false} OperatorNotesSummary(names: set<string>, events: seq<Event>)
    ensures OperatorSummary(OperatorNotes(names, events), Relevant(names, events))
  {
    var all := Relevant(names, events);
    var buckets := GroupBy(PerOperator, all);
    GroupByPartitions(PerOperator, all);
    SortKeepsPartition(buckets, PerOperator, all);
    OperatorLeqIsPreorder();
    SortSorts(OperatorLeq, buckets);
    KeysIncrease(Sort(OperatorLeq, buckets));
    OperatorSummaryHolds(all, Sort(OperatorLeq, buckets), OperatorNotes(names, events));
  }

  lemma {:induction false} GroupNotesSummary(g: GroupNames, events: seq<Event>)
    ensures GroupSummary(g, GroupNotes(g, events), Relevant(g.All(), events))
  {
    var all := Relevant(g.All(), events);
    var buckets := GroupBy(PerGroup, all);
    RelevantMembers(g.All(), events);
    GroupByPartitions(PerGroup, all);
    BucketsOwn(g, buckets, all);
    assert forall i :: 0 <= i < |buckets| ==> OwnEvents(g, buckets[i].events);
    GroupSummaryHolds(g, all, buckets, MergedAll(g, buckets));
  }

  /** `sorted(event for event in events if event.event in names)`. */
  method RelevantEvents(names: set<string>, events: seq<Event>) returns (all: seq<Event>)
    ensures all == Relevant(names, events)
  {
    var kept: seq<Event> := [];
    for k := 0 to |events|
      invariant kept == Named(names, events[..k])
    {
      assert events[..k + 1][..k] == events[..k];
      if events[k].name in names {
        kept := kept + [events[k]];
      }
    }
    assert events[..|events|] == events;
    all := Sort(EventLeq, kept);
  }

  /** The grouping loop shared by the aggregators. */
  method EventsByKey(rule: Grouping, events: seq<Event>) returns (buckets: seq<Bucket>)
    ensures buckets == GroupBy(rule, events)
  {
    buckets := [];
    for k := 0 to |events|
      invariant buckets == GroupBy(rule, events[..k])
    {
      assert events[..k + 1][..k] == events[..k];
      buckets := PutIn(buckets, KeyOf(rule, events[k]), events[k]);
    }
    assert events[..|events|] == events;
  }

  /** `NodeOperatorEventAggregator.aggregate`. */
  method AggregateOperators(names: set<string>, events: seq<Event>) returns (notes: seq<Notification>)
    ensures notes == OperatorNotes(names, events) && OperatorSummary(notes, Relevant(names, events))
    ensures SplitByOperator(notes, names, events)
  {
    var all := RelevantEvents(names, events);
    var buckets := EventsByKey(PerOperator, all);
    notes := OneEach(Sort(OperatorLeq, buckets));
    OperatorNotesSummary(names, events);
    OperatorsApart(notes, names, events);
  }

  method OneEach(buckets: seq<Bucket>) returns (notes: seq<Notification>)
    ensures notes == seq(|buckets|, i requires 0 <= i < |buckets| => Notification(buckets[i].events))
  {
    notes := [];
    for k := 0 to |buckets|
      invariant |notes| == k && forall i :: 0 <= i < k ==> notes[i] == Notification(buckets[i].events)
    {
      notes := notes + [Notification(buckets[k].events)];
    }
  }

  /** `GlobalEventAggregator.aggregate`: everything relevant in one notification, or none. */
  method AggregateGlobal(names: set<string>, events: seq<Event>) returns (notes: seq<Notification>)
    ensures notes == GlobalNotes(names, events)
    ensures notes == [] <==> forall e :: e in events ==> e.name !in names
    ensures notes != [] ==> |notes| == 1 && notes[0].sources == Relevant(names, events)
    ensures notes != [] ==> SortedBy(EventLeq, notes[0].sources)
    ensures notes != [] ==> forall x ::
      multiset(notes[0].sources)[x] == if x.name in names then multiset(events)[x] else 0
  {
    var all := RelevantEvents(names, events);
    RelevantMembers(names, events);
    if all == [] {
      assert forall e :: e in events && e.name in names ==> e in all;
      return [];
    }
    assert all[0] in all;
    forall x ensures multiset(all)[x] == if x.name in names then multiset(events)[x] else 0 {
      NamedCounts(names, events, x);
    }
    notes := [Notification(all)];
  }

  predicate IsInfo(g: GroupNames, e: Event) {
    e.name == g.created || e.name == g.updated
  }

  predicate LastInfoAt(g: GroupNames, group: seq<Event>, i: int) {
    0 <= i < |group| && IsInfo(g, group[i]) && forall j :: i < j < |group| ==> !IsInfo(g, group[j])
  }

  /** `_last_group_info_event`: the search goes backwards. */
  method LastInfoEvent(g: GroupNames, group: seq<Event>) returns (found: Option<Event>)
    ensures found.None? ==> forall i :: 0 <= i < |group| ==> !IsInfo(g, group[i])
    ensures found.Some? ==> exists i :: LastInfoAt(g, group, i) && group[i] == found.value
  {
    var i := |group|;
    while i > 0
      invariant 0 <= i <= |group|
      invariant forall j :: i <= j < |group| ==> !IsInfo(g, group[j])
    {
      i := i - 1;
      if IsInfo(g, group[i]) {
        return Some(group[i]);
      }
    }
    found := None;
  }

  predicate OwnEvents(g: GroupNames, group: seq<Event>) {
    group != [] && forall i :: 0 <= i < |group| ==> group[i].name in g.All()
  }

  /** `_notification_for_group`; with only the group's own events it always has a result. */
  method NotificationForGroup(g: GroupNames, group: seq<Event>) returns (n: Option<Notification>)
    requires group != []
    ensures OwnEvents(g, group) ==> n == Some(Merged(g, group))
  {
    var last := group[|group| - 1];
    if last.name == g.cleared {
      return Some(Notification(group));
    }
    var info := LastInfoEvent(g, group);
    if info.None? {
      return None;
    }
    var name := g.updated;
    if AnyNamed(group, g.cleared) {
      name := g.updated;
    } else if AnyNamed(group, g.created) {
      name := g.created;
    }
    if info.value.name == name {
      return Some(Notification(group));
    }
    n := Some(Notification(group + [info.value.(name := name)]));
  }

  /** `OperatorGroupChangeAggregator.aggregate`. */
  method AggregateGroups(g: GroupNames, events: seq<Event>) returns (notes: seq<Notification>)
    ensures notes == GroupNotes(g, events) && GroupSummary(g, notes, Relevant(g.All(), events))
    ensures g.created != g.updated && g.created != g.cleared && g.updated != g.cleared ==>
      SplitByGroup(g, notes, events)
    ensures forall i, j :: 0 <= i < j < |notes| ==>
      notes[i].sources != [] && notes[j].sources != [] && EventLeq(notes[i].Primary(), notes[j].Primary())
  {
    var all := RelevantEvents(g.All(), events);
    RelevantMembers(g.All(), events);
    var buckets := EventsByKey(PerGroup, all);
    GroupByPartitions(PerGroup, all);
    BucketsOwn(g, buckets, all);
    var merged := MergeEach(g, buckets);
    assert merged == MergedAll(g, buckets);
    GroupNotesSummary(g, events);
    notes := Sort(PrimaryLeq, merged);
    if g.created != g.updated && g.created != g.cleared && g.updated != g.cleared { GroupsApart(g, notes, events); }
  }

  method MergeEach(g: GroupNames, buckets: seq<Bucket>) returns (merged: seq<Notification>)
    requires forall i :: 0 <= i < |buckets| ==> OwnEvents(g, buckets[i].events)
    ensures |merged| == |buckets|
    ensures forall i :: 0 <= i < |merged| ==> merged[i] == Merged(g, buckets[i].events)
  {
    merged := [];
    for k := 0 to |buckets|
      invariant |merged| == k
      invariant forall i :: 0 <= i < k ==> merged[i] == Merged(g, buckets[i].events)
    {
      var n := NotificationForGroup(g, buckets[k].events);
      if n.Some? {
        merged := merged + [n.value];
      }
    }
  }

  lemma {:induction false} BucketsOwn(g: GroupNames, buckets: seq<Bucket>, all: seq<Event>)
    requires Exact(buckets, PerGroup, all) && forall e :: e in all ==> e.name in g.All()
    ensures forall i :: 0 <= i < |buckets| ==> OwnEvents(g, buckets[i].events)
  {
    forall i | 0 <= i < |buckets| ensures OwnEvents(g, buckets[i].events) {
      KeyOfFirst(buckets[i], PerGroup, all);
      assert forall j :: 0 <= j < |buckets[i].events| ==> buckets[i].events[j] in buckets[i].events;
    }
  }
}
