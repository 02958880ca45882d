/** Digests: events kept until a daily message (sentinel/services/digest.py, sentinel/app/storage.py). */
module Digests {
  import opened Events
  import opened Sorting
  import opened Windows

  // ---------------------------------------------------------------- the stored list

  /** A dictionary keyed by identity: the first occurrence gives the place, the last one the value. */
  function Put(s: seq<Event>, e: Event): (r: seq<Event>)
  {
    if s == [] then [e]
    else if s[0].Identity() == e.Identity() then [e] + s[1..]
    else [s[0]] + Put(s[1..], e)
  }

  function ByIdentity(s: seq<Event>): seq<Event> {
    if s == [] then [] else Put(ByIdentity(s[..|s| - 1]), s[|s| - 1])
  }

  /** What `replace` stores. */
  function Stored(s: seq<Event>): seq<Event> {
    Sort(EventLeq, ByIdentity(s))
  }

  predicate Has(s: seq<Event>, id: (string, string, int)) {
    exists k :: 0 <= k < |s| && s[k].Identity() == id
  }

  /** Chain order, and one event per identity. */
  ghost predicate Tidy(s: seq<Event>) {
    SortedBy(EventLeq, s) && UniqueIdentities(s)
  }

  ghost predicate UniqueIdentities(s: seq<Event>) {
    forall i, j :: 0 <= i < j < |s| ==> s[i].Identity() != s[j].Identity()
  }

  lemma {:induction false} PutKeeps(s: seq<Event>, e: Event)
    requires UniqueIdentities(s)
    ensures UniqueIdentities(Put(s, e)) && e in Put(s, e)
    ensures forall x :: x in Put(s, e) <==> x == e || (x in s && x.Identity() != e.Identity())
  {
    if s == [] {
    } else if s[0].Identity() == e.Identity() {
      assert forall k :: 0 < k < |s| ==> s[k].Identity() != e.Identity();
    } else {
      PutKeeps(s[1..], e);
      assert forall k :: 0 <= k < |s[1..]| ==> s[1..][k] == s[k + 1];
      var rest := Put(s[1..], e);
      forall k | 0 <= k < |rest| ensures rest[k].Identity() != s[0].Identity() {
        assert rest[k] in rest;
      }
    }
  }

  /** Each identity once, with the value of its last occurrence. */
  lemma {:induction false} ByIdentityMembers(s: seq<Event>)
    ensures UniqueIdentities(ByIdentity(s))
    ensures forall x :: x in ByIdentity(s) <==> LastOf(s, x)
  {
    if s == [] {
    } else {
      var front, last := s[..|s| - 1], s[|s| - 1];
      ByIdentityMembers(front);
      PutKeeps(ByIdentity(front), last);
      forall x ensures LastOf(s, x) <==> x == last || (LastOf(front, x) && x.Identity() != last.Identity()) {
        LastOfSnoc(front, last, x);
        assert s == front + [last];
      }
    }
  }

  /** x is the last event of its identity in s. */
  ghost predicate LastOf(s: seq<Event>, x: Event) {
    exists k :: LastAt(s, x, k)
  }

  ghost predicate LastAt(s: seq<Event>, x: Event, k: int) {
    0 <= k < |s| && s[k] == x && forall j :: k < j < |s| ==> s[j].Identity() != x.Identity()
  }

  lemma {:induction false} LastOfSnoc(front: seq<Event>, last: Event, x: Event)
    ensures LastOf(front + [last], x) <==> x == last || (LastOf(front, x) && x.Identity() != last.Identity())
  {
    var s := front + [last];
    assert s[|front|] == last && forall j :: 0 <= j < |front| ==> front[j] == s[j];
    if x == last {
      assert LastAt(s, x, |front|);
    } else {
      if LastOf(front, x) && x.Identity() != last.Identity() {
        var k :| LastAt(front, x, k);
        assert LastAt(s, x, k);
      }
      if LastOf(s, x) {
        var k :| LastAt(s, x, k);
        assert LastAt(front, x, k);
      }
    }
  }

  lemma {:induction false} LastOfUnique(s: seq<Event>)
    requires UniqueIdentities(s)
    ensures forall x :: LastOf(s, x) <==> x in s
  {
    forall x | x in s ensures LastOf(s, x) {
      var k :| 0 <= k < |s| && s[k] == x;
      assert LastAt(s, x, k);
    }
  }

  /** What is stored: chain-sorted, identity-unique, and exactly the last event of each identity. */
  lemma {:induction false} StoredIsTidy(s: seq<Event>)
    ensures Tidy(Stored(s)) && forall x :: x in Stored(s) <==> LastOf(s, x)
  {
    ByIdentityMembers(s);
    EventLeqIsPreorder();
    SortSorts(EventLeq, ByIdentity(s));
    SameElements(Stored(s), ByIdentity(s));
    PermutationUnique(ByIdentity(s), Stored(s));
  }

  lemma {:induction false} PermutationUnique(a: seq<Event>, b: seq<Event>)
    requires UniqueIdentities(a) && multiset(a) == multiset(b)
    ensures UniqueIdentities(b)
  {
    SameElements(a, b);
    PermutationNoRepeats(a, b);
    forall i, j | 0 <= i < j < |b| ensures b[i].Identity() != b[j].Identity() {
      assert b[i] in a && b[j] in a;
    }
  }

  /** The elements that pass a test, in their order. */
  function Filtered(keep: Event -> bool, s: seq<Event>): seq<Event> {
    if s == [] then [] else
    Filtered(keep, s[..|s| - 1]) + (if keep(s[|s| - 1]) then [s[|s| - 1]] else [])
  }

  lemma {:induction false} FilteredMembers(keep: Event -> bool, s: seq<Event>)
    ensures forall x :: x in Filtered(keep, s) <==> x in s && keep(x)
    ensures Tidy(s) ==> Tidy(Filtered(keep, s))
  {
    if s == [] {
    } else {
      var front, last := s[..|s| - 1], s[|s| - 1];
      FilteredMembers(keep, front);
      assert s == front + [last];
      if Tidy(s) && keep(last) {
        TidySnoc(Filtered(keep, front), front, last);
      }
    }
  }

  lemma {:induction false} TidySnoc(kept: seq<Event>, front: seq<Event>, last: Event)
    requires Tidy(kept) && Tidy(front + [last]) && AllIn(kept, front)
    ensures Tidy(kept + [last])
  {
    forall k | 0 <= k < |kept| ensures EventLeq(kept[k], last) && kept[k].Identity() != last.Identity() {
      assert kept[k] in front;
      var j :| 0 <= j < |front| && front[j] == kept[k];
      assert (front + [last])[j] == front[j] && (front + [last])[|front|] == last;
    }
  }

  ghost predicate AllIn(a: seq<Event>, b: seq<Event>) {
    forall x :: x in a ==> x in b
  }

  /** `discard` by identity. */
  function Dropped(s: seq<Event>, gone: seq<Event>): seq<Event> {
    Filtered(NotOf(gone), s)
  }

  function NotOf(gone: seq<Event>): Event -> bool {
    (e: Event) => !Has(gone, e.Identity())
  }

  /** The stored events at or below a block. */
  function ReadyThrough(s: seq<Event>, block: int): seq<Event> {
    Filtered(AtMost(block), s)
  }

  function AtMost(block: int): Event -> bool {
    (e: Event) => e.block <= block
  }

  /** What is ready at a block: everything at or below it, and nothing above. */
  lemma {:induction false} ReadyIs(stored: seq<Event>, block: int)
    ensures forall x :: x in ReadyThrough(stored, block) <==> x in stored && x.block <= block
    ensures ReadyThrough(stored, block) == [] <==> forall x :: x in stored ==> x.block > block
    ensures Tidy(stored) ==> Tidy(ReadyThrough(stored, block))
  {
    var ready := ReadyThrough(stored, block);
    FilteredMembers(AtMost(block), stored);
    if x :| x in stored && x.block <= block { assert x in ready; }
    if forall x :: x in stored ==> x.block > block { NoMembers(ready); }
  }

  /** In chain order, exactly what is stored at or below the block. */
  ghost predicate IsDigest(sources: seq<Event>, stored: seq<Event>, block: int) {
    Tidy(sources) && forall x :: x in sources <==> x in stored && x.block <= block
  }

  lemma {:induction false} StillHas(s: seq<Event>)
    ensures forall x :: x in s ==> Has(s, x.Identity())
  {
    forall x | x in s ensures Has(s, x.Identity()) {
      var k :| 0 <= k < |s| && s[k] == x;
    }
  }

  /** What lies above the block is not taken along with the digest. */
  lemma {:induction false} AboveStays(before: seq<Event>, during: seq<Event>, after: seq<Event>, ready: seq<Event>,
        block: int)
    requires UniqueIdentities(before) && IsDigest(ready, before, block)
    requires forall id :: Has(before, id) ==> Has(during, id)
    requires forall x :: x in after <==> x in during && !Has(ready, x.Identity())
    ensures forall x :: x in before && x.block > block ==> Has(after, x.Identity())
  {
    StillHas(before);
    StillHas(after);
    forall x | x in before && x.block > block ensures Has(after, x.Identity()) {
      var k :| 0 <= k < |during| && during[k].Identity() == x.Identity();
      assert during[k] in during;
      assert during[k] in after;
    }
  }

  lemma {:induction false} NoMembers(s: seq<Event>)
    ensures (forall x :: x !in s) ==> s == []
  {
    assert |s| > 0 ==> s[0] in s;
  }

  // ---------------------------------------------------------------- the store and the digest

  class DigestStore {
    var records: map<string, seq<Event>>

    ghost predicate Valid()
      reads this
    {
      forall name :: name in records ==> Tidy(records[name])
    }

    constructor ()
      ensures Valid() && records == map[]
    {
      records := map[];
    }

    function Of(name: string): seq<Event>
      reads this
    {
      if name in records then records[name] else []
    }

    method Replace(name: string, events: seq<Event>)
      requires Valid()
      modifies this
      ensures Valid() && records == old(records)[name := Stored(events)]
    {
      StoredIsTidy(events);
      records := records[name := Stored(events)];
    }

    method Append(name: string, event: Event)
      requires Valid()
      modifies this
      ensures Valid() && records == old(records)[name := Stored(old(Of(name)) + [event])]
      ensures forall x :: x in Of(name) <==> x == event || (x in old(Of(name)) && x.Identity() != event.Identity())
    {
      ghost var before := Of(name);
      Replace(name, Of(name) + [event]);
      StoredIsTidy(before + [event]);
      LastOfUnique(before);
      forall x ensures x in Of(name) <==> x == event || (x in before && x.Identity() != event.Identity()) {
        LastOfSnoc(before, event, x);
      }
    }

    method Discard(name: string, events: seq<Event>)
      requires Valid()
      modifies this
      ensures Valid() && records == old(records)[name := Of(name)]
      ensures forall x :: x in Of(name) <==> x in old(Of(name)) && !Has(events, x.Identity())
    {
      ghost var before := Of(name);
      FilteredMembers(NotOf(events), before);
      StoredIsTidy(Dropped(before, events));
      LastOfUnique(Dropped(before, events));
      Replace(name, Dropped(Of(name), events));
    }
  }

  /** What happens at one await of the emit: events appended meanwhile by other writers to the store,
      and whether the emit raises. Handling an event takes the digest's lock, so nothing is appended to
      this digest through it while a flush runs; `meanwhile` allows any writer all the same. */
  datatype Emitting = Emitting(meanwhile: seq<Event>, raises: bool)

  class Digest {
    const name: string
    const eventName: string
    const store: DigestStore
    /** Every event taken and every digest sent, in order. */
    ghost var taken: seq<Event>
    ghost var sent: seq<Notification>

    /** The identity is stored or was sent. */
    ghost predicate Accounts(id: (string, string, int))
      reads this, store
    {
      KeptBy(store.Of(name), sent, id)
    }

    /** Every identity ever taken is in the store or in a digest that was sent, the store holds only
        what was taken, and so does every digest. */
    ghost predicate Conserved()
      reads this, store
    {
      store.Valid() && Consistent(store.Of(name), sent, taken)
    }

    constructor (name: string, eventName: string, store: DigestStore)
      requires store.Valid() && store.Of(name) == []
      ensures Conserved() && this.name == name && this.eventName == eventName && this.store == store && taken == []
      ensures sent == []
    {
      this.name, this.eventName, this.store, taken, sent := name, eventName, store, [], [];
    }

    method HandleEvent(event: Event) returns (kept: bool)
      requires Conserved()
      modifies this, store
      ensures Conserved() && (kept <==> event.name == eventName)
      ensures sent == old(sent) && taken == if kept then old(taken) + [event] else old(taken)
      ensures !kept ==> store.records == old(store.records)
      ensures forall id :: Accounts(id) <==>
        KeptBy(old(store.Of(name)), old(sent), id) || (kept && id == event.Identity())
    {
      if event.name != eventName {
        return false;
      }
      Keep(event);
      kept := true;
    }

    method Keep(event: Event)
      requires Conserved()
      modifies this, store
      ensures Conserved() && sent == old(sent) && taken == old(taken) + [event]
      ensures forall x :: x in store.Of(name) <==>
        x == event || (x in old(store.Of(name)) && x.Identity() != event.Identity())
      ensures forall id :: Has(store.Of(name), id) <==> Has(old(store.Of(name)), id) || id == event.Identity()
      ensures forall id :: Accounts(id) <==> KeptBy(old(store.Of(name)), old(sent), id) || id == event.Identity()
    {
      ghost var before := store.Of(name);
      store.Append(name, event);
      StillConsistent(before, event, store.Of(name), sent, taken);
      taken := taken + [event];
    }

    /** Appends by other writers while the emit is awaited. */
    method Meanwhile(events: seq<Event>)
      requires Conserved()
      modifies this, store
      ensures Conserved() && sent == old(sent) && taken == old(taken) + events
      ensures forall id :: Has(old(store.Of(name)), id) ==> Has(store.Of(name), id)
      ensures forall x :: x in store.Of(name) ==> x in old(store.Of(name)) || x in events
    {
      for k := 0 to |events|
        invariant Conserved() && sent == old(sent) && taken == old(taken) + events[..k]
        invariant forall id :: Has(old(store.Of(name)), id) ==> Has(store.Of(name), id)
        invariant forall x :: x in store.Of(name) ==> x in old(store.Of(name)) || x in events[..k]
      {
        assert events[..k + 1] == events[..k] + [events[k]];
        KeepOneMore(events[k], events[..k], old(store.Of(name)), old(taken));
      }
      assert events[..|events|] == events;
    }

    method KeepOneMore(event: Event, ghost seen: seq<Event>, ghost before: seq<Event>, ghost taken0: seq<Event>)
      requires Conserved() && taken == taken0 + seen
      requires forall id :: Has(before, id) ==> Has(store.Of(name), id)
      requires forall x :: x in store.Of(name) ==> x in before || x in seen
      modifies this, store
      ensures Conserved() && sent == old(sent) && taken == taken0 + (seen + [event])
      ensures forall id :: Has(before, id) ==> Has(store.Of(name), id)
      ensures forall x :: x in store.Of(name) ==> x in before || x in seen + [event]
    {
      Keep(event);
    }

    /** `flush_through`: nothing ready, nothing happens; otherwise everything stored at or below the
        block, and nothing above it, goes into one digest, and leaves the store only once the emit
        succeeded. None: the emit raised. */
    method FlushThrough(block: int, emitting: Emitting) returns (r: Option<nat>)
      requires Conserved()
      modifies this, store
      ensures Conserved() && (r.Some? ==> r.value <= 1) && (r.None? ==> emitting.raises)
      ensures r == Some(0) <==> ReadyThrough(old(store.Of(name)), block) == []
      ensures r == Some(0) ==> taken == old(taken) && store.records == old(store.records)
      ensures sent ==
        if r == Some(1) then old(sent) + [Notification(ReadyThrough(old(store.Of(name)), block))] else old(sent)
      ensures r == Some(0) <==> forall x :: x in old(store.Of(name)) ==> x.block > block
      ensures r == Some(1) ==> IsDigest(sent[|sent| - 1].sources, old(store.Of(name)), block)
      ensures r == None ==> forall x :: x in old(store.Of(name)) ==> Has(store.Of(name), x.Identity())
      ensures r.Some? ==> forall x :: x in store.Of(name) ==> x.block > block || x in emitting.meanwhile
      ensures r.Some? ==>
        forall x :: x in old(store.Of(name)) && x.block > block ==> Has(store.Of(name), x.Identity())
      ensures forall id :: KeptBy(old(store.Of(name)), old(sent), id) ==> Accounts(id)
    {
      var ready := ReadyList(block);
      ReadyIs(store.Of(name), block);
      if ready == [] {
        StillHas(store.Of(name));
        return Some(0);
      }
      r := EmitReady(ready, block, emitting);
    }

    method EmitReady(ready: seq<Event>, ghost block: int, emitting: Emitting) returns (r: Option<nat>)
      requires Conserved() && ready != [] && IsDigest(ready, store.Of(name), block)
      modifies this, store
      ensures Conserved() && r != Some(0) && (r.Some? ==> r.value <= 1) && (r.None? ==> emitting.raises)
      ensures sent == if r == Some(1) then old(sent) + [Notification(ready)] else old(sent)
      ensures r == None ==> forall x :: x in old(store.Of(name)) ==> Has(store.Of(name), x.Identity())
      ensures r.Some? ==> forall x :: x in store.Of(name) ==> x.block > block || x in emitting.meanwhile
      ensures r.Some? ==>
        forall x :: x in old(store.Of(name)) && x.block > block ==> Has(store.Of(name), x.Identity())
      ensures forall id :: KeptBy(old(store.Of(name)), old(sent), id) ==> Accounts(id)
    {
      ghost var before := store.Of(name);
      StillHas(before);
      Meanwhile(emitting.meanwhile);
      if emitting.raises {
        return None;
      }
      ghost var during := store.Of(name);
      Settle(ready);
      AboveStays(before, during, store.Of(name), ready, block);
      r := Some(1);
    }

    /** The emit succeeded: its events leave the store, by identity. */
    method Settle(ready: seq<Event>)
      requires Conserved() && Tidy(ready) && ready != [] && AllIn(ready, taken)
      modifies this, store
      ensures Conserved() && taken == old(taken) && sent == old(sent) + [Notification(ready)]
      ensures forall x :: x in store.Of(name) <==> x in old(store.Of(name)) && !Has(ready, x.Identity())
      ensures forall id :: KeptBy(old(store.Of(name)), old(sent), id) ==> Accounts(id)
    {
      ghost var before := store.Of(name);
      ghost var sentBefore := sent;
      sent := sent + [Notification(ready)];
      store.Discard(name, ready);
      forall id | Has(before, id) || HasSent(sentBefore, id) ensures Accounts(id) {
        SentOrKept(before, store.Of(name), ready, sentBefore, id);
      }
    }

    method ReadyList(block: int) returns (ready: seq<Event>)
      ensures ready == ReadyThrough(store.Of(name), block)
    {
      var stored := store.Of(name);
      ready := [];
      for k := 0 to |stored|
        invariant ready == ReadyThrough(stored[..k], block)
      {
        assert stored[..k + 1][..k] == stored[..k];
        if stored[k].block <= block {
          ready := ready + [stored[k]];
        }
      }
      assert stored[..|stored|] == stored;
    }
  }

  ghost predicate Consistent(stored: seq<Event>, sent: seq<Notification>, taken: seq<Event>) {
    && (forall e :: e in taken ==> KeptBy(stored, sent, e.Identity()))
    && (forall e :: e in stored ==> e in taken)
    && (forall k :: 0 <= k < |sent| ==>
          Tidy(sent[k].sources) && sent[k].sources != [] && AllIn(sent[k].sources, taken))
  }

  lemma {:induction false} StillConsistent(before: seq<Event>, event: Event, after: seq<Event>, sent: seq<Notification>,
        taken: seq<Event>)
    requires Consistent(before, sent, taken)
    requires forall x :: x in after <==> x == event || (x in before && x.Identity() != event.Identity())
    ensures Consistent(after, sent, taken + [event])
    ensures forall id :: Has(after, id) <==> Has(before, id) || id == event.Identity()
  {
    forall id ensures Has(after, id) <==> Has(before, id) || id == event.Identity() {
      StillThere(before, event, after, id);
    }
    forall e | e in taken + [event] ensures KeptBy(after, sent, e.Identity()) {
      assert e in taken || e == event;
    }
  }

  ghost predicate KeptBy(stored: seq<Event>, sent: seq<Notification>, id: (string, string, int)) {
    Has(stored, id) || HasSent(sent, id)
  }

  ghost predicate HasSent(sent: seq<Notification>, id: (string, string, int)) {
    exists k :: 0 <= k < |sent| && Has(sent[k].sources, id)
  }

  lemma {:induction false} SentOrKept(before: seq<Event>, after: seq<Event>, ready: seq<Event>,
        sent: seq<Notification>, id: (string, string, int))
    requires forall x :: x in after <==> x in before && !Has(ready, x.Identity())
    requires Has(before, id) || HasSent(sent, id)
    ensures Has(after, id) || HasSent(sent + [Notification(ready)], id)
  {
    var all := sent + [Notification(ready)];
    if HasSent(sent, id) {
      var k :| 0 <= k < |sent| && Has(sent[k].sources, id);
      assert all[k] == sent[k];
    } else if Has(ready, id) {
      assert all[|sent|].sources == ready;
    } else {
      var k :| 0 <= k < |before| && before[k].Identity() == id;
      assert before[k] in before;
      assert before[k] in after;
    }
  }

  lemma {:induction false} StillThere(before: seq<Event>, event: Event, after: seq<Event>, id: (string, string, int))
    requires forall x :: x in after <==> x == event || (x in before && x.Identity() != event.Identity())
    ensures Has(after, id) <==> Has(before, id) || event.Identity() == id
  {
    if event.Identity() == id {
      assert event in after;
    } else {
      if Has(before, id) {
        var k :| 0 <= k < |before| && before[k].Identity() == id;
        assert before[k] in before;
        assert before[k] in after;
      }
      if Has(after, id) {
        var k :| 0 <= k < |after| && after[k].Identity() == id;
        assert after[k] in after;
        assert after[k] in before;
      }
    }
  }
}
