/** Aggregation windows, the insertion-ordered window store, and the order in which ready
    windows are flushed (sentinel/modules/aggregation.py, sentinel/app/storage.py). */
module Windows {
  import opened Events
  import opened Sorting

  datatype Option<+T> = None | Some(value: T)

  datatype Key = Key(kind: string, value: string)

  datatype Window = Window(
    group: string, key: Key, start: int, end: int, names: set<string>, events: seq<Event>)
  {
    predicate Contains(block: int) {
      start <= block <= end
    }

    predicate Has(e: Event) {
      exists i :: 0 <= i < |events| && events[i].Identity() == e.Identity()
    }

    function WithEvent(e: Event): Window {
      if Has(e) then this else this.(events := events + [e])
    }

    /** The storage key of a window record. */
    function Slot(): (string, Key, int, int) {
      (group, key, start, end)
    }
  }

  datatype Scope = ByOperator | Everything

  /** One registered aggregator: which events it takes and how it keys and sizes its windows. */
  datatype Aggregator = Aggregator(group: string, windowBlocks: int, names: set<string>, scope: Scope)
  {
    function KeyFor(e: Event): Key {
      match scope
      case ByOperator => Key("node_operator", Decimal(e.operatorId))
      case Everything => Key("global", "all")
    }

    function Open(e: Event): Window {
      Window(group, KeyFor(e), e.block, e.block + windowBlocks - 1, names, [])
    }
  }

  function Decimal(n: int): string
    decreases if n < 0 then 1 - n else n
  {
    if n < 0 then "-" + Decimal(-n)
    else if n < 10 then ['0' + n as char]
    else Decimal(n / 10) + ['0' + (n % 10) as char]
  }

  lemma {:induction false} DecimalDigits(n: int)
    requires n >= 0
    ensures Decimal(n) != [] && forall i :: 0 <= i < |Decimal(n)| ==> '0' <= Decimal(n)[i] <= '9'
    decreases n
  {
    if n >= 10 { DecimalDigits(n / 10); }
  }

  lemma {:induction false} DecimalSign(n: int)
    requires n < 0
    ensures Decimal(n) != [] && Decimal(n)[0] == '-'
  {
  }

  lemma {:induction false} NaturalsApart(m: int, n: int)
    requires m >= 0 && n >= 0 && Decimal(m) == Decimal(n)
    ensures m == n
    decreases m
  {
    DecimalDigits(m / 10);
    DecimalDigits(n / 10);
    var s, t := Decimal(m), Decimal(n);
    assert s[|s| - 1] == '0' + (m % 10) as char && t[|t| - 1] == '0' + (n % 10) as char;
    assert m % 10 == n % 10;
    if m >= 10 && n >= 10 {
      assert s[..|s| - 1] == Decimal(m / 10) && t[..|t| - 1] == Decimal(n / 10);
      NaturalsApart(m / 10, n / 10);
    }
  }

  /** Different numbers are written differently. */
  lemma {:induction false} DecimalsApart(m: int, n: int)
    requires Decimal(m) == Decimal(n)
    ensures m == n
  {
    if m >= 0 && n >= 0 {
      NaturalsApart(m, n);
    } else if m < 0 && n < 0 {
      assert Decimal(m)[1..] == Decimal(-m) && Decimal(n)[1..] == Decimal(-n);
      NaturalsApart(-m, -n);
    } else {
      DecimalDigits(if m < 0 then n else m);
      DecimalSign(if m < 0 then m else n);
    }
  }

  /** One key for all events, or one for each operator. */
  lemma {:induction false} KeyMeans(a: Aggregator, e: Event, f: Event)
    ensures a.KeyFor(e) == a.KeyFor(f) <==> a.scope == Everything || e.operatorId == f.operatorId
  {
    if a.scope == ByOperator && a.KeyFor(e) == a.KeyFor(f) { DecimalsApart(e.operatorId, f.operatorId); }
  }

  /** A window opened for an event spans as many blocks as its group says, from the event's own on. */
  lemma {:induction false} OpenMeans(a: Aggregator, e: Event, block: int)
    ensures var w := a.Open(e);
            && (w.Contains(block) <==> e.block <= block < e.block + a.windowBlocks)
            && w.group == a.group && w.key == a.KeyFor(e) && w.names == a.names && w.events == []
  {
  }

  /** A group never has an empty window: its constructor rejects window_blocks below one. */
  ghost predicate ValidRegistry(registry: seq<Aggregator>) {
    forall a :: a in registry ==> a.windowBlocks >= 1
  }

  /** The aggregator an event name is routed to; a later registration wins. */
  function RouteOf(registry: seq<Aggregator>, name: string): (r: Option<Aggregator>)
    ensures r.Some? ==> r.value in registry && name in r.value.names
    ensures r.None? ==> forall a :: a in registry ==> name !in a.names
  {
    if registry == [] then None else
    var last := |registry| - 1;
    assert forall a :: a in registry ==> a in registry[..last] || a == registry[last];
    if name in registry[last].names then Some(registry[last]) else RouteOf(registry[..last], name)
  }

  /** Of two aggregators for one name the one registered later gets the event. */
  lemma {:induction false} LaterRouteWins(registry: seq<Aggregator>, name: string, i: nat)
    requires i < |registry| && name in registry[i].names
    requires forall j :: i < j < |registry| ==> name !in registry[j].names
    ensures RouteOf(registry, name) == Some(registry[i])
  {
    if i < |registry| - 1 { LaterRouteWins(registry[..|registry| - 1], name, i); }
  }

  predicate Routed(registry: seq<Aggregator>, e: Event) {
    RouteOf(registry, e.name).Some?
  }

  predicate Known(registry: seq<Aggregator>, w: Window) {
    exists i :: 0 <= i < |registry| && registry[i].group == w.group
  }

  /** A window is known exactly when some registered group is its own; whatever an event opens is. */
  lemma {:induction false} KnownMeans(registry: seq<Aggregator>, w: Window)
    ensures Known(registry, w) <==> exists a :: a in registry && a.group == w.group
    ensures forall a, e :: a in registry ==> Known(registry, a.Open(e))
  {
    forall a | a in registry ensures forall e: Event :: Known(registry, a.Open(e)) {
      var i :| 0 <= i < |registry| && registry[i] == a;
      forall e: Event ensures Known(registry, a.Open(e)) { assert registry[i].group == a.Open(e).group; }
    }
    if a :| a in registry && a.group == w.group {
      var i :| 0 <= i < |registry| && registry[i] == a;
      assert registry[i].group == w.group;
    }
  }

  predicate Matches(w: Window, group: string, key: Key, block: int) {
    w.group == group && w.key == key && w.Contains(block)
  }

  /** The window takes the event: same group, same key, block inside. */
  predicate Fits(registry: seq<Aggregator>, w: Window, e: Event) {
    && Routed(registry, e)
    && var a := RouteOf(registry, e.name).value;
       Matches(w, a.group, a.KeyFor(e), e.block)
  }

  // ---------------------------------------------------------------- the store

  /** The first record, in insertion order, of that group and key whose blocks cover the block. */
  function FirstMatch(store: seq<Window>, group: string, key: Key, block: int): (r: Option<Window>)
    ensures r.Some? ==> r.value in store && Matches(r.value, group, key, block)
    ensures r.None? ==> forall w :: w in store ==> !Matches(w, group, key, block)
  {
    if store == [] then None
    else if Matches(store[0], group, key, block) then Some(store[0])
    else FirstMatch(store[1..], group, key, block)
  }

  /** Dictionary assignment: an existing record keeps its position, a new one goes last. */
  function Upsert(store: seq<Window>, w: Window): seq<Window> {
    if store == [] then [w]
    else if store[0].Slot() == w.Slot() then [w] + store[1..]
    else [store[0]] + Upsert(store[1..], w)
  }

  function Discard(store: seq<Window>, w: Window): seq<Window> {
    if store == [] then []
    else if store[0].Slot() == w.Slot() then Discard(store[1..], w)
    else [store[0]] + Discard(store[1..], w)
  }

  predicate SlotIn(w: Window, ws: seq<Window>) {
    exists i :: 0 <= i < |ws| && ws[i].Slot() == w.Slot()
  }

  /** The records that share no storage key with any of the given windows. */
  function Without(store: seq<Window>, ws: seq<Window>): seq<Window> {
    if store == [] then []
    else if SlotIn(store[0], ws) then Without(store[1..], ws)
    else [store[0]] + Without(store[1..], ws)
  }

  /** What handling an aggregated event does to the store. */
  function OnEvent(registry: seq<Aggregator>, store: seq<Window>, e: Event): seq<Window>
    requires Routed(registry, e)
  {
    var a := RouteOf(registry, e.name).value;
    var found := FirstMatch(store, a.group, a.KeyFor(e), e.block);
    var w := if found.None? then a.Open(e) else found.value;
    Upsert(store, w.WithEvent(e))
  }

  function EndingBy(ws: seq<Window>, block: int): (r: seq<Window>)
    ensures forall w :: w in r <==> w in ws && w.end <= block
  {
    if ws == [] then []
    else if ws[0].end <= block then [ws[0]] + EndingBy(ws[1..], block)
    else EndingBy(ws[1..], block)
  }

  function EndingAfter(ws: seq<Window>, block: int): (r: seq<Window>)
    ensures forall w :: w in r <==> w in ws && w.end > block
  {
    if ws == [] then []
    else if ws[0].end > block then [ws[0]] + EndingAfter(ws[1..], block)
    else EndingAfter(ws[1..], block)
  }

  function KnownOnly(registry: seq<Aggregator>, ws: seq<Window>): seq<Window> {
    if ws == [] then []
    else if Known(registry, ws[0]) then [ws[0]] + KnownOnly(registry, ws[1..])
    else KnownOnly(registry, ws[1..])
  }

  function Ready(store: seq<Window>, block: int): seq<Window> {
    Sort(WindowLeq, EndingBy(store, block))
  }

  // ---------------------------------------------------------------- flush order

  /** Python's string comparison: lexicographic by code point. */
  predicate StrLeq(s: string, t: string) {
    s == [] || (t != [] && (s[0] < t[0] || (s[0] == t[0] && StrLeq(s[1..], t[1..]))))
  }

  /** Tuple comparison on (end_block, start_block, group, kind, value). */
  predicate WindowLeq(a: Window, b: Window) {
    || a.end < b.end
    || (a.end == b.end && (
        || a.start < b.start
        || (a.start == b.start && (
            || (a.group != b.group && StrLeq(a.group, b.group))
            || (a.group == b.group && (
                || (a.key.kind != b.key.kind && StrLeq(a.key.kind, b.key.kind))
                || (a.key.kind == b.key.kind && StrLeq(a.key.value, b.key.value))))))))
  }

  lemma {:induction false} StrLeqTotal(s: string, t: string)
    ensures StrLeq(s, t) || StrLeq(t, s)
  {
    if s != [] && t != [] {
      StrLeqTotal(s[1..], t[1..]);
    }
  }

  lemma {:induction false} StrLeqTransitive(s: string, t: string, u: string)
    requires StrLeq(s, t) && StrLeq(t, u)
    ensures StrLeq(s, u)
  {
    if s != [] && s[0] == t[0] && t[0] == u[0] {
      StrLeqTransitive(s[1..], t[1..], u[1..]);
    }
  }

  lemma {:induction false} StrLeqAntisymmetric(s: string, t: string)
    requires StrLeq(s, t) && StrLeq(t, s)
    ensures s == t
  {
    if s != [] && t != [] {
      StrLeqAntisymmetric(s[1..], t[1..]);
      assert s == [s[0]] + s[1..] && t == [t[0]] + t[1..];
    }
  }

  lemma {:induction false} WindowLeqTransitive(a: Window, b: Window, c: Window)
    requires WindowLeq(a, b) && WindowLeq(b, c)
    ensures WindowLeq(a, c)
  {
    if a.end == c.end && a.start == c.start {
      if a.group != b.group && b.group != c.group {
        StrLeqTransitive(a.group, b.group, c.group);
        if a.group == c.group { StrLeqAntisymmetric(a.group, b.group); }
      } else if a.group == b.group == c.group {
        if a.key.kind != b.key.kind && b.key.kind != c.key.kind {
          StrLeqTransitive(a.key.kind, b.key.kind, c.key.kind);
          if a.key.kind == c.key.kind { StrLeqAntisymmetric(a.key.kind, b.key.kind); }
        } else if a.key.kind == b.key.kind == c.key.kind {
          StrLeqTransitive(a.key.value, b.key.value, c.key.value);
        }
      }
    }
  }

  lemma {:induction false} WindowLeqIsPreorder()
    ensures TotalPreorder(WindowLeq)
  {
    forall a, b ensures WindowLeq(a, b) || WindowLeq(b, a) {
      StrLeqTotal(a.group, b.group);
      StrLeqTotal(a.key.kind, b.key.kind);
      StrLeqTotal(a.key.value, b.key.value);
    }
    forall a, b, c | WindowLeq(a, b) && WindowLeq(b, c) ensures WindowLeq(a, c) {
      WindowLeqTransitive(a, b, c);
    }
  }

  /** Only records of the same storage key tie in the flush order. */
  lemma {:induction false} WindowLeqTies(a: Window, b: Window)
    requires WindowLeq(a, b) && WindowLeq(b, a)
    ensures a.Slot() == b.Slot()
  {
    if a.group != b.group { StrLeqAntisymmetric(a.group, b.group); }
    if a.key.kind != b.key.kind { StrLeqAntisymmetric(a.key.kind, b.key.kind); }
    StrLeqAntisymmetric(a.key.value, b.key.value);
  }
}
