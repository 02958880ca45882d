/** From the log to the notification: with the aggregators that keep all their events, every log that the
    coordinator took is in a pending window or among the sources of a notification that went out
    (sentinel/services/aggregation.py, sentinel/modules/aggregation.py). */
module Reporting {
  import opened Events
  import opened Windows
  import opened Partition
  import opened Flows
  import opened Conservation
  import opened Coordinator
  import opened ChainWindows
  import A = Aggregators
  import opened Runtime

  /** How a group is reported. */
  datatype Style = OperatorStyle | GlobalStyle | GroupStyle(names: A.GroupNames)

  function NotesIn(style: Style, names: set<string>, events: seq<Event>): seq<Notification> {
    match style
    case OperatorStyle => A.OperatorNotes(names, events)
    case GlobalStyle => A.GlobalNotes(names, events)
    case GroupStyle(g) => A.GroupNotes(g, events)
  }

  predicate SourceIn(notes: seq<Notification>, e: Event) {
    exists i :: 0 <= i < |notes| && e in notes[i].sources
  }

  /** The three aggregators report each of their events. */
  lemma {:induction false} NotesKeepEvents(style: Style, names: set<string>, events: seq<Event>, e: Event)
    requires e in events && e.name in names && (style.GroupStyle? ==> names == style.names.All())
    ensures SourceIn(NotesIn(style, names, events), e)
  {
    A.RelevantMembers(names, events);
    match style {
      case OperatorStyle =>
        A.OperatorNotesSummary(names, events);
        A.OperatorEventOnce(A.OperatorNotes(names, events), A.Relevant(names, events), e);
      case GlobalStyle =>
        assert A.GlobalNotes(names, events)[0].sources == A.Relevant(names, events);
      case GroupStyle(g) =>
        A.GroupNotesSummary(g, events);
        A.GroupEventOnce(g, A.GroupNotes(g, events), A.Relevant(g.All(), events), e);
    }
  }

  /** The coordinator's aggregators are of these three kinds. */
  ghost predicate Keeping(registry: seq<Aggregator>, aggregate: Aggregation, style: map<string, Style>) {
    && OnePerGroup(registry)
    && forall a :: a in registry ==>
         && a.group in style
         && (style[a.group].GroupStyle? ==> a.names == style[a.group].names.All())
         && forall events :: aggregate(a.group, events) == NotesIn(style[a.group], a.names, events)
  }

  // ---------------------------------------------------------------- windows hold what fits them

  ghost predicate AllFit(registry: seq<Aggregator>, ws: seq<Window>) {
    forall w, e :: w in ws && e in w.events ==> Fits(registry, w, e)
  }

  lemma {:induction false} SettledFits(registry: seq<Aggregator>, store: seq<Window>)
    requires Settled(registry, store)
    ensures AllFit(registry, store)
  {
    if store != [] {
      SettledFits(registry, store[1..]);
      assert store == [store[0]] + store[1..];
    }
  }

  ghost predicate FlowFits(registry: seq<Aggregator>, f: Flow) {
    AllFit(registry, f.sent) && forall t :: t in f.open ==> AllFit(registry, f.open[t])
  }

  lemma {:induction false} DoFits(registry: seq<Aggregator>, f: Flow, s: FlowStep)
    requires Sound(registry, f) && FlowFits(registry, f)
    ensures FlowFits(registry, Do(registry, f, s))
  {
    match s {
      case Begin(t, block) =>
        SettledFits(registry, f.store);
        ReadyMembers(f.store, block);
      case Finish(t) =>
        if f.Queue(t) != [] {
          var w := f.Queue(t)[0];
          assert w in f.open[t] && KnownOnly(registry, [w][1..]) == [];
          assert forall v :: v in KnownOnly(registry, [w]) ==> v == w;
          assert forall w :: w in f.Queue(t)[1..] ==> w in f.open[t];
        }
      case _ =>
    }
  }

  lemma {:induction false} SentFits(registry: seq<Aggregator>, start: Flow, trail: Trail)
    requires ValidRegistry(registry) && Sound(registry, start) && start.sent == [] && start.open == map[]
    ensures Sound(registry, Reached(registry, start, trail)) && FlowFits(registry, Reached(registry, start, trail))
  {
    if trail.Then? {
      SentFits(registry, start, trail.before);
      DoSound(registry, Reached(registry, start, trail.before), trail.step);
      DoFits(registry, Reached(registry, start, trail.before), trail.step);
    }
  }

  // ---------------------------------------------------------------- the main result

  lemma {:induction false} WindowReports(registry: seq<Aggregator>, aggregate: Aggregation, style: map<string, Style>,
        w: Window, e: Event)
    requires Keeping(registry, aggregate, style) && e in w.events && Fits(registry, w, e)
    ensures SourceIn(aggregate(w.group, w.events), e)
  {
    var a := RouteOf(registry, e.name).value;
    NotesKeepEvents(style[a.group], a.names, w.events, e);
  }

  /** Every log handed to an aggregator since the process started, and not disturbed by a flush, waits in a
      pending window or has been reported. */
  lemma {:induction false} EveryLogReported(c: AggregationCoordinator, style: map<string, Style>, e: Event)
    requires c.Valid() && c.Announced() && c.start.sent == [] && Keeping(c.registry, c.aggregate, style)
    requires CleanTrail(c.registry, c.start, c.trail) && InTrail(c.trail, e) && Routed(c.registry, e)
    ensures HasId(c.store.records, e.Identity())
            || exists n, x :: n in c.emitted && x in n.sources && x.Identity() == e.Identity()
  {
    TrailKeeps(c.registry, c.start, c.trail, e);
    if !HasId(c.store.records, e.Identity()) {
      SentFits(c.registry, c.start, c.trail);
      var i :| 0 <= i < |c.flushed| && Holds(c.flushed[i], e.Identity());
      var w := c.flushed[i];
      var k :| 0 <= k < |w.events| && w.events[k].Identity() == e.Identity();
      var x := w.events[k];
      assert w in c.flushed && x in w.events;
      WindowReports(c.registry, c.aggregate, style, w, x);
      var notes := c.aggregate(w.group, w.events);
      var j :| 0 <= j < |notes| && x in notes[j].sources;
      assert notes[j] in notes;
      assert notes[j] in c.emitted;
    }
  }

  /** The consumer as a whole: every log it handled is stored for or sent in a digest, waits in a pending
      window, or has been reported. */
  lemma {:induction false} HandledIsReported(m: ModuleRuntime, style: map<string, Style>, e: Event)
    requires m.Tracked() && m.Undisturbed() && m.aggregation.start.sent == [] && e in m.handled
    requires Keeping(m.aggregation.registry, m.aggregation.aggregate, style)
    ensures m.digest.Accounts(e.Identity()) || HasId(m.aggregation.store.records, e.Identity())
            || exists n, x :: n in m.aggregation.emitted && x in n.sources && x.Identity() == e.Identity()
  {
    if Routed(m.aggregation.registry, e) && InTrail(m.aggregation.trail, e) {
      EveryLogReported(m.aggregation, style, e);
    } else if Notification([e]) in m.aggregation.emitted {
      assert e in Notification([e]).sources;
    }
  }
}
