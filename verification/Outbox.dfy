/** What processes with the program's own sink really send, over any number of crashes: all that each life
    sends, one after the other, nothing taken back
    (sentinel/services/aggregation.py, sentinel/app/telegram_adapters.py, sentinel/app/storage.py). */
module Outbox {
  import opened Events
  import opened Windows
  import opened Batching
  import opened Flows
  import opened Conservation
  import opened Restart
  import opened Resume

  /** What was sent before the first of the lives, and by the first n of them. */
  function SentByAll(registry: seq<Aggregator>, before: seq<Item>, lives: seq<Life>, n: nat): seq<Window>
    requires n <= |lives|
  {
    if n == 0 then Run(registry, before).flushed
    else SentByAll(registry, before, lives, n - 1) + SentIn(registry, before, lives, n - 1)
  }

  /** The session handles all that the life handed over, item by item, with a sink that never suspends; its
      last snapshot lies between two items. */
  ghost predicate PromptSession(registry: seq<Aggregator>, digestName: string, found: State, life: Life,
                                acts: seq<Act>, kept: nat)
  {
    && acts == Promptly(registry, digestName, found, life.trace)
    && kept == |Promptly(registry, digestName, found, life.trace[..life.Kept()])|
  }

  ghost predicate PromptSessions(registry: seq<Aggregator>, digestName: string, s: State, lives: seq<Life>,
                                 sessions: seq<Resume.Session>)
  {
    |sessions| == |lives| && forall i :: 0 <= i < |lives| ==> PromptAt(registry, digestName, s, lives, sessions, i)
  }

  ghost predicate PromptAt(registry: seq<Aggregator>, digestName: string, s: State, lives: seq<Life>,
                           sessions: seq<Resume.Session>, i: nat)
    requires i < |lives| == |sessions|
  {
    PromptSession(registry, digestName, Resume.Found(registry, digestName, s, sessions, i), lives[i],
      sessions[i].acts, sessions[i].kept)
  }

  lemma {:induction false} PromptPrefix(registry: seq<Aggregator>, digestName: string, s: State, items: seq<Item>,
        k: nat)
    requires k <= |items|
    ensures Promptly(registry, digestName, s, items[..k]) <= Promptly(registry, digestName, s, items)
    decreases |items|
  {
    if k == |items| {
      assert items[..k] == items;
    } else {
      var front := items[..|items| - 1];
      assert front[..k] == items[..k];
      PromptPrefix(registry, digestName, s, front, k);
    }
  }

  lemma {:induction false} UptoPrefix(registry: seq<Aggregator>, digestName: string, s: State, part: seq<Act>,
        all: seq<Act>)
    requires part <= all
    ensures Upto(registry, digestName, s, all, |part|) == Upto(registry, digestName, s, part, |part|)
  {
    assert all == part + all[|part|..];
    FirstActs(registry, digestName, s, part, all[|part|..], |part|);
  }

  /** The state is well-formed, no flush is in progress, and windows and outbox are these. */
  ghost predicate Stands(registry: seq<Aggregator>, s: State, store: seq<Window>, sent: seq<Window>) {
    Good(registry, s) && NoFlush(s.flow) && s.flow.store == store && s.flow.sent == sent
  }

  /** One process: the next finds the windows of the snapshot, and all that was sent stays sent. */
  lemma {:induction false} OnePrompt(registry: seq<Aggregator>, digestName: string, found: State, life: Life,
        x: Resume.Session, p: seq<Item>, sent: seq<Window>)
    requires ValidRegistry(registry) && RouteOf(registry, digestName).None?
    requires Stands(registry, found, Run(registry, p).store, sent)
    requires PromptSession(registry, digestName, found, life, x.acts, x.kept)
    ensures x.kept <= |x.acts|
    ensures Stands(registry, NextFound(registry, digestName, found, x),
              Run(registry, p + life.trace[..life.Kept()]).store,
              sent + RunFrom(registry, Book(Run(registry, p).store, []), life.trace).flushed)
  {
    var part := life.trace[..life.Kept()];
    var acts := Promptly(registry, digestName, found, part);
    PromptPrefix(registry, digestName, found, life.trace, life.Kept());
    UptoPrefix(registry, digestName, found, acts, x.acts);
    PromptRun(registry, digestName, found, life.trace);
    PromptRun(registry, digestName, found, part);
    FlushedAdds(registry, BookOf(found), life.trace);
    FlushedAdds(registry, BookOf(found), part);
    FlushedAdds(registry, Run(registry, p), part);
    RunSplits(registry, Book([], []), p, part);
    ActsKeep(registry, digestName, found, acts, |acts|, SOME);
  }

  lemma {:induction false} LifeSends(registry: seq<Aggregator>, before: seq<Item>, lives: seq<Life>, n: nat)
    requires 0 < n <= |lives|
    ensures var h, life := History(before, lives, n - 1), lives[n - 1];
            && History(before, lives, n) == h + life.trace[..life.Kept()]
            && SentByAll(registry, before, lives, n) == SentByAll(registry, before, lives, n - 1)
                 + RunFrom(registry, Book(Run(registry, h).store, []), life.trace).flushed
  {
    assert lives[n - 1].trace[..|lives[n - 1].trace|] == lives[n - 1].trace;
  }

  /** The windows of every snapshot are those of the run over what the snapshots have, and what was sent is
      all that each life sent, window by window in this order. */
  lemma {:induction false} OutboxIs(registry: seq<Aggregator>, digestName: string, s: State, before: seq<Item>,
        lives: seq<Life>, sessions: seq<Resume.Session>, n: nat)
    requires ValidRegistry(registry) && RouteOf(registry, digestName).None? && n <= |lives|
    requires Stands(registry, s, Run(registry, before).store, Run(registry, before).flushed)
    requires PromptSessions(registry, digestName, s, lives, sessions)
    ensures Stands(registry, Resume.Found(registry, digestName, s, sessions, n),
              Run(registry, Restart.History(before, lives, n)).store, SentByAll(registry, before, lives, n))
  {
    if n > 0 {
      OutboxIs(registry, digestName, s, before, lives, sessions, n - 1);
      assert PromptAt(registry, digestName, s, lives, sessions, n - 1);
      LifeSends(registry, before, lives, n);
      OnePrompt(registry, digestName, Resume.Found(registry, digestName, s, sessions, n - 1), lives[n - 1],
        sessions[n - 1], Restart.History(before, lives, n - 1), SentByAll(registry, before, lives, n - 1));
    }
  }
}
