/** The reentrant lease on the shared reads connection (sentinel/chain.py). Each method is one stretch
    of `__aenter__`, `__aexit__` or `close` between two awaits, and equals one step of the value-level
    protocol; runs of the protocol are lists of steps by any tasks, in any order. */
module Lease {
  import opened Windows

  /** What the lock is held for. Connecting is the await inside `__aenter__` after the lease is taken. */
  datatype Holder = Free | Connecting(task: nat) | Reading(task: nat) | Closing(task: nat)

  /** `waiting` and `closers` are the tasks suspended on the lock in `__aenter__` and in `close`. */
  datatype State = State(
    owner: Option<nat>, depth: nat, closed: bool, holder: Holder,
    waiting: set<nat>, closers: set<nat>, trace: Trace)

  /** Granted: the lease is taken for a new reader. Entered and Exited: `__aenter__` and `__aexit__`
      returned. CloseCalled: `closed` was set. Disconnected: the connection was closed. */
  datatype Event =
    | Granted(task: nat) | Entered(task: nat) | Exited(task: nat) | CloseCalled(task: nat) | Disconnected(task: nat)

  /** What happened so far, the latest event last. */
  datatype Trace = Start | Then(before: Trace, last: Event)

  datatype Step =
    | Enter(task: nat)                     // up to the lock, or inside at once for the owner
    | Grant(task: nat)                     // the lock is obtained by a waiting reader
    | Connected(task: nat, ok: bool)       // the connection check or opening ended; not ok: it raised
    | Exit(task: nat)
    | Close(task: nat)                     // up to the lock
    | GrantClose(task: nat)
    | CloseEnd(task: nat, disconnected: bool)
    | Cancel(task: nat)                    // a task waiting for the lock is cancelled

  const INITIAL := State(None, 0, false, Free, {}, {}, Start)

  /** A suspended task runs nothing else. */
  predicate Suspended(s: State, task: nat) {
    task in s.waiting || task in s.closers || s.holder == Connecting(task) || s.holder == Closing(task)
  }

  function Next(s: State, step: Step): State {
    var task := step.task;
    match step
    case Enter(_) =>
      if Suspended(s, task) then s
      else if s.owner == Some(task) then s.(depth := s.depth + 1, trace := Then(s.trace, Entered(task)))
      else if s.closed then s
      else s.(waiting := s.waiting + {task})
    case Grant(_) =>
      if s.holder != Free || task !in s.waiting then s
      else if s.closed then s.(waiting := s.waiting - {task})
      else s.(waiting := s.waiting - {task}, holder := Connecting(task), owner := Some(task), depth := 1,
              trace := Then(s.trace, Granted(task)))
    case Connected(_, ok) =>
      if s.holder != Connecting(task) then s
      else if ok then s.(holder := Reading(task), trace := Then(s.trace, Entered(task)))
      else s.(holder := Free, owner := None, depth := 0)
    case Exit(_) =>
      if Suspended(s, task) || s.owner != Some(task) || s.depth == 0 then s
      else if s.depth > 1 then s.(depth := s.depth - 1, trace := Then(s.trace, Exited(task)))
      else s.(depth := 0, owner := None, holder := Free, trace := Then(s.trace, Exited(task)))
    case Close(_) =>
      if Suspended(s, task) || s.owner == Some(task) then s
      else s.(closed := true, closers := s.closers + {task}, trace := Then(s.trace, CloseCalled(task)))
    case GrantClose(_) =>
      if s.holder != Free || task !in s.closers then s
      else s.(closers := s.closers - {task}, holder := Closing(task))
    case CloseEnd(_, disconnected) =>
      if s.holder != Closing(task) then s
      else s.(holder := Free, trace := if disconnected then Then(s.trace, Disconnected(task)) else s.trace)
    case Cancel(_) => s.(waiting := s.waiting - {task}, closers := s.closers - {task})
  }

  function Run(s: State, steps: seq<Step>): State
    decreases |steps|
  {
    if steps == [] then s else Run(Next(s, steps[0]), steps[1..])
  }

  // ---------------------------------------------------------------- what a trace must look like

  /** Entries of a task not yet matched by an exit. */
  function Unmatched(trace: Trace, task: nat): int {
    match trace
    case Start => 0
    case Then(before, e) =>
      Unmatched(before, task) + (if e == Entered(task) then 1 else if e == Exited(task) then -1 else 0)
  }

  predicate CloseWasCalled(trace: Trace) {
    trace.Then? && (trace.last.CloseCalled? || CloseWasCalled(trace.before))
  }

  predicate WasDisconnected(trace: Trace) {
    trace.Then? && (trace.last.Disconnected? || WasDisconnected(trace.before))
  }

  ghost predicate NobodyInsideBut(trace: Trace, but: Option<nat>) {
    forall u: nat :: but != Some(u) ==> Unmatched(trace, u) == 0
  }

  /** One task inside at a time; no new reader is let in once close was called; nobody is inside at a
      disconnect and nobody enters after it, not even the former owner. */
  ghost predicate Exclusive(trace: Trace) {
    match trace
    case Start => true
    case Then(before, e) => Exclusive(before) && Admitted(before, e)
  }

  ghost predicate Admitted(before: Trace, e: Event) {
    match e
    case Granted(_) => !CloseWasCalled(before) && NobodyInsideBut(before, None)
    case Entered(t) => !WasDisconnected(before) && NobodyInsideBut(before, Some(t))
    case Exited(t) => Unmatched(before, t) > 0 && NobodyInsideBut(before, Some(t))
    case CloseCalled(t) => Unmatched(before, t) == 0
    case Disconnected(_) => CloseWasCalled(before) && NobodyInsideBut(before, None)
  }

  /** The owner is the one task inside and `depth` is the number of its unmatched entries, the one it
      is still connecting for included; the lease is held just as long. */
  ghost predicate Kept(s: State) {
    && Exclusive(s.trace) && s.closed == CloseWasCalled(s.trace)
    && NobodyInsideBut(s.trace, s.owner)
    && (WasDisconnected(s.trace) ==> s.owner.None? && s.closed)
    && (match s.holder
        case Free => s.owner.None? && s.depth == 0
        case Closing(_) => s.owner.None? && s.depth == 0 && s.closed
        case Connecting(t) => s.owner == Some(t) && s.depth == 1 && Unmatched(s.trace, t) == 0
        case Reading(t) => s.owner == Some(t) && s.depth >= 1 && Unmatched(s.trace, t) == s.depth)
    && (s.closers != {} ==> s.closed)
    && (s.owner.Some? ==> s.owner.value !in s.waiting && s.owner.value !in s.closers)
  }

  lemma {:induction false} NextKept(s: State, step: Step)
    requires Kept(s)
    ensures Kept(Next(s, step))
  {
  }

  /** In every run of any tasks' steps the protocol holds, and with it everything `Exclusive` says. */
  lemma {:induction false} EveryRunKept(s: State, steps: seq<Step>)
    requires Kept(s)
    ensures Kept(Run(s, steps))
    decreases |steps|
  {
    if steps == [] {
    } else {
      NextKept(s, steps[0]);
      EveryRunKept(Next(s, steps[0]), steps[1..]);
    }
  }

  /** Once a reader is inside and close was called, the reader may still re-enter and must exit as
      often as it entered before the closer gets the lock. */
  lemma {:induction false} CloserWaitsForReader(s: State, task: nat, closer: nat, n: nat)
    requires Kept(s) && s.holder == Reading(task) && !Suspended(s, task) && n <= s.depth && closer in s.closers
    ensures var t := Run(s, seq(n, _ => Exit(task)));
            && (Next(t, GrantClose(closer)).holder == Closing(closer) <==> n == s.depth)
            && (n < s.depth ==> t.depth == s.depth - n && Next(t, Enter(task)).depth == t.depth + 1)
    decreases n
  {
    var steps := seq(n, _ => Exit(task));
    if n == 0 {
      assert steps == [];
    } else {
      assert steps[0] == Exit(task) && steps[1..] == seq(n - 1, _ => Exit(task));
      NextKept(s, Exit(task));
      if s.depth > 1 {
        CloserWaitsForReader(Next(s, Exit(task)), task, closer, n - 1);
      } else {
        assert steps[1..] == [];
      }
    }
  }

  // ---------------------------------------------------------------- the object

  datatype Entry = Inside | MustWait | Refused

  class SharedChainConnection {
    var owner: Option<nat>
    var depth: nat
    var closed: bool
    var holder: Holder
    var waiting: set<nat>
    var closers: set<nat>
    ghost var trace: Trace

    ghost function View(): State
      reads this
    {
      State(owner, depth, closed, holder, waiting, closers, trace)
    }

    constructor ()
      ensures View() == INITIAL && Kept(View())
    {
      owner, depth, closed, holder, waiting, closers, trace := None, 0, false, Free, {}, {}, Start;
    }

    /** `__aenter__` up to the lock. */
    method EnterBegin(task: nat) returns (r: Entry)
      requires Kept(View()) && !Suspended(View(), task)
      modifies this
      ensures Kept(View()) && View() == Next(old(View()), Enter(task))
      ensures r == Inside <==> old(owner) == Some(task)
      ensures r == Refused <==> old(closed) && old(owner) != Some(task)
      ensures r == Inside ==> depth == old(depth) + 1 && waiting == old(waiting)
      ensures r == MustWait ==> waiting == old(waiting) + {task} && depth == old(depth)
      ensures owner == old(owner) && holder == old(holder) && (r == Refused ==> View() == old(View()))
    {
      NextKept(View(), Enter(task));
      if owner == Some(task) {
        depth := depth + 1;
        trace := Then(trace, Entered(task));
        return Inside;
      }
      if closed {
        return Refused;
      }
      waiting := waiting + {task};
      r := MustWait;
    }

    /** The lock is obtained: refused if closed meanwhile, with the lock released at once. */
    method EnterGranted(task: nat) returns (r: Entry)
      requires Kept(View()) && task in waiting && holder == Free
      modifies this
      ensures Kept(View()) && View() == Next(old(View()), Grant(task))
      ensures r == Refused <==> old(closed)
      ensures r == Refused ==> holder == Free && owner.None?
      ensures r != Refused ==> holder == Connecting(task) && owner == Some(task) && depth == 1
      ensures waiting == old(waiting) - {task}
    {
      NextKept(View(), Grant(task));
      waiting := waiting - {task};
      if closed {
        return Refused;
      }
      holder, owner, depth := Connecting(task), Some(task), 1;
      trace := Then(trace, Granted(task));
      r := MustWait;
    }

    /** The rest of `__aenter__`: whatever stops the connection attempt gives the lease back. */
    method EnterEnd(task: nat, ok: bool)
      requires Kept(View()) && holder == Connecting(task)
      modifies this
      ensures Kept(View()) && View() == Next(old(View()), Connected(task, ok))
      ensures ok ==> owner == Some(task) && depth == 1 && holder == Reading(task) && Unmatched(trace, task) == 1
      ensures !ok ==> owner == None && depth == 0 && holder == Free && trace == old(trace)
    {
      NextKept(View(), Connected(task, ok));
      if !ok {
        owner, depth, holder := None, 0, Free;
        return;
      }
      holder := Reading(task);
      trace := Then(trace, Entered(task));
    }

    /** `__aexit__`; not ok: it raised because the task does not own the access. */
    method Leave(task: nat) returns (ok: bool)
      requires Kept(View()) && !Suspended(View(), task)
      modifies this
      ensures Kept(View()) && View() == Next(old(View()), Exit(task))
      ensures ok <==> Unmatched(old(trace), task) > 0
      ensures ok && Unmatched(trace, task) == 0 <==> ok && holder == Free
      ensures ok ==> Unmatched(trace, task) == Unmatched(old(trace), task) - 1 && depth == old(depth) - 1
      ensures ok ==> owner == (if depth > 0 then Some(task) else None)
      ensures !ok ==> View() == old(View())
    {
      NextKept(View(), Exit(task));
      if owner != Some(task) || depth == 0 {
        return false;
      }
      trace := Then(trace, Exited(task));
      depth := depth - 1;
      if depth > 0 {
        return true;
      }
      owner, holder := None, Free;
      ok := true;
    }

    /** `close` up to the lock; not ok: it raised because the caller is the active reader. */
    method CloseBegin(task: nat) returns (ok: bool)
      requires Kept(View()) && !Suspended(View(), task)
      modifies this
      ensures Kept(View()) && View() == Next(old(View()), Close(task))
      ensures ok <==> Unmatched(old(trace), task) == 0
      ensures ok ==> closed && closers == old(closers) + {task}
      ensures owner == old(owner) && depth == old(depth) && holder == old(holder) && (!ok ==> View() == old(View()))
    {
      NextKept(View(), Close(task));
      if owner == Some(task) {
        return false;
      }
      closed := true;
      closers := closers + {task};
      trace := Then(trace, CloseCalled(task));
      ok := true;
    }

    method CloseGranted(task: nat)
      requires Kept(View()) && task in closers && holder == Free
      modifies this
      ensures Kept(View()) && View() == Next(old(View()), GrantClose(task))
      ensures forall u: nat :: Unmatched(trace, u) == 0
      ensures holder == Closing(task) && closers == old(closers) - {task}
    {
      NextKept(View(), GrantClose(task));
      closers := closers - {task};
      holder := Closing(task);
    }

    /** The end of `close`: the connection was open and is closed, or it was not open, or closing raised. */
    method CloseFinish(task: nat, disconnected: bool)
      requires Kept(View()) && holder == Closing(task)
      modifies this
      ensures Kept(View()) && View() == Next(old(View()), CloseEnd(task, disconnected))
      ensures holder == Free && (WasDisconnected(trace) <==> disconnected || WasDisconnected(old(trace)))
    {
      NextKept(View(), CloseEnd(task, disconnected));
      holder := Free;
      if disconnected {
        trace := Then(trace, Disconnected(task));
      }
    }
  }
}
