/** Decoded chain logs, completed-block marks and notifications (sentinel/models.py). */
module Events {
  import opened Sorting

  /** A decoded log. `operatorId`, `groupId` and `payload` stand for its argument dictionary. */
  datatype Event = Event(
    name: string, operatorId: int, groupId: int, payload: string,
    block: int, txIndex: int, logIndex: int, tx: string, address: string)
  {
    /** Two logs with the same identity are the same occurrence, whatever the address casing. */
    function Identity(): (string, string, int) {
      (Lower(address), tx, logIndex)
    }
  }

  /** What consumers receive: logs, and the mark that a block and everything below it is done. */
  datatype Item = Log(event: Event) | Mark(number: int)

  /** A rendered-later message; the last source event is the primary one. */
  datatype Notification = Notification(sources: seq<Event>)
  {
    ghost predicate Valid() {
      sources != []
    }

    function Primary(): Event
      requires sources != []
    {
      sources[|sources| - 1]
    }
  }

  function Lower(s: string): string {
    if s == [] then [] else [LowerChar(s[0])] + Lower(s[1..])
  }

  function LowerChar(c: char): char {
    if 'A' <= c <= 'Z' then c - 'A' + 'a' else c
  }

  /** Chain order: block, then transaction, then log. */
  predicate EventLeq(a: Event, b: Event) {
    || a.block < b.block
    || (a.block == b.block && a.txIndex < b.txIndex)
    || (a.block == b.block && a.txIndex == b.txIndex && a.logIndex <= b.logIndex)
  }

  /** The order goes by block, transaction and log: what is smaller there comes strictly first, and only logs
      at the same place tie. */
  lemma {:induction false} EventLeqMeans(a: Event, b: Event)
    ensures a.block < b.block ==> EventLeq(a, b) && !EventLeq(b, a)
    ensures a.block == b.block && a.txIndex < b.txIndex ==> EventLeq(a, b) && !EventLeq(b, a)
    ensures a.block == b.block && a.txIndex == b.txIndex && a.logIndex < b.logIndex ==>
      EventLeq(a, b) && !EventLeq(b, a)
    ensures EventLeq(a, b) && EventLeq(b, a) <==>
      a.block == b.block && a.txIndex == b.txIndex && a.logIndex == b.logIndex
  {
  }

  /** The same letter, in either case. */
  predicate SameLetter(c: char, d: char) {
    || c == d
    || ('A' <= c <= 'Z' && d as int == c as int + 32) || ('A' <= d <= 'Z' && c as int == d as int + 32)
  }

  ghost predicate SameSpelling(s: string, t: string) {
    |s| == |t| && forall i :: 0 <= i < |s| ==> SameLetter(s[i], t[i])
  }

  lemma {:induction false} LowerMeans(s: string, t: string)
    ensures Lower(s) == Lower(t) <==> SameSpelling(s, t)
  {
    LowerAt(s);
    LowerAt(t);
    if Lower(s) == Lower(t) {
      forall i | 0 <= i < |s| ensures SameLetter(s[i], t[i]) { assert Lower(s)[i] == Lower(t)[i]; }
    }
    if SameSpelling(s, t) {
      forall i | 0 <= i < |s| ensures Lower(s)[i] == Lower(t)[i] {
        assert SameLetter(s[i], t[i]);
        assert LowerChar(s[i]) == LowerChar(t[i]);
      }
      assert Lower(s) == Lower(t);
    }
  }

  lemma {:induction false} LowerAt(s: string)
    ensures |Lower(s)| == |s| && forall i :: 0 <= i < |s| ==> Lower(s)[i] == LowerChar(s[i])
  {
    if s != [] { LowerAt(s[1..]); }
  }

  /** Two logs are the same occurrence exactly when transaction, log index and address agree, the address
      in any casing. */
  lemma {:induction false} IdentityMeans(a: Event, b: Event)
    ensures a.Identity() == b.Identity() <==>
      a.tx == b.tx && a.logIndex == b.logIndex && SameSpelling(a.address, b.address)
  {
    LowerMeans(a.address, b.address);
  }

  lemma {:induction false} EventLeqIsPreorder()
    ensures TotalPreorder(EventLeq)
  {
  }

  /** The processed-block checkpoint that handing over a trace leaves: a mark raises it, nothing lowers it. */
  function CheckpointFrom(start: int, trace: seq<Item>): (r: int)
    ensures r >= start
  {
    if trace == [] then start else
    var front := CheckpointFrom(start, trace[..|trace| - 1]);
    match trace[|trace| - 1]
    case Log(_) => front
    case Mark(n) => if n > front then n else front
  }
}
