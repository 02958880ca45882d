/** Python's `sorted`, as a stable insertion sort over an arbitrary total preorder, and the
    facts about it that the chain-ordering code relies on. */
module Sorting {

  ghost predicate TotalPreorder<T(!new)>(leq: (T, T) -> bool) {
    && (forall x, y :: leq(x, y) || leq(y, x))
    && (forall x, y, z :: leq(x, y) && leq(y, z) ==> leq(x, z))
  }

  ghost predicate SortedBy<T>(leq: (T, T) -> bool, s: seq<T>) {
    forall i, j :: 0 <= i < j < |s| ==> leq(s[i], s[j])
  }

  /** Puts x before the first element it does not exceed. */
  function Insert<T>(leq: (T, T) -> bool, x: T, s: seq<T>): (r: seq<T>)
    ensures |r| == |s| + 1
    ensures multiset(r) == multiset(s) + multiset{x}
  {
    if s == [] || leq(x, s[0]) then
      [x] + s
    else
      var r := [s[0]] + Insert(leq, x, s[1..]);
      assert s == [s[0]] + s[1..];
      r
  }

  /** Later elements are inserted first, so elements that compare equal keep their order. */
  function Sort<T>(leq: (T, T) -> bool, s: seq<T>): (r: seq<T>)
    ensures |r| == |s|
    ensures multiset(r) == multiset(s)
  {
    if s == [] then [] else
    assert s == [s[0]] + s[1..];
    Insert(leq, s[0], Sort(leq, s[1..]))
  }

  lemma {:induction false} SameElements<T>(a: seq<T>, b: seq<T>)
    requires multiset(a) == multiset(b)
    ensures |a| == |b|
    ensures forall x :: x in a <==> x in b
  {
    assert |multiset(a)| == |a| && |multiset(b)| == |b|;
    forall x ensures x in a <==> x in b {
      assert x in a <==> x in multiset(a);
    }
  }

  lemma {:induction false} InsertSorts<T(!new)>(leq: (T, T) -> bool, x: T, s: seq<T>)
    requires TotalPreorder(leq) && SortedBy(leq, s)
    ensures SortedBy(leq, Insert(leq, x, s))
  {
    if s == [] || leq(x, s[0]) {
    } else {
      InsertSorts(leq, x, s[1..]);
      var tail := Insert(leq, x, s[1..]);
      SameElements(tail, s[1..] + [x]);
      assert forall y :: y in tail ==> leq(s[0], y);
    }
  }

  lemma {:induction false} SortSorts<T(!new)>(leq: (T, T) -> bool, s: seq<T>)
    requires TotalPreorder(leq)
    ensures SortedBy(leq, Sort(leq, s))
  {
    if s == [] {
    } else {
      SortSorts(leq, s[1..]);
      InsertSorts(leq, s[0], Sort(leq, s[1..]));
    }
  }

  ghost predicate NoTies<T(!new)>(leq: (T, T) -> bool, s: seq<T>) {
    forall i, j :: 0 <= i < |s| && 0 <= j < |s| && leq(s[i], s[j]) && leq(s[j], s[i]) ==> s[i] == s[j]
  }

  lemma {:induction false} SameHead<T(!new)>(leq: (T, T) -> bool, a: seq<T>, b: seq<T>)
    requires SortedBy(leq, a) && SortedBy(leq, b) && NoTies(leq, a)
    requires multiset(a) == multiset(b) && a != []
    ensures b != [] && a[0] == b[0]
  {
    SameElements(a, b);
    assert a[0] in b && b[0] in a;
    var i :| 0 <= i < |b| && b[i] == a[0];
    var j :| 0 <= j < |a| && a[j] == b[0];
    if i != 0 && j != 0 {
      assert leq(b[0], b[i]) && leq(a[0], a[j]);
    }
  }

  /** A sorted list is determined by its elements, when no two of them tie. */
  lemma {:induction false} SortedUnique<T(!new)>(leq: (T, T) -> bool, a: seq<T>, b: seq<T>)
    requires SortedBy(leq, a) && SortedBy(leq, b) && NoTies(leq, a)
    requires multiset(a) == multiset(b)
    ensures a == b
  {
    if a == [] {
      assert |multiset(b)| == |b|;
    } else {
      SameHead(leq, a, b);
      MultisetTail(a);
      MultisetTail(b);
      SortedUnique(leq, a[1..], b[1..]);
    }
  }

  lemma {:induction false} MultisetTail<T>(s: seq<T>)
    requires s != []
    ensures s == [s[0]] + s[1..]
    ensures multiset(s[1..]) == multiset(s) - multiset{s[0]}
  {
    assert s == [s[0]] + s[1..];
  }

  lemma {:induction false} InsertLow<T>(leq: (T, T) -> bool, x: T, a: seq<T>, b: seq<T>)
    requires forall y :: y in b ==> leq(x, y)
    ensures Insert(leq, x, a + b) == Insert(leq, x, a) + b
  {
    if a == [] {
      assert a + b == b;
    } else if leq(x, a[0]) {
    } else {
      assert (a + b)[1..] == a[1..] + b;
      InsertLow(leq, x, a[1..], b);
    }
  }

  /** When everything in a comes before everything in b, sorting works block by block. */
  lemma {:induction false} SortConcat<T>(leq: (T, T) -> bool, a: seq<T>, b: seq<T>)
    requires forall x, y :: x in a && y in b ==> leq(x, y)
    ensures Sort(leq, a + b) == Sort(leq, a) + Sort(leq, b)
  {
    if a == [] {
      assert a + b == b;
    } else {
      assert (a + b)[1..] == a[1..] + b;
      SortConcat(leq, a[1..], b);
      forall y | y in Sort(leq, b) ensures leq(a[0], y) {
        assert y in multiset(Sort(leq, b));
        assert a[0] in a && y in b;
      }
      InsertLow(leq, a[0], Sort(leq, a[1..]), Sort(leq, b));
    }
  }

  ghost predicate NoRepeats<T(!new)>(s: seq<T>) {
    forall i, j :: 0 <= i < j < |s| ==> s[i] != s[j]
  }

  lemma {:induction false} Multiplicity<T(!new)>(s: seq<T>, x: T)
    ensures NoRepeats(s) ==> multiset(s)[x] <= 1
    ensures forall i, j :: 0 <= i < j < |s| && s[i] == x && s[j] == x ==> multiset(s)[x] >= 2
  {
    if s == [] {
    } else {
      var last := |s| - 1;
      assert s == s[..last] + [s[last]];
      Multiplicity(s[..last], x);
      assert x in s[..last] <==> multiset(s[..last])[x] >= 1;
      assert forall i :: 0 <= i < last ==> s[i] in s[..last];
    }
  }

  /** A permutation of a list without repeats has none either. */
  lemma {:induction false} PermutationNoRepeats<T(!new)>(a: seq<T>, b: seq<T>)
    requires NoRepeats(a) && multiset(a) == multiset(b)
    ensures NoRepeats(b)
  {
    forall i, j | 0 <= i < j < |b| ensures b[i] != b[j] {
      Multiplicity(a, b[i]);
      Multiplicity(b, b[i]);
    }
  }
}
