/** A stable sort by a given order, as the queries and comparators of the services use it. */
module Sorting {

  ghost predicate Total<T(!new)>(leq: (T, T) -> bool) {
    forall a, b :: leq(a, b) || leq(b, a)
  }

  ghost predicate Transitive<T(!new)>(leq: (T, T) -> bool) {
    forall a, b, c :: leq(a, b) && leq(b, c) ==> leq(a, c)
  }

  ghost predicate TotalOrder<T(!new)>(leq: (T, T) -> bool) {
    Total(leq) && Transitive(leq) && forall a, b :: leq(a, b) && leq(b, a) ==> a == b
  }

  predicate Sorted<T>(leq: (T, T) -> bool, s: seq<T>) {
    forall i, j :: 0 <= i < j < |s| ==> leq(s[i], s[j])
  }

  /** Put an element behind every element not greater than it. */
  function Insert<T>(leq: (T, T) -> bool, s: seq<T>, x: T): seq<T> {
    if s == [] then [x]
    else if leq(s[|s| - 1], x) then s + [x]
    else Insert(leq, s[..|s| - 1], x) + [s[|s| - 1]]
  }

  function Sort<T>(leq: (T, T) -> bool, s: seq<T>): seq<T> {
    if s == [] then [] else Insert(leq, Sort(leq, s[..|s| - 1]), s[|s| - 1])
  }

  lemma {:induction false} InsertHolds<T(!new)>(leq: (T, T) -> bool, s: seq<T>, x: T)
    ensures multiset(Insert(leq, s, x)) == multiset(s) + multiset{x}
    ensures forall y :: y in Insert(leq, s, x) <==> y in s || y == x
  {
    if s != [] {
      assert s == s[..|s| - 1] + [s[|s| - 1]];
      InsertHolds(leq, s[..|s| - 1], x);
    }
  }

  lemma {:induction false} SortHolds<T(!new)>(leq: (T, T) -> bool, s: seq<T>)
    ensures multiset(Sort(leq, s)) == multiset(s)
    ensures forall y :: y in Sort(leq, s) <==> y in s
  {
    if s != [] {
      assert s == s[..|s| - 1] + [s[|s| - 1]];
      SortHolds(leq, s[..|s| - 1]);
      InsertHolds(leq, Sort(leq, s[..|s| - 1]), s[|s| - 1]);
    }
  }

  /** A finer order that agrees with `leq` where `leq` decides. */
  ghost predicate Refines<T(!new)>(fine: (T, T) -> bool, leq: (T, T) -> bool) {
    forall a, b :: leq(a, b) && !leq(b, a) ==> fine(a, b)
  }

  predicate Tied<T>(leq: (T, T) -> bool, a: T, b: T) {
    leq(a, b) && leq(b, a)
  }

  lemma {:induction false} InsertSorted<T(!new)>(leq: (T, T) -> bool, fine: (T, T) -> bool, s: seq<T>, x: T)
    requires Total(leq) && Transitive(fine) && Refines(fine, leq) && Sorted(fine, s)
    requires forall y :: y in s && Tied(leq, y, x) ==> fine(y, x)
    ensures Sorted(fine, Insert(leq, s, x))
  {
    if s != [] {
      var last, front := s[|s| - 1], s[..|s| - 1];
      if leq(last, x) {
        assert fine(last, x) by { if leq(x, last) { assert Tied(leq, last, x); } }
      } else {
        InsertSorted(leq, fine, front, x);
        InsertHolds(leq, front, x);
        assert fine(x, last);
        var r := Insert(leq, front, x);
        forall i | 0 <= i < |r| ensures fine(r[i], last) { assert r[i] in front || r[i] == x; }
      }
    }
  }

  /** The sort is stable: it also sorts by any finer order in which tied elements stand already. */
  lemma {:induction false} SortSorted<T(!new)>(leq: (T, T) -> bool, fine: (T, T) -> bool, s: seq<T>)
    requires Total(leq) && Transitive(fine) && Refines(fine, leq)
    requires forall i, j :: 0 <= i < j < |s| && Tied(leq, s[i], s[j]) ==> fine(s[i], s[j])
    ensures Sorted(fine, Sort(leq, s))
  {
    if s != [] {
      var front := s[..|s| - 1];
      SortSorted(leq, fine, front);
      SortHolds(leq, front);
      InsertSorted(leq, fine, Sort(leq, front), s[|s| - 1]);
    }
  }

  /** There is one way to sort: the order decides between any two different elements. */
  lemma {:induction false} SortedUnique<T(!new)>(fine: (T, T) -> bool, a: seq<T>, b: seq<T>)
    requires Sorted(fine, a) && Sorted(fine, b) && multiset(a) == multiset(b)
    requires forall x, y :: x in a && y in a && Tied(fine, x, y) ==> x == y
    ensures a == b
    decreases |a|
  {
    SameSize(a, b);
    if a != [] {
      SameLast(fine, a, b);
      FrontOf(a);
      FrontOf(b);
      forall x | x in a[..|a| - 1] ensures x in a {}
      SortedUnique(fine, a[..|a| - 1], b[..|b| - 1]);
      assert a == a[..|a| - 1] + [a[|a| - 1]];
    }
  }

  lemma FrontOf<T>(a: seq<T>)
    requires a != []
    ensures multiset(a[..|a| - 1]) == multiset(a) - multiset{a[|a| - 1]}
  {
    assert a == a[..|a| - 1] + [a[|a| - 1]];
  }

  lemma SameLast<T(!new)>(fine: (T, T) -> bool, a: seq<T>, b: seq<T>)
    requires a != [] && |b| == |a| && Sorted(fine, a) && Sorted(fine, b) && multiset(a) == multiset(b)
    requires forall x, y :: x in a && y in a && Tied(fine, x, y) ==> x == y
    ensures a[|a| - 1] == b[|b| - 1]
  {
    var x, y := a[|a| - 1], b[|b| - 1];
    assert y in multiset(b) && x in multiset(a);
    assert y in multiset(a) && x in multiset(b);
    if x != y { assert Tied(fine, x, y); }
  }

  lemma SameSize<T>(a: seq<T>, b: seq<T>)
    requires multiset(a) == multiset(b)
    ensures |a| == |b|
  {
    assert |multiset(a)| == |a| && |multiset(b)| == |b|;
  }
}
