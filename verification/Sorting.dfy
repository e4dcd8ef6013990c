/** Insertion sort by a strict order: what the library sorts of the source are known to return. */
module Sorting {
  ghost predicate Transitive<T(!new)>(before: (T, T) -> bool) {
    forall a, b, c :: before(a, b) && before(b, c) ==> before(a, c)
  }

  ghost predicate Irreflexive<T(!new)>(before: (T, T) -> bool) {
    forall a :: !before(a, a)
  }

  /** Any two entries at different positions are ordered one way or the other. */
  ghost predicate Comparable<T>(xs: seq<T>, before: (T, T) -> bool) {
    forall i, j :: 0 <= i < j < |xs| ==> before(xs[i], xs[j]) || before(xs[j], xs[i])
  }

  ghost predicate SortedBy<T>(xs: seq<T>, before: (T, T) -> bool) {
    forall i, j :: 0 <= i < j < |xs| ==> before(xs[i], xs[j])
  }

  ghost function Elements<T>(xs: seq<T>): set<T> { set x | x in xs }

  function InsertBy<T>(x: T, xs: seq<T>, before: (T, T) -> bool): (s: seq<T>)
    ensures |s| == |xs| + 1
  {
    if xs == [] || before(x, xs[0]) then [x] + xs else [xs[0]] + InsertBy(x, xs[1..], before)
  }

  function SortBy<T>(xs: seq<T>, before: (T, T) -> bool): (s: seq<T>)
    ensures |s| == |xs|
  {
    if xs == [] then [] else InsertBy(xs[0], SortBy(xs[1..], before), before)
  }

  lemma HeadAndTail<T>(xs: seq<T>)
    requires xs != []
    ensures Elements(xs) == {xs[0]} + Elements(xs[1..])
    ensures multiset(xs) == multiset{xs[0]} + multiset(xs[1..])
  {
    assert xs == [xs[0]] + xs[1..];
  }

  lemma {:induction false} InsertKeeps<T>(x: T, xs: seq<T>, before: (T, T) -> bool)
    ensures Elements(InsertBy(x, xs, before)) == Elements(xs) + {x}
    ensures multiset(InsertBy(x, xs, before)) == multiset(xs) + multiset{x}
  {
    if xs != [] && !before(x, xs[0]) {
      InsertKeeps(x, xs[1..], before);
      HeadAndTail(xs);
      var s := InsertBy(x, xs, before);
      assert s[1..] == InsertBy(x, xs[1..], before);
      HeadAndTail(s);
    }
  }

  lemma {:induction false} SortKeeps<T>(xs: seq<T>, before: (T, T) -> bool)
    ensures Elements(SortBy(xs, before)) == Elements(xs)
    ensures multiset(SortBy(xs, before)) == multiset(xs)
  {
    if xs != [] {
      SortKeeps(xs[1..], before);
      InsertKeeps(xs[0], SortBy(xs[1..], before), before);
      HeadAndTail(xs);
    }
  }

  lemma {:induction false} InsertSorts<T(!new)>(x: T, xs: seq<T>, before: (T, T) -> bool)
    requires Transitive(before) && SortedBy(xs, before)
    requires forall y :: y in xs ==> before(x, y) || before(y, x)
    ensures SortedBy(InsertBy(x, xs, before), before)
  {
    if xs != [] && !before(x, xs[0]) {
      InsertSorts(x, xs[1..], before);
      InsertKeeps(x, xs[1..], before);
      forall y | y in InsertBy(x, xs[1..], before) ensures before(xs[0], y) {
        assert y in Elements(InsertBy(x, xs[1..], before));
      }
    }
  }

  lemma {:induction false} SortSorts<T(!new)>(xs: seq<T>, before: (T, T) -> bool)
    requires Transitive(before) && Comparable(xs, before)
    ensures SortedBy(SortBy(xs, before), before)
  {
    if xs != [] {
      SortSorts(xs[1..], before);
      SortKeeps(xs[1..], before);
      forall y | y in SortBy(xs[1..], before) ensures before(xs[0], y) || before(y, xs[0]) {
        assert y in Elements(xs[1..]);
        var i :| 0 <= i < |xs[1..]| && xs[1..][i] == y;
        assert xs[i + 1] == y;
      }
      InsertSorts(xs[0], SortBy(xs[1..], before), before);
    }
  }

  lemma SortedTail<T(!new)>(xs: seq<T>, before: (T, T) -> bool)
    requires xs != [] && Irreflexive(before) && SortedBy(xs, before)
    ensures SortedBy(xs[1..], before)
    ensures Elements(xs[1..]) == Elements(xs) - {xs[0]}
  {
    HeadAndTail(xs);
    forall i | 0 <= i < |xs[1..]| ensures xs[1..][i] != xs[0] {
      assert before(xs[0], xs[i + 1]);
    }
  }

  lemma SortedHead<T(!new)>(xs: seq<T>, x: T, before: (T, T) -> bool)
    requires x in xs && SortedBy(xs, before)
    ensures x == xs[0] || before(xs[0], x)
  {
    var i :| 0 <= i < |xs| && xs[i] == x;
  }

  lemma EmptyElements<T>(xs: seq<T>)
    ensures xs == [] <==> Elements(xs) == {}
  {
    if xs != [] {
      assert xs[0] in Elements(xs);
    }
  }

  /** A strictly sorted list is determined by the set of its elements. */
  lemma {:induction false} SortedListsAreUnique<T(!new)>(a: seq<T>, b: seq<T>, before: (T, T) -> bool)
    requires Transitive(before) && Irreflexive(before)
    requires SortedBy(a, before) && SortedBy(b, before) && Elements(a) == Elements(b)
    ensures a == b
  {
    EmptyElements(a);
    EmptyElements(b);
    if a != [] {
      assert a[0] in Elements(b) && b[0] in Elements(a);
      SortedHead(a, b[0], before);
      SortedHead(b, a[0], before);
      assert a[0] == b[0];
      SortedTail(a, before);
      SortedTail(b, before);
      SortedListsAreUnique(a[1..], b[1..], before);
      assert a == [a[0]] + a[1..] && b == [b[0]] + b[1..];
    }
  }
}
