/** Choosing which measured points get a filter: loudest error first, spaced, and capped. */
module PeqSelection {
  import opened Sorting

  /** `targetDb - measuredDb` is the correction a point asks for. */
  datatype Point = Point(frequencyHz: real, measuredDb: real, targetDb: real)

  function Abs(x: real): real { if x < 0.0 then -x else x }

  function Correction(p: Point): real { p.targetDb - p.measuredDb }

  /** Size of the correction at an index. */
  function ErrorAt(points: seq<Point>, i: nat): (e: real)
    ensures e >= 0.0
  {
    if i < |points| then Abs(Correction(points[i])) else 0.0
  }

  /** Nearer than the minimum spacing: the two frequencies differ by a factor below `ratio`. */
  predicate Close(points: seq<Point>, i: nat, j: nat, ratio: real) {
    i < |points| && j < |points|
    && var a, b := points[i].frequencyHz, points[j].frequencyHz;
       if a < b then b < ratio * a else a < ratio * b
  }

  predicate CloseToAny(points: seq<Point>, selected: seq<nat>, c: nat, ratio: real) {
    exists k :: 0 <= k < |selected| && Close(points, selected[k], c, ratio)
  }

  /** Already chosen, or too near to a chosen point. */
  predicate Blocked(points: seq<Point>, selected: seq<nat>, c: nat, ratio: real) {
    c in selected || CloseToAny(points, selected, c, ratio)
  }

  /** Selection order: larger error first, then lower index. */
  function Louder(points: seq<Point>): (before: (nat, nat) -> bool) {
    (i: nat, j: nat) => ErrorAt(points, i) > ErrorAt(points, j) || (ErrorAt(points, i) == ErrorAt(points, j) && i < j)
  }

  lemma LouderIsAnOrder(points: seq<Point>, candidates: seq<nat>)
    requires forall i, j :: 0 <= i < j < |candidates| ==> candidates[i] < candidates[j]
    ensures Transitive(Louder(points)) && Irreflexive(Louder(points)) && Comparable(candidates, Louder(points))
  {
  }

  /** Indices before `count` whose error exceeds the ignore threshold, ascending. */
  function Candidates(points: seq<Point>, ignore: real, count: nat): (c: seq<nat>)
    requires count <= |points|
    ensures forall i: nat :: i in c <==> i < count && ErrorAt(points, i) > ignore
    ensures forall i, j :: 0 <= i < j < |c| ==> c[i] < c[j]
  {
    if count == 0 then []
    else
      var rest := Candidates(points, ignore, count - 1);
      assert forall i :: 0 <= i < |rest| ==> rest[i] in rest;
      if ErrorAt(points, count - 1) > ignore then rest + [count - 1] else rest
  }

  /** One pass over an order: each entry is kept unless it is blocked by those kept before it. */
  function Keep(points: seq<Point>, order: seq<nat>, kept: seq<nat>, cap: nat, ratio: real): (s: seq<nat>)
    decreases |order|
  {
    if order == [] || |kept| >= cap then kept
    else if Blocked(points, kept, order[0], ratio) then Keep(points, order[1..], kept, cap, ratio)
    else Keep(points, order[1..], kept + [order[0]], cap, ratio)
  }

  /** The reference selection: one pass over the candidates sorted by falling error. */
  function Selection(points: seq<Point>, ignore: real, cap: nat, ratio: real): seq<nat> {
    Keep(points, SortBy(Candidates(points, ignore, |points|), Louder(points)), [], cap, ratio)
  }

  // The repeated search for the largest error is that one pass.

  lemma BlockedStays(points: seq<Point>, selected: seq<nat>, c: nat, best: nat, ratio: real)
    requires Blocked(points, selected, c, ratio)
    ensures Blocked(points, selected + [best], c, ratio)
  {
    if c !in selected {
      var k :| 0 <= k < |selected| && Close(points, selected[k], c, ratio);
      assert (selected + [best])[k] == selected[k];
    }
  }

  /** Choosing the loudest free candidate and starting the pass over changes nothing. */
  lemma {:induction false} LoudestIsNext(points: seq<Point>, order: seq<nat>, kept: seq<nat>, best: nat, cap: nat,
                                         ratio: real)
    requires SortedBy(order, Louder(points)) && best in order && |kept| < cap
    requires !Blocked(points, kept, best, ratio)
    requires forall c :: c in order && !Blocked(points, kept, c, ratio) ==> c == best || Louder(points)(best, c)
    ensures Keep(points, order, kept, cap, ratio) == Keep(points, order, kept + [best], cap, ratio)
    decreases |order|
  {
    if Blocked(points, kept, order[0], ratio) {
      BlockedStays(points, kept, order[0], best, ratio);
      LoudestIsNext(points, order[1..], kept, best, cap, ratio);
    } else {
      SortedHead(order, best, Louder(points));
      assert order[0] in order;
      assert order[0] == best && best in kept + [best];
    }
  }

  lemma {:induction false} NothingIsFree(points: seq<Point>, order: seq<nat>, kept: seq<nat>, cap: nat, ratio: real)
    requires forall c :: c in order ==> Blocked(points, kept, c, ratio)
    ensures Keep(points, order, kept, cap, ratio) == kept
    decreases |order|
  {
    if order != [] {
      assert order[0] in order;
      NothingIsFree(points, order[1..], kept, cap, ratio);
    }
  }

  // What the pass promises.

  /** Entries are distinct, spaced, and listed from the largest error down. */
  ghost predicate Spaced(points: seq<Point>, s: seq<nat>, ratio: real) {
    forall i, j :: 0 <= i < j < |s| ==> Louder(points)(s[i], s[j]) && !Close(points, s[i], s[j], ratio)
  }

  /** A passed entry was chosen, or a chosen point at least as loud is near, or the cap shut it out. */
  ghost predicate Covered(points: seq<Point>, s: seq<nat>, c: nat, cap: nat, ratio: real) {
    || c in s
    || (exists k :: 0 <= k < |s| && Close(points, s[k], c, ratio) && ErrorAt(points, s[k]) >= ErrorAt(points, c))
    || (|s| >= cap && forall k :: 0 <= k < |s| ==> ErrorAt(points, s[k]) >= ErrorAt(points, c))
  }

  ghost predicate Precedes(points: seq<Point>, kept: seq<nat>, order: seq<nat>) {
    forall k, o :: k in kept && o in order ==> Louder(points)(k, o)
  }

  lemma {:induction false} KeepExtends(points: seq<Point>, order: seq<nat>, kept: seq<nat>, cap: nat, ratio: real)
    ensures kept <= Keep(points, order, kept, cap, ratio)
    ensures |kept| <= cap ==> |Keep(points, order, kept, cap, ratio)| <= cap
    ensures forall c :: c in Keep(points, order, kept, cap, ratio) ==> c in kept || c in order
    decreases |order|
  {
    if order != [] && |kept| < cap {
      var next := if Blocked(points, kept, order[0], ratio) then kept else kept + [order[0]];
      KeepExtends(points, order[1..], next, cap, ratio);
      assert order == [order[0]] + order[1..];
    }
  }

  lemma {:induction false} KeepIsSpaced(points: seq<Point>, order: seq<nat>, kept: seq<nat>, cap: nat, ratio: real)
    requires SortedBy(order, Louder(points)) && Precedes(points, kept, order) && Spaced(points, kept, ratio)
    ensures Spaced(points, Keep(points, order, kept, cap, ratio), ratio)
    decreases |order|
  {
    if order != [] && |kept| < cap {
      var next := if Blocked(points, kept, order[0], ratio) then kept else kept + [order[0]];
      assert order[0] in order && forall o :: o in order[1..] ==> o in order;
      KeepIsSpaced(points, order[1..], next, cap, ratio);
    }
  }

  lemma CoveredWhenClose(points: seq<Point>, kept: seq<nat>, s: seq<nat>, c: nat, cap: nat, ratio: real)
    requires CloseToAny(points, kept, c, ratio) && kept <= s
    requires forall k :: k in kept ==> Louder(points)(k, c)
    ensures Covered(points, s, c, cap, ratio)
  {
    var k :| 0 <= k < |kept| && Close(points, kept[k], c, ratio);
    assert s[k] == kept[k] && Louder(points)(s[k], c);
  }

  lemma {:induction false} KeepCovers(points: seq<Point>, order: seq<nat>, kept: seq<nat>, c: nat, cap: nat,
                                      ratio: real)
    requires SortedBy(order, Louder(points)) && Precedes(points, kept, order) && c in order
    ensures Covered(points, Keep(points, order, kept, cap, ratio), c, cap, ratio)
    decreases |order|
  {
    var s := Keep(points, order, kept, cap, ratio);
    KeepExtends(points, order, kept, cap, ratio);
    if |kept| < cap {
      var blocked := Blocked(points, kept, order[0], ratio);
      var next := if blocked then kept else kept + [order[0]];
      KeepExtends(points, order[1..], next, cap, ratio);
      assert order[0] in order && forall o :: o in order[1..] ==> o in order;
      if c != order[0] {
        assert order == [order[0]] + order[1..];
        KeepCovers(points, order[1..], next, c, cap, ratio);
      } else if blocked {
        CoveredWhenClose(points, kept, s, c, cap, ratio);
      } else {
        assert next[|kept|] == c && s[|kept|] == c;
      }
    } else {
      assert forall k :: 0 <= k < |s| ==> s[k] in kept && Louder(points)(s[k], c);
    }
  }

  /** A smaller cap only stops the pass earlier. */
  lemma {:induction false} KeepUnderSmallerCap(points: seq<Point>, order: seq<nat>, kept: seq<nat>, few: nat, many: nat,
                                               ratio: real)
    requires |kept| <= few <= many
    ensures var all := Keep(points, order, kept, many, ratio);
            Keep(points, order, kept, few, ratio) == if few < |all| then all[..few] else all
    decreases |order|
  {
    KeepExtends(points, order, kept, many, ratio);
    if order != [] && |kept| < few {
      var next := if Blocked(points, kept, order[0], ratio) then kept else kept + [order[0]];
      KeepUnderSmallerCap(points, order[1..], next, few, many, ratio);
    }
  }

  /** Selections for a smaller cap are prefixes of those for a larger one. */
  lemma SmallerCapSelectsAPrefix(points: seq<Point>, ignore: real, few: nat, many: nat, ratio: real)
    requires few <= many
    ensures var all := Selection(points, ignore, many, ratio);
            Selection(points, ignore, few, ratio) == if few < |all| then all[..few] else all
  {
    KeepUnderSmallerCap(points, SortBy(Candidates(points, ignore, |points|), Louder(points)), [], few, many, ratio);
  }

  /**
   * The selection: at most `cap` distinct points above the threshold, loudest first, pairwise at
   * least the spacing apart, and every point above the threshold is covered.
   */
  lemma SelectionIsGreedy(points: seq<Point>, ignore: real, cap: nat, ratio: real)
    ensures var s := Selection(points, ignore, cap, ratio);
            && |s| <= cap && Spaced(points, s, ratio)
            && (forall c :: c in s ==> c < |points| && ErrorAt(points, c) > ignore)
            && forall c: nat :: c < |points| && ErrorAt(points, c) > ignore ==> Covered(points, s, c, cap, ratio)
  {
    var candidates := Candidates(points, ignore, |points|);
    var order := SortBy(candidates, Louder(points));
    LouderIsAnOrder(points, candidates);
    SortSorts(candidates, Louder(points));
    SortKeeps(candidates, Louder(points));
    assert forall c :: c in order <==> c in Elements(candidates);
    KeepExtends(points, order, [], cap, ratio);
    KeepIsSpaced(points, order, [], cap, ratio);
    forall c: nat | c < |points| && ErrorAt(points, c) > ignore
      ensures Covered(points, Selection(points, ignore, cap, ratio), c, cap, ratio)
    {
      KeepCovers(points, order, [], c, cap, ratio);
    }
  }
}
