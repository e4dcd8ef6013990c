/** What a compiled correction promises, said on the fields of the measured points. */
module PeqPromises {
  import opened Sorting
  import opened PeqSelection
  import opened PeqCompiler

  /** The filter corrects this point: what the point is below its target, within the policy's bounds. */
  ghost predicate Corrects(f: Filter, p: Point, policy: Policy, rawQ: real) {
    var want := p.targetDb - p.measuredDb;
    && f.frequencyHz == p.frequencyHz
    && f.gainDb == (if want > policy.maxBoostDb then policy.maxBoostDb
                    else if want < 0.0 - policy.maxCutDb then 0.0 - policy.maxCutDb else want)
    && f.q == (if rawQ > policy.maxQ then policy.maxQ else if rawQ < policy.minQ then policy.minQ else rawQ)
  }

  /** How far the measurement is off its target, to either side. */
  function Off(p: Point): real {
    if p.targetDb > p.measuredDb then p.targetDb - p.measuredDb else p.measuredDb - p.targetDb
  }

  lemma FilterOf(points: seq<Point>, policy: Policy, rawQ: RawQ, k: nat)
    requires Compilable(points, policy) && k < |Compiled(points, policy, rawQ).filters|
    ensures var indices := SortBy(Chosen(points, policy), Ascend());
            && |indices| == |Compiled(points, policy, rawQ).filters| && Inside(points, indices)
            && indices[k] in Chosen(points, policy)
            && Compiled(points, policy, rawQ).filters[k] == FilterAt(points, policy, rawQ, indices[k])
  {
    ChosenIndices(points, policy);
    assert SortBy(Chosen(points, policy), Ascend())[k] in SortBy(Chosen(points, policy), Ascend());
  }

  /** Every filter corrects a point that is off by more than the threshold: a boost when it is below its target. */
  lemma FiltersCorrectTheirPoints(points: seq<Point>, policy: Policy, rawQ: RawQ, k: nat)
    requires Compilable(points, policy) && k < |Compiled(points, policy, rawQ).filters|
    ensures exists i: nat :: i < |points| && Off(points[i]) > policy.ignoreErrorDb
              && Corrects(Compiled(points, policy, rawQ).filters[k], points[i], policy, rawQ(i))
  {
    var i := SortBy(Chosen(points, policy), Ascend())[k];
    FilterOf(points, policy, rawQ, k);
    SelectionIsGreedy(points, policy.ignoreErrorDb, policy.maxFilters, policy.minSpacingRatio);
    assert Off(points[i]) > policy.ignoreErrorDb;
  }

  /** At least this ratio above the other. */
  predicate SpacedAbove(upper: real, lower: real, ratio: real) { upper >= ratio * lower }

  lemma NotCloseIsSpaced(points: seq<Point>, i: nat, j: nat, ratio: real)
    requires i < |points| && j < |points| && points[i].frequencyHz < points[j].frequencyHz
    requires !Close(points, i, j, ratio) || !Close(points, j, i, ratio)
    ensures SpacedAbove(points[j].frequencyHz, points[i].frequencyHz, ratio)
  {
  }

  lemma ChosenAreApart(points: seq<Point>, s: seq<nat>, ratio: real, i: nat, j: nat)
    requires Spaced(points, s, ratio) && i in s && j in s && i != j
    ensures !Close(points, i, j, ratio) || !Close(points, j, i, ratio)
  {
    var a :| 0 <= a < |s| && s[a] == i;
    var b :| 0 <= b < |s| && s[b] == j;
  }

  lemma ChosenAreNotClose(points: seq<Point>, policy: Policy, i: nat, j: nat)
    requires i in Chosen(points, policy) && j in Chosen(points, policy) && i != j
    ensures i < |points| && j < |points|
    ensures !Close(points, i, j, policy.minSpacingRatio) || !Close(points, j, i, policy.minSpacingRatio)
  {
    SelectionIsGreedy(points, policy.ignoreErrorDb, policy.maxFilters, policy.minSpacingRatio);
    ChosenAreApart(points, Chosen(points, policy), policy.minSpacingRatio, i, j);
  }

  lemma ChosenAreSpaced(points: seq<Point>, policy: Policy, i: nat, j: nat)
    requires Ascending(points) && i in Chosen(points, policy) && j in Chosen(points, policy) && i < j
    ensures j < |points| && SpacedAbove(points[j].frequencyHz, points[i].frequencyHz, policy.minSpacingRatio)
  {
    ChosenAreNotClose(points, policy, i, j);
    NotCloseIsSpaced(points, i, j, policy.minSpacingRatio);
  }

  lemma IndicesRise(points: seq<Point>, policy: Policy, k: nat, l: nat)
    requires k < l < |SortBy(Chosen(points, policy), Ascend())|
    ensures SortBy(Chosen(points, policy), Ascend())[k] < SortBy(Chosen(points, policy), Ascend())[l]
  {
    ChosenIndices(points, policy);
  }

  /** Each filter is at least the minimum spacing above the one before it. */
  lemma FiltersAreSpaced(points: seq<Point>, policy: Policy, rawQ: RawQ, k: nat, l: nat)
    requires Compilable(points, policy) && k < l < |Compiled(points, policy, rawQ).filters|
    ensures var filters := Compiled(points, policy, rawQ).filters;
            SpacedAbove(filters[l].frequencyHz, filters[k].frequencyHz, policy.minSpacingRatio)
  {
    FilterOf(points, policy, rawQ, k);
    FilterOf(points, policy, rawQ, l);
    IndicesRise(points, policy, k, l);
    var indices := SortBy(Chosen(points, policy), Ascend());
    ChosenAreSpaced(points, policy, indices[k], indices[l]);
  }

  /** A filter sits at this point. */
  ghost predicate HasFilter(filters: seq<Filter>, p: Point) {
    exists k :: 0 <= k < |filters| && filters[k].frequencyHz == p.frequencyHz
  }

  /** Nearer to each other than the minimum spacing. */
  predicate Near(p: Point, q: Point, ratio: real) {
    p.frequencyHz < ratio * q.frequencyHz && q.frequencyHz < ratio * p.frequencyHz
  }

  lemma CloseIsNear(points: seq<Point>, i: nat, j: nat, ratio: real)
    requires Close(points, i, j, ratio) && ratio > 1.0
    requires points[i].frequencyHz > 0.0 && points[j].frequencyHz > 0.0
    ensures Near(points[i], points[j], ratio)
  {
    var a, b := points[i].frequencyHz, points[j].frequencyHz;
    assert a <= ratio * a && b <= ratio * b;
    assert a < ratio * a && b < ratio * b;
  }

  lemma ChosenHasFilter(points: seq<Point>, policy: Policy, rawQ: RawQ, i: nat)
    requires Compilable(points, policy) && i in Chosen(points, policy) && i < |points|
    ensures HasFilter(Compiled(points, policy, rawQ).filters, points[i])
  {
    var indices := SortBy(Chosen(points, policy), Ascend());
    ChosenIndices(points, policy);
    var k :| 0 <= k < |indices| && indices[k] == i;
    SelectionIsGreedy(points, policy.ignoreErrorDb, policy.maxFilters, policy.minSpacingRatio);
    assert i in Candidates(points, policy.ignoreErrorDb, |points|);
    FilterOf(points, policy, rawQ, k);
  }

  lemma SomethingIsChosen(points: seq<Point>, policy: Policy)
    requires policy.maxFilters > 0
    ensures Chosen(points, policy) == [] <==> Candidates(points, policy.ignoreErrorDb, |points|) == []
  {
    var c := Candidates(points, policy.ignoreErrorDb, |points|);
    SelectionIsGreedy(points, policy.ignoreErrorDb, policy.maxFilters, policy.minSpacingRatio);
    if c != [] {
      assert c[0] in c && Covered(points, Chosen(points, policy), c[0], policy.maxFilters, policy.minSpacingRatio);
    }
    assert Chosen(points, policy) != [] ==> Chosen(points, policy)[0] in c;
  }

  /** Conversely, a point with a filter was chosen. */
  lemma FilterMeansChosen(points: seq<Point>, policy: Policy, rawQ: RawQ, j: nat)
    requires Compilable(points, policy) && j < |points| && HasFilter(Compiled(points, policy, rawQ).filters, points[j])
    ensures j in Chosen(points, policy)
  {
    var filters := Compiled(points, policy, rawQ).filters;
    var k :| 0 <= k < |filters| && filters[k].frequencyHz == points[j].frequencyHz;
    FilterOf(points, policy, rawQ, k);
    assert j == SortBy(Chosen(points, policy), Ascend())[k];
  }

  lemma AsManyAsChosen(points: seq<Point>, policy: Policy, rawQ: RawQ)
    requires Compilable(points, policy)
    ensures |Compiled(points, policy, rawQ).filters| == |Chosen(points, policy)| <= policy.maxFilters
  {
    SomethingIsChosen(points, policy);
    KeepExtends(points, SortBy(Candidates(points, policy.ignoreErrorDb, |points|), Louder(points)), [],
                policy.maxFilters, policy.minSpacingRatio);
  }

  lemma CapIsUsedUp(points: seq<Point>, policy: Policy, rawQ: RawQ, i: nat)
    requires Compilable(points, policy) && i < |points|
    requires var s := Chosen(points, policy);
             |s| >= policy.maxFilters && forall k :: 0 <= k < |s| ==> ErrorAt(points, s[k]) >= ErrorAt(points, i)
    ensures var filters := Compiled(points, policy, rawQ).filters;
            && |filters| == policy.maxFilters
            && forall j: nat :: j < |points| && HasFilter(filters, points[j]) ==> Off(points[j]) >= Off(points[i])
  {
    AsManyAsChosen(points, policy, rawQ);
    forall j: nat | j < |points| && HasFilter(Compiled(points, policy, rawQ).filters, points[j])
      ensures Off(points[j]) >= Off(points[i])
    {
      FilterMeansChosen(points, policy, rawQ, j);
    }
  }

  /**
   * A point off by more than the threshold has its filter, or is near a point with a filter that is off at
   * least as much, or the cap is used up by filters at such points.
   */
  lemma PointsAreAnswered(points: seq<Point>, policy: Policy, rawQ: RawQ, i: nat)
    requires Compilable(points, policy) && i < |points| && Off(points[i]) > policy.ignoreErrorDb
    ensures var filters := Compiled(points, policy, rawQ).filters;
            || HasFilter(filters, points[i])
            || (exists j: nat :: j < |points| && HasFilter(filters, points[j]) && Off(points[j]) >= Off(points[i])
                  && Near(points[j], points[i], policy.minSpacingRatio))
            || (|filters| == policy.maxFilters
                && forall j: nat :: j < |points| && HasFilter(filters, points[j]) ==> Off(points[j]) >= Off(points[i]))
  {
    var s := Chosen(points, policy);
    SelectionIsGreedy(points, policy.ignoreErrorDb, policy.maxFilters, policy.minSpacingRatio);
    assert Covered(points, s, i, policy.maxFilters, policy.minSpacingRatio);
    if i in s {
      ChosenHasFilter(points, policy, rawQ, i);
    } else if exists k :: 0 <= k < |s| && Close(points, s[k], i, policy.minSpacingRatio)
                          && ErrorAt(points, s[k]) >= ErrorAt(points, i) {
      var k :| 0 <= k < |s| && Close(points, s[k], i, policy.minSpacingRatio)
               && ErrorAt(points, s[k]) >= ErrorAt(points, i);
      ChosenHasFilter(points, policy, rawQ, s[k]);
      CloseIsNear(points, s[k], i, policy.minSpacingRatio);
    } else {
      CapIsUsedUp(points, policy, rawQ, i);
    }
  }

  lemma NoCandidates(points: seq<Point>, ignore: real)
    ensures Candidates(points, ignore, |points|) == [] <==> forall i :: 0 <= i < |points| ==> Off(points[i]) <= ignore
  {
    var c := Candidates(points, ignore, |points|);
    assert c != [] ==> c[0] in c;
    assert forall i: nat :: i < |points| ==> ErrorAt(points, i) == Off(points[i]);
  }

  /** Which of the four outcomes a result is. */
  lemma ResultIsExplained(points: seq<Point>, policy: Policy, rawQ: RawQ)
    ensures var r := Compiled(points, policy, rawQ);
            && (r.diagnostic.InvalidInput? <==> !Compilable(points, policy))
            && (r.diagnostic.InvalidInput? ==> r.filters == [] && !r.limited && r.maximumRequestedCorrectionDb == 0.0)
            && (r.diagnostic.WithinThreshold?
                <==> && Compilable(points, policy)
                     && forall i :: 0 <= i < |points| ==> Off(points[i]) <= policy.ignoreErrorDb)
            && (r.diagnostic.ReviewResiduals? <==> r.limited)
            && (r.filters == [] <==> r.diagnostic.InvalidInput? || r.diagnostic.WithinThreshold?)
  {
    if Compilable(points, policy) {
      NoCandidates(points, policy.ignoreErrorDb);
      SomethingIsChosen(points, policy);
    }
  }

  /** The largest correction it reports is asked for by some point, and by none exceeded. */
  lemma LargestIsReported(points: seq<Point>, policy: Policy, rawQ: RawQ)
    requires Compilable(points, policy)
    ensures var m := Compiled(points, policy, rawQ).maximumRequestedCorrectionDb;
            && (forall i :: 0 <= i < |points| ==> Off(points[i]) <= m)
            && exists i :: 0 <= i < |points| && Off(points[i]) == m
  {
    var m := MaxCorrection(points, |points|);
    forall i: nat | i < |points| ensures Off(points[i]) == ErrorAt(points, i) <= m {}
    if m == 0.0 {
      assert Off(points[0]) == m;
    } else {
      var i: nat :| i < |points| && ErrorAt(points, i) == m;
      assert Off(points[i]) == m;
    }
  }

  /** A filter at the point brings it to its target, but for the tolerance of 1e-12 dB. */
  ghost predicate FullyCorrected(filters: seq<Filter>, p: Point) {
    exists k :: 0 <= k < |filters| && filters[k].frequencyHz == p.frequencyHz
      && -0.000000000001 <= p.measuredDb + filters[k].gainDb - p.targetDb <= 0.000000000001
  }

  /** The result is unlimited exactly when every point off by more than the threshold is fully corrected. */
  lemma UnlimitedExactly(points: seq<Point>, policy: Policy, rawQ: RawQ)
    requires Compilable(points, policy)
    ensures var r := Compiled(points, policy, rawQ);
            !r.limited <==> forall i :: 0 <= i < |points| && Off(points[i]) > policy.ignoreErrorDb ==>
                                          FullyCorrected(r.filters, points[i])
  {
    var filters := Compiled(points, policy, rawQ).filters;
    LimitedExactly(points, policy, rawQ);
    forall i: nat | i < |points|
      ensures Represented(points, filters, i) <==> FullyCorrected(filters, points[i])
      ensures ErrorAt(points, i) == Off(points[i])
    {
      SurvivesMeansCorrected(points, filters, i);
    }
  }

  lemma SurvivesMeansCorrected(points: seq<Point>, filters: seq<Filter>, i: nat)
    requires i < |points|
    ensures Represented(points, filters, i) <==> FullyCorrected(filters, points[i])
  {
    if Represented(points, filters, i) {
      var k :| 0 <= k < |filters| && filters[k].frequencyHz == points[i].frequencyHz
        && GainSurvives(points, filters[k], i);
    }
    if FullyCorrected(filters, points[i]) {
      var k :| 0 <= k < |filters| && filters[k].frequencyHz == points[i].frequencyHz
        && -0.000000000001 <= points[i].measuredDb + filters[k].gainDb - points[i].targetDb <= 0.000000000001;
      assert GainSurvives(points, filters[k], i);
    }
  }
}
