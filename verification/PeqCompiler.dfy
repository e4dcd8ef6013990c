/** The bounded correction compiler: a measured response in, a short list of valid filters out. */
module PeqCompiler {
  import opened Wrappers
  import opened Sorting
  import opened PeqSelection

  const MAX_RESPONSE_POINTS: nat := 512
  const MAX_FILTERS: nat := 16
  const GAIN_TOLERANCE_DB: real := 0.000000000001

  /** The spacing is held as the frequency ratio `2^octaves`, so that no logarithm is needed. */
  datatype Policy = Policy(
    schemaVersion: nat,
    maxFilters: nat,
    minFrequencyHz: real,
    maxFrequencyHz: real,
    maxBoostDb: real,
    maxCutDb: real,
    minQ: real,
    maxQ: real,
    minSpacingRatio: real,
    ignoreErrorDb: real)

  datatype Filter = Filter(frequencyHz: real, gainDb: real, q: real)

  datatype Diagnostic = InvalidInput | WithinThreshold | ReviewResiduals | VerifyAgain

  datatype CompileResult = CompileResult(
    filters: seq<Filter>,
    limited: bool,
    maximumRequestedCorrectionDb: real,
    diagnostic: Diagnostic)

  /** Q of the point at an index before it is clamped; the bandwidth formula is a parameter. */
  type RawQ = nat -> real

  function Power(x: real, n: nat): real { if n == 0 then 1.0 else x * Power(x, n - 1) }

  /** A ratio `2^s` with `0.01 <= s <= 4`, said without a logarithm. */
  predicate SpacingInRange(ratio: real) { 1.0 < ratio <= 16.0 && Power(ratio, 100) >= 2.0 }

  predicate PolicyIsValid(p: Policy) {
    && p.schemaVersion == 1 && 0 < p.maxFilters <= MAX_FILTERS
    && 10.0 <= p.minFrequencyHz < p.maxFrequencyHz <= 24000.0
    && 0.0 <= p.maxBoostDb <= 24.0 && 0.0 <= p.maxCutDb <= 44.0
    && 0.1 <= p.minQ <= p.maxQ <= 100.0
    && SpacingInRange(p.minSpacingRatio)
    && 0.0 <= p.ignoreErrorDb <= 12.0
  }

  predicate PointIsValid(p: Point) {
    0.0 < p.frequencyHz <= 24000.0 && -144.0 <= p.measuredDb <= 12.0 && -144.0 <= p.targetDb <= 12.0
  }

  predicate FilterIsValid(f: Filter) {
    10.0 <= f.frequencyHz <= 48000.0 && -44.0 <= f.gainDb <= 24.0 && 0.1 <= f.q <= 100.0
  }

  ghost predicate Ascending(points: seq<Point>) {
    forall i, j :: 0 <= i < j < |points| ==> points[i].frequencyHz < points[j].frequencyHz
  }

  predicate PointFits(p: Point, policy: Policy) {
    PointIsValid(p) && policy.minFrequencyHz <= p.frequencyHz <= policy.maxFrequencyHz
  }

  /** A response that may be compiled under a policy. */
  ghost predicate Compilable(points: seq<Point>, policy: Policy) {
    && PolicyIsValid(policy) && 1 <= |points| <= MAX_RESPONSE_POINTS && Ascending(points)
    && forall i :: 0 <= i < |points| ==> PointFits(points[i], policy)
  }

  function Clamp(x: real, low: real, high: real): (y: real)
    requires low <= high
    ensures low <= y <= high && (low <= x <= high ==> y == x)
  {
    if x < low then low else if x > high then high else x
  }

  function FilterAt(points: seq<Point>, policy: Policy, rawQ: RawQ, i: nat): (f: Filter)
    requires i < |points| && PolicyIsValid(policy)
  {
    Filter(points[i].frequencyHz,
           Clamp(Correction(points[i]), -policy.maxCutDb, policy.maxBoostDb),
           Clamp(rawQ(i), policy.minQ, policy.maxQ))
  }

  /** The gain asked for at this point survives the clamp. */
  predicate GainSurvives(points: seq<Point>, f: Filter, i: nat)
    requires i < |points|
  {
    Abs(f.gainDb - Correction(points[i])) <= GAIN_TOLERANCE_DB
  }

  ghost predicate Inside(points: seq<Point>, indices: seq<nat>) {
    forall k :: 0 <= k < |indices| ==> indices[k] < |points|
  }

  function FiltersFor(points: seq<Point>, policy: Policy, rawQ: RawQ, indices: seq<nat>): (filters: seq<Filter>)
    requires PolicyIsValid(policy) && Inside(points, indices)
    ensures |filters| == |indices|
    ensures forall k :: 0 <= k < |indices| ==> filters[k] == FilterAt(points, policy, rawQ, indices[k])
  {
    seq(|indices|, k requires 0 <= k < |indices| => FilterAt(points, policy, rawQ, indices[k]))
  }

  /** The largest correction asked for among the first `count` points. */
  function MaxCorrection(points: seq<Point>, count: nat): (m: real)
    requires count <= |points|
    ensures m >= 0.0
    ensures forall i: nat :: i < count ==> ErrorAt(points, i) <= m
    ensures m == 0.0 || exists i: nat :: i < count && ErrorAt(points, i) == m
  {
    if count == 0 then 0.0
    else
      var m := MaxCorrection(points, count - 1);
      var e := ErrorAt(points, count - 1);
      if e > m then e else m
  }

  function Ascend(): (before: (nat, nat) -> bool) { (i: nat, j: nat) => i < j }

  function Chosen(points: seq<Point>, policy: Policy): seq<nat> {
    Selection(points, policy.ignoreErrorDb, policy.maxFilters, policy.minSpacingRatio)
  }

  // From distinct indices to ascending filters.

  lemma {:induction false} DistinctSize(s: seq<nat>)
    requires forall i, j :: 0 <= i < j < |s| ==> s[i] != s[j]
    ensures |Elements(s)| == |s|
  {
    if s != [] {
      DistinctSize(s[1..]);
      HeadAndTail(s);
      forall i | 0 <= i < |s[1..]| ensures s[1..][i] != s[0] {
        assert s[i + 1] != s[0];
      }
    }
  }

  lemma SpacedIsDistinct(points: seq<Point>, s: seq<nat>, ratio: real)
    requires Spaced(points, s, ratio)
    ensures forall i, j :: 0 <= i < j < |s| ==> s[i] != s[j]
  {
    forall i, j | 0 <= i < j < |s| ensures s[i] != s[j] {
      assert Louder(points)(s[i], s[j]);
    }
  }

  lemma SortedIndices(s: seq<nat>)
    requires forall i, j :: 0 <= i < j < |s| ==> s[i] != s[j]
    ensures SortedBy(SortBy(s, Ascend()), Ascend())
    ensures forall i :: i in SortBy(s, Ascend()) <==> i in s
  {
    SortSorts(s, Ascend());
    SortKeeps(s, Ascend());
    assert forall i :: i in Elements(s) <==> i in s;
    assert forall i :: i in Elements(SortBy(s, Ascend())) <==> i in SortBy(s, Ascend());
  }

  /** Facts about the chosen indices that every later result uses. */
  lemma ChosenIndices(points: seq<Point>, policy: Policy)
    ensures var s := Chosen(points, policy);
            var c := Candidates(points, policy.ignoreErrorDb, |points|);
            && Elements(s) <= Elements(c) && |Elements(s)| == |s| && |Elements(c)| == |c|
            && Inside(points, SortBy(s, Ascend()))
            && SortedBy(SortBy(s, Ascend()), Ascend())
            && (forall i :: i in SortBy(s, Ascend()) <==> i in s)
  {
    var s := Chosen(points, policy);
    SelectionIsGreedy(points, policy.ignoreErrorDb, policy.maxFilters, policy.minSpacingRatio);
    SpacedIsDistinct(points, s, policy.minSpacingRatio);
    SortedIndices(s);
    DistinctSize(s);
    DistinctSize(Candidates(points, policy.ignoreErrorDb, |points|));
    var indices := SortBy(s, Ascend());
    forall k | 0 <= k < |indices| ensures indices[k] < |points| {
      assert indices[k] in indices;
    }
  }

  lemma {:induction false} SubsetOfSameSize(a: set<nat>, b: set<nat>)
    requires a <= b
    ensures |a| <= |b| && (|a| == |b| ==> a == b)
  {
    assert b == a + (b - a);
    assert |b| == |a| + |b - a|;
  }

  /** Every index above the threshold is among these. */
  ghost predicate HoldsAll(points: seq<Point>, ignore: real, indices: seq<nat>) {
    forall i: nat :: i < |points| && ErrorAt(points, i) > ignore ==> i in indices
  }

  lemma HoldsAllCandidates(points: seq<Point>, ignore: real, indices: seq<nat>)
    ensures HoldsAll(points, ignore, indices) <==> Elements(Candidates(points, ignore, |points|)) <= Elements(indices)
  {
    var c := Candidates(points, ignore, |points|);
    forall i: nat | i < |points| && ErrorAt(points, i) > ignore ensures i in Elements(c) {}
    forall i | i in Elements(c) ensures i < |points| && ErrorAt(points, i) > ignore {}
    forall i ensures i in Elements(indices) <==> i in indices {}
  }

  /** Every candidate was chosen exactly when as many were chosen as there are candidates. */
  lemma AllChosen(points: seq<Point>, policy: Policy)
    ensures var s := Chosen(points, policy);
            var c := Candidates(points, policy.ignoreErrorDb, |points|);
            |s| <= |c| && (|s| == |c| <==> HoldsAll(points, policy.ignoreErrorDb, s))
  {
    ChosenIndices(points, policy);
    var s := Chosen(points, policy);
    var c := Candidates(points, policy.ignoreErrorDb, |points|);
    SubsetOfSameSize(Elements(s), Elements(c));
    HoldsAllCandidates(points, policy.ignoreErrorDb, s);
    if Elements(c) <= Elements(s) {
      SubsetOfSameSize(Elements(c), Elements(s));
    }
  }

  // The whole compilation as a function, and what it promises.

  predicate Clipped(points: seq<Point>, filters: seq<Filter>, indices: seq<nat>)
    requires |filters| == |indices| && Inside(points, indices)
  {
    exists k :: 0 <= k < |filters| && !GainSurvives(points, filters[k], indices[k])
  }

  function ChosenFilters(points: seq<Point>, policy: Policy, rawQ: RawQ): (filters: seq<Filter>)
    requires PolicyIsValid(policy)
    ensures |filters| == |Chosen(points, policy)|
  {
    ChosenIndices(points, policy);
    FiltersFor(points, policy, rawQ, SortBy(Chosen(points, policy), Ascend()))
  }

  lemma ChosenArePlaced(points: seq<Point>, policy: Policy, rawQ: RawQ)
    requires PolicyIsValid(policy)
    ensures Placed(points, policy.ignoreErrorDb, ChosenFilters(points, policy, rawQ),
                   SortBy(Chosen(points, policy), Ascend()))
  {
    ChosenIndices(points, policy);
    var indices := SortBy(Chosen(points, policy), Ascend());
    forall k | 0 <= k < |indices| ensures ErrorAt(points, indices[k]) > policy.ignoreErrorDb {
      assert indices[k] in indices && indices[k] in Elements(Chosen(points, policy));
    }
  }

  ghost function Compiled(points: seq<Point>, policy: Policy, rawQ: RawQ): CompileResult {
    if !Compilable(points, policy) then CompileResult([], false, 0.0, InvalidInput)
    else
      var largest := MaxCorrection(points, |points|);
      var candidates := Candidates(points, policy.ignoreErrorDb, |points|);
      if candidates == [] then CompileResult([], false, largest, WithinThreshold)
      else
        var chosen := Chosen(points, policy);
        var filters := ChosenFilters(points, policy, rawQ);
        ChosenIndices(points, policy);
        var limited := |chosen| < |candidates| || Clipped(points, filters, SortBy(chosen, Ascend()));
        CompileResult(filters, limited, largest, if limited then ReviewResiduals else VerifyAgain)
  }

  /** The filters rise strictly in frequency, are all valid, and fit the cap. */
  lemma FiltersAreValid(points: seq<Point>, policy: Policy, rawQ: RawQ)
    requires Compilable(points, policy)
    ensures var filters := Compiled(points, policy, rawQ).filters;
            && |filters| <= policy.maxFilters
            && (forall k :: 0 <= k < |filters| ==> FilterIsValid(filters[k]))
            && forall k, l :: 0 <= k < l < |filters| ==> filters[k].frequencyHz < filters[l].frequencyHz
  {
    ChosenIndices(points, policy);
    SelectionIsGreedy(points, policy.ignoreErrorDb, policy.maxFilters, policy.minSpacingRatio);
    var indices := SortBy(Chosen(points, policy), Ascend());
    forall k | 0 <= k < |indices| ensures indices[k] < |points| {
      assert indices[k] in indices;
    }
  }

  lemma ClampNeverOvershoots(x: real, low: real, high: real)
    requires low <= 0.0 <= high
    ensures Abs(Clamp(x, low, high)) + Abs(x - Clamp(x, low, high)) == Abs(x)
  {
  }

  /** Every filter sits at a point above the threshold and leaves a residual on the same side, no larger. */
  lemma FiltersNeverOvershoot(points: seq<Point>, policy: Policy, rawQ: RawQ, k: nat)
    requires Compilable(points, policy) && k < |Compiled(points, policy, rawQ).filters|
    ensures var f := Compiled(points, policy, rawQ).filters[k];
            exists i: nat :: i < |points| && f.frequencyHz == points[i].frequencyHz
              && ErrorAt(points, i) > policy.ignoreErrorDb
              && Abs(f.gainDb) + Abs(Correction(points[i]) - f.gainDb) == ErrorAt(points, i)
  {
    ChosenIndices(points, policy);
    SelectionIsGreedy(points, policy.ignoreErrorDb, policy.maxFilters, policy.minSpacingRatio);
    var indices := SortBy(Chosen(points, policy), Ascend());
    assert indices[k] in indices;
    assert Compiled(points, policy, rawQ).filters[k] == FilterAt(points, policy, rawQ, indices[k]);
    ClampNeverOvershoots(Correction(points[indices[k]]), -policy.maxCutDb, policy.maxBoostDb);
  }

  /** A point has a filter at its frequency with the gain it asked for. */
  ghost predicate Represented(points: seq<Point>, filters: seq<Filter>, i: nat)
    requires i < |points|
  {
    exists k :: 0 <= k < |filters| && filters[k].frequencyHz == points[i].frequencyHz
      && GainSurvives(points, filters[k], i)
  }

  ghost predicate AllRepresented(points: seq<Point>, ignore: real, filters: seq<Filter>) {
    forall i: nat :: i < |points| && ErrorAt(points, i) > ignore ==> Represented(points, filters, i)
  }

  /** The filters sit at the points with these ascending indices, all above the threshold. */
  ghost predicate Placed(points: seq<Point>, ignore: real, filters: seq<Filter>, indices: seq<nat>) {
    && |filters| == |indices| && Inside(points, indices) && SortedBy(indices, Ascend())
    && forall k :: 0 <= k < |indices| ==>
         filters[k].frequencyHz == points[indices[k]].frequencyHz && ErrorAt(points, indices[k]) > ignore
  }

  lemma FilterOfPoint(points: seq<Point>, ignore: real, filters: seq<Filter>, indices: seq<nat>, i: nat)
    requires Ascending(points) && i < |points| && Placed(points, ignore, filters, indices)
    ensures Represented(points, filters, i)
            <==> exists k :: 0 <= k < |indices| && indices[k] == i && GainSurvives(points, filters[k], indices[k])
  {
    if Represented(points, filters, i) {
      var k :| 0 <= k < |filters| && filters[k].frequencyHz == points[i].frequencyHz
        && GainSurvives(points, filters[k], i);
      assert indices[k] == i;
    }
  }

  lemma RepresentedExactly(points: seq<Point>, ignore: real, filters: seq<Filter>, indices: seq<nat>)
    requires Ascending(points) && Placed(points, ignore, filters, indices)
    ensures AllRepresented(points, ignore, filters)
            <==> HoldsAll(points, ignore, indices) && !Clipped(points, filters, indices)
  {
    forall i: nat | i < |points|
      ensures Represented(points, filters, i)
              <==> exists k :: 0 <= k < |indices| && indices[k] == i && GainSurvives(points, filters[k], indices[k])
    {
      FilterOfPoint(points, ignore, filters, indices, i);
    }
    if AllRepresented(points, ignore, filters) {
      forall k | 0 <= k < |indices| ensures GainSurvives(points, filters[k], indices[k]) {
        assert Represented(points, filters, indices[k]);
        var l :| 0 <= l < |indices| && indices[l] == indices[k] && GainSurvives(points, filters[l], indices[l]);
        assert l == k;
      }
    }
  }

  /**
   * The compiler reports no limitation exactly when every point above the threshold has a filter
   * at its frequency with the gain it asked for.
   */
  lemma LimitedExactly(points: seq<Point>, policy: Policy, rawQ: RawQ)
    requires Compilable(points, policy)
    ensures var result := Compiled(points, policy, rawQ);
            !result.limited <==> AllRepresented(points, policy.ignoreErrorDb, result.filters)
  {
    var chosen := Chosen(points, policy);
    var indices := SortBy(chosen, Ascend());
    var filters := ChosenFilters(points, policy, rawQ);
    ChosenArePlaced(points, policy, rawQ);
    AllChosen(points, policy);
    RepresentedExactly(points, policy.ignoreErrorDb, filters, indices);
    ChosenIndices(points, policy);
    assert HoldsAll(points, policy.ignoreErrorDb, chosen) <==> HoldsAll(points, policy.ignoreErrorDb, indices);
    if Candidates(points, policy.ignoreErrorDb, |points|) == [] {
      assert HoldsAll(points, policy.ignoreErrorDb, Candidates(points, policy.ignoreErrorDb, |points|));
    }
  }

  // The loops.

  method ValidateResponse(points: seq<Point>, policy: Policy) returns (valid: bool)
    ensures valid == Compilable(points, policy)
  {
    if !PolicyIsValid(policy) || |points| < 1 || |points| > MAX_RESPONSE_POINTS {
      return false;
    }
    var previousFrequency := 0.0;
    for i := 0 to |points|
      invariant forall k :: 0 <= k < i ==> PointFits(points[k], policy)
      invariant forall j, k :: 0 <= j < k < i ==> points[j].frequencyHz < points[k].frequencyHz
      invariant previousFrequency == if i == 0 then 0.0 else points[i - 1].frequencyHz
    {
      var point := points[i];
      if !PointFits(point, policy) || (previousFrequency > 0.0 && point.frequencyHz <= previousFrequency) {
        assert i > 0 ==> PointFits(points[i - 1], policy);
        return false;
      }
      previousFrequency := point.frequencyHz;
    }
    return true;
  }

  method CloseToSelected(points: seq<Point>, selected: seq<nat>, candidate: nat, ratio: real) returns (close: bool)
    ensures close == CloseToAny(points, selected, candidate, ratio)
  {
    for k := 0 to |selected|
      invariant forall l :: 0 <= l < k ==> !Close(points, selected[l], candidate, ratio)
    {
      if Close(points, selected[k], candidate, ratio) {
        return true;
      }
    }
    return false;
  }

  /** One search: the free candidate with the largest error, the earliest of equals. */
  method FindLoudest(points: seq<Point>, candidates: seq<nat>, selected: seq<nat>, ratio: real)
    returns (best: Option<nat>)
    requires forall i, j :: 0 <= i < j < |candidates| ==> candidates[i] < candidates[j]
    ensures best.None? ==> forall c :: c in candidates ==> Blocked(points, selected, c, ratio)
    ensures best.Some? ==> best.value in candidates && !Blocked(points, selected, best.value, ratio)
    ensures best.Some? ==> forall c :: c in candidates && !Blocked(points, selected, c, ratio) ==>
                                         c == best.value || Louder(points)(best.value, c)
  {
    best := None;
    var bestError := -1.0;
    for k := 0 to |candidates|
      invariant best.None? ==> bestError == -1.0
      invariant best.None? ==> forall l :: 0 <= l < k ==> Blocked(points, selected, candidates[l], ratio)
      invariant best.Some? ==> best.value in candidates[..k] && !Blocked(points, selected, best.value, ratio)
      invariant best.Some? ==> bestError == ErrorAt(points, best.value)
      invariant best.Some? ==> forall l :: 0 <= l < k && !Blocked(points, selected, candidates[l], ratio) ==>
                                             candidates[l] == best.value || Louder(points)(best.value, candidates[l])
    {
      var candidate := candidates[k];
      var close := CloseToSelected(points, selected, candidate, ratio);
      if candidate in selected || close {
        continue;
      }
      var error := ErrorAt(points, candidate);
      if error > bestError {
        bestError := error;
        best := Some(candidate);
      }
    }
  }

  /** The repeated search selects what the single sorted pass selects. */
  method Select(points: seq<Point>, candidates: seq<nat>, policy: Policy) returns (selected: seq<nat>)
    requires candidates == Candidates(points, policy.ignoreErrorDb, |points|)
    ensures selected == Chosen(points, policy)
  {
    ghost var order := SortBy(candidates, Louder(points));
    LouderIsAnOrder(points, candidates);
    SortSorts(candidates, Louder(points));
    SortKeeps(candidates, Louder(points));
    assert forall c :: c in order <==> c in Elements(candidates);
    selected := [];
    while |selected| < policy.maxFilters && |selected| < |candidates|
      invariant |selected| <= policy.maxFilters
      invariant Keep(points, order, selected, policy.maxFilters, policy.minSpacingRatio) == Chosen(points, policy)
      invariant forall i :: i in selected ==> i in candidates
      invariant forall i, j :: 0 <= i < j < |selected| ==> selected[i] != selected[j]
      decreases |candidates| - |selected|
    {
      var best := FindLoudest(points, candidates, selected, policy.minSpacingRatio);
      if best.None? {
        break;
      }
      LoudestIsNext(points, order, selected, best.value, policy.maxFilters, policy.minSpacingRatio);
      selected := selected + [best.value];
    }
    SelectionIsFinished(points, order, candidates, selected, policy);
  }

  /** When the loop stops, the cap is reached or nothing is free. */
  lemma SelectionIsFinished(points: seq<Point>, order: seq<nat>, candidates: seq<nat>, selected: seq<nat>,
                            policy: Policy)
    requires candidates == Candidates(points, policy.ignoreErrorDb, |points|)
    requires forall c :: c in order <==> c in candidates
    requires forall i :: i in selected ==> i in candidates
    requires forall i, j :: 0 <= i < j < |selected| ==> selected[i] != selected[j]
    requires |selected| >= policy.maxFilters || |selected| >= |candidates|
             || forall c :: c in candidates ==> Blocked(points, selected, c, policy.minSpacingRatio)
    ensures Keep(points, order, selected, policy.maxFilters, policy.minSpacingRatio) == selected
  {
    if |selected| < policy.maxFilters {
      if |selected| >= |candidates| {
        DistinctSize(selected);
        DistinctSize(candidates);
        SubsetOfSameSize(Elements(selected), Elements(candidates));
        forall c | c in candidates ensures Blocked(points, selected, c, policy.minSpacingRatio) {
          assert c in Elements(candidates) && c in Elements(selected);
        }
      }
      NothingIsFree(points, order, selected, policy.maxFilters, policy.minSpacingRatio);
    }
  }

  /** One filter per index, noting whether a clamp changed a gain. */
  method BuildFilters(points: seq<Point>, policy: Policy, rawQ: RawQ, indices: seq<nat>)
    returns (filters: seq<Filter>, clipped: bool)
    requires PolicyIsValid(policy) && Inside(points, indices)
    ensures filters == FiltersFor(points, policy, rawQ, indices)
    ensures clipped == Clipped(points, filters, indices)
  {
    filters, clipped := [], false;
    for k := 0 to |indices|
      invariant filters == FiltersFor(points, policy, rawQ, indices)[..k]
      invariant clipped == exists l :: 0 <= l < k && !GainSurvives(points, filters[l], indices[l])
    {
      assert indices[k] in indices;
      var f := FilterAt(points, policy, rawQ, indices[k]);
      if !GainSurvives(points, f, indices[k]) {
        clipped := true;
      }
      filters := filters + [f];
    }
  }

  method MeasureLargest(points: seq<Point>) returns (largest: real)
    ensures largest == MaxCorrection(points, |points|)
  {
    largest := 0.0;
    for i := 0 to |points|
      invariant largest == MaxCorrection(points, i)
    {
      var error := ErrorAt(points, i);
      if error > largest {
        largest := error;
      }
    }
  }

  method CollectCandidates(points: seq<Point>, policy: Policy) returns (candidates: seq<nat>)
    ensures candidates == Candidates(points, policy.ignoreErrorDb, |points|)
  {
    candidates := [];
    for i := 0 to |points|
      invariant candidates == Candidates(points, policy.ignoreErrorDb, i)
    {
      if ErrorAt(points, i) > policy.ignoreErrorDb {
        candidates := candidates + [i];
      }
    }
  }

  method CompileBoundedPeqCorrection(points: seq<Point>, policy: Policy, rawQ: RawQ) returns (result: CompileResult)
    ensures result == Compiled(points, policy, rawQ)
  {
    var valid := ValidateResponse(points, policy);
    if !valid {
      return CompileResult([], false, 0.0, InvalidInput);
    }
    var largest := MeasureLargest(points);
    var candidates := CollectCandidates(points, policy);
    if candidates == [] {
      return CompileResult([], false, largest, WithinThreshold);
    }
    var selected := Select(points, candidates, policy);
    ChosenIndices(points, policy);
    var limited := |selected| < |candidates|;
    var indices := SortBy(selected, Ascend());
    var filters, clipped := BuildFilters(points, policy, rawQ, indices);
    limited := limited || clipped;
    return CompileResult(filters, limited, largest, if limited then ReviewResiduals else VerifyAgain);
  }

  // One compilation per channel of a layout.

  datatype BatchDiagnostic =
    | SetMismatch
    | NoPoints(channel: nat)
    | FailedValidation(channel: nat)
    | BatchReviewResiduals
    | BatchVerifyAgain

  datatype BatchResult = BatchResult(
    success: bool,
    channelFilters: seq<seq<Filter>>,
    channelLimited: seq<bool>,
    diagnostic: BatchDiagnostic)

  predicate KnownLayout(channels: int) { channels == 1 || channels == 2 || channels == 6 || channels == 8 }

  /** Each of the first `count` channels has a response that compiles. */
  ghost predicate ChannelsCompile(channels: seq<Option<seq<Point>>>, count: nat, policy: Policy)
    requires count <= |channels|
  {
    forall i :: 0 <= i < count ==> channels[i].Some? && Compilable(channels[i].value, policy)
  }

  /** The filters and flags are, channel by channel, those of the single compilation. */
  ghost predicate Batched(channels: seq<Option<seq<Point>>>, policy: Policy, rawQ: nat -> RawQ,
                          filters: seq<seq<Filter>>, limited: seq<bool>)
  {
    && |filters| == |limited| <= |channels|
    && forall c :: 0 <= c < |filters| ==>
         channels[c].Some? && OfChannel(channels[c].value, policy, rawQ(c), filters[c], limited[c])
  }

  ghost predicate OfChannel(points: seq<Point>, policy: Policy, rawQ: RawQ, filters: seq<Filter>, limited: bool) {
    filters == Compiled(points, policy, rawQ).filters && limited == Compiled(points, policy, rawQ).limited
  }

  /** The refusal names this channel, the first at fault. */
  ghost predicate FirstFault(channels: seq<Option<seq<Point>>>, policy: Policy, diagnostic: BatchDiagnostic) {
    match diagnostic
    case NoPoints(c) => c < |channels| && channels[c].None? && ChannelsCompile(channels, c, policy)
    case FailedValidation(c) =>
      && c < |channels| && channels[c].Some? && !Compilable(channels[c].value, policy)
      && ChannelsCompile(channels, c, policy)
    case _ => false
  }

  /** One channel: its filters and flag, or the fault it refuses the batch with. */
  method CompileChannel(channels: seq<Option<seq<Point>>>, c: nat, policy: Policy, rawQ: RawQ)
    returns (result: Result<(seq<Filter>, bool), BatchDiagnostic>)
    requires c < |channels| && ChannelsCompile(channels, c, policy)
    ensures result.Ok? ==> channels[c].Some? && Compilable(channels[c].value, policy)
                           && OfChannel(channels[c].value, policy, rawQ, result.value.0, result.value.1)
    ensures result.Err? ==> FirstFault(channels, policy, result.error)
  {
    if channels[c].None? {
      return Err(NoPoints(c));
    }
    var compiled := CompileBoundedPeqCorrection(channels[c].value, policy, rawQ);
    if compiled.filters == [] && compiled.diagnostic.InvalidInput? {
      return Err(FailedValidation(c));
    }
    return Ok((compiled.filters, compiled.limited));
  }

  lemma BatchedGrows(channels: seq<Option<seq<Point>>>, policy: Policy, rawQ: nat -> RawQ,
                     filters: seq<seq<Filter>>, limited: seq<bool>, f: seq<Filter>, l: bool)
    requires Batched(channels, policy, rawQ, filters, limited) && |filters| < |channels|
    requires channels[|filters|].Some? && OfChannel(channels[|filters|].value, policy, rawQ(|filters|), f, l)
    ensures Batched(channels, policy, rawQ, filters + [f], limited + [l])
  {
  }

  /** All channels in order, stopping at the first fault. */
  method CompileChannels(channels: seq<Option<seq<Point>>>, policy: Policy, rawQ: nat -> RawQ)
    returns (results: seq<seq<Filter>>, limits: seq<bool>, fault: Option<BatchDiagnostic>)
    ensures fault.None? <==> ChannelsCompile(channels, |channels|, policy)
    ensures fault.None? ==> |results| == |channels| && Batched(channels, policy, rawQ, results, limits)
    ensures fault.Some? ==> FirstFault(channels, policy, fault.value)
  {
    results, limits := [], [];
    for c := 0 to |channels|
      invariant |results| == c && ChannelsCompile(channels, c, policy)
      invariant Batched(channels, policy, rawQ, results, limits)
    {
      var channel := CompileChannel(channels, c, policy, rawQ(c));
      if channel.Err? {
        return results, limits, Some(channel.error);
      }
      BatchedGrows(channels, policy, rawQ, results, limits, channel.value.0, channel.value.1);
      results := results + [channel.value.0];
      limits := limits + [channel.value.1];
    }
    return results, limits, None;
  }

  /**
   * A batch succeeds only as a whole, with each channel compiled as on its own; a refusal returns
   * no filters and names the first channel at fault.
   */
  method CompileMultiChannelBatch(channelCount: int, responses: Option<seq<Option<seq<Point>>>>, policy: Policy,
                                  rawQ: nat -> RawQ)
    returns (batch: BatchResult)
    ensures batch.diagnostic.SetMismatch?
            <==> responses.None? || !KnownLayout(channelCount) || |responses.value| != channelCount
    ensures batch.success <==> !batch.diagnostic.SetMismatch? && ChannelsCompile(responses.value, channelCount, policy)
    ensures batch.success ==>
              && |batch.channelFilters| == channelCount
              && Batched(responses.value, policy, rawQ, batch.channelFilters, batch.channelLimited)
              && batch.diagnostic == if true in batch.channelLimited then BatchReviewResiduals else BatchVerifyAgain
    ensures !batch.success ==> batch.channelFilters == [] && batch.channelLimited == []
    ensures !batch.success && !batch.diagnostic.SetMismatch? ==> FirstFault(responses.value, policy, batch.diagnostic)
  {
    if responses.None? || !KnownLayout(channelCount) || |responses.value| != channelCount {
      return BatchResult(false, [], [], SetMismatch);
    }
    var results, limits, fault := CompileChannels(responses.value, policy, rawQ);
    if fault.Some? {
      return BatchResult(false, [], [], fault.value);
    }
    return BatchResult(true, results, limits, if true in limits then BatchReviewResiduals else BatchVerifyAgain);
  }
}
