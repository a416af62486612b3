/** Comparison of a candidate run with a baseline run: aggregates recomputed from the case
    evidence, the stored summaries checked against them, and every release gate applied. */
module Comparison {
  import opened Common
  import opened Ordering
  import opened Evaluation

  datatype Direction = HigherIsBetter | LowerIsBetter

  datatype Gate = Gate(
    metric: string, slice: Option<string>, direction: Direction, threshold: real, allowedRegression: real)

  datatype Spec = Spec(name: string, dataset: Ref, candidate: Ref, baseline: Option<Ref>, gates: seq<Gate>)

  datatype AggregateComparison = AggregateComparison(
    metric: string, slice: Option<string>, evaluator: Ref,
    baseline: Aggregate, candidate: Aggregate, delta: Option<real>)

  datatype Change = NewlyPassing | NewlyFailing | UnchangedPassing | UnchangedFailing | Incomparable

  datatype CaseComparison = CaseComparison(
    metric: string, slice: Option<string>, caseId: string, slices: seq<string>,
    baseline: Score, candidate: Score, delta: Option<real>,
    baselinePassed: Option<bool>, candidatePassed: Option<bool>, change: Change)

  datatype GateFailure = CoverageFailure | ThresholdFailure | RegressionFailure

  datatype GateResult = GateResult(
    gate: Gate, aggregate: AggregateComparison,
    coveragePassed: bool, thresholdPassed: bool, regressionPassed: bool,
    passed: bool, failureCodes: seq<GateFailure>)

  datatype Decision = Decision(
    spec: string, dataset: Ref, baseline: Ref, candidate: Ref, baselineRunId: string, candidateRunId: string,
    aggregates: seq<AggregateComparison>, gates: seq<GateResult>, cases: seq<CaseComparison>,
    mode: ExecutionMode, passed: bool)

  datatype ConfigurationError =
    | BaselineMissing
    | ModesDiffer
    | DatasetMismatch
    | PolicyMismatch
    | CasesMismatch
    | MetricsRepeat
    | MetricsDiffer
    | EvaluatorsDiffer
    | SummariesMismatch
    | GateUnknown

  // ---------------------------------------------------------------- scopes and aggregates

  predicate InSlice(c: EvaluationCase, slice: Option<string>) {
    slice.None? || slice.value in c.slices
  }

  function InScope(cases: seq<EvaluationCase>, slice: Option<string>): (r: seq<EvaluationCase>)
    ensures forall c :: c in r <==> c in cases && InSlice(c, slice)
    decreases |cases|
  {
    if cases == [] then []
    else
      var n := |cases| - 1;
      assert cases == cases[..n] + [cases[n]];
      InScope(cases[..n], slice) + (if InSlice(cases[n], slice) then [cases[n]] else [])
  }

  lemma ScopeLast(cases: seq<EvaluationCase>, slice: Option<string>)
    requires cases != []
    ensures
      var n := |cases| - 1;
      InScope(cases, slice) == InScope(cases[..n], slice) + (if InSlice(cases[n], slice) then [cases[n]] else [])
  {
  }

  lemma {:induction false} WholeScope(cases: seq<EvaluationCase>)
    ensures InScope(cases, None) == cases
    decreases |cases|
  {
    if cases == [] {
      assert InScope([], None) == [];
    } else {
      hide InScope;
      var n := |cases| - 1;
      WholeScope(cases[..n]);
      ScopeLast(cases, None);
      assert cases[..n] + [cases[n]] == cases;
    }
  }

  predicate HasCase(results: seq<CaseResult>, id: string) {
    exists i :: 0 <= i < |results| && results[i].caseId == id
  }

  /** The result stored for a case. */
  function Find(results: seq<CaseResult>, id: string): (c: CaseResult)
    requires HasCase(results, id)
    ensures c in results && c.caseId == id
  {
    if results[0].caseId == id then results[0]
    else
      assert HasCase(results[1..], id) by {
        var i :| 0 <= i < |results| && results[i].caseId == id;
        assert results[1..][i - 1].caseId == id;
      }
      Find(results[1..], id)
  }

  predicate Present(selected: seq<EvaluationCase>, results: seq<CaseResult>) {
    forall i :: 0 <= i < |selected| ==> HasCase(results, selected[i].caseId)
  }

  /** The results are those of exactly these cases, in this order. */
  predicate SameCases(cases: seq<EvaluationCase>, results: seq<CaseResult>) {
    |results| == |cases| && forall i :: 0 <= i < |cases| ==> results[i].caseId == cases[i].caseId
  }

  lemma ScopePresent(cases: seq<EvaluationCase>, slice: Option<string>, results: seq<CaseResult>)
    requires SameCases(cases, results)
    ensures Present(InScope(cases, slice), results)
  {
    var selected := InScope(cases, slice);
    forall i | 0 <= i < |selected|
      ensures HasCase(results, selected[i].caseId)
    {
      assert selected[i] in cases;
      var k :| 0 <= k < |cases| && cases[k] == selected[i];
      assert results[k].caseId == selected[i].caseId;
    }
  }

  lemma {:induction false} FindAt(results: seq<CaseResult>, i: int)
    requires 0 <= i < |results|
    requires forall j :: 0 <= j < i ==> results[j].caseId != results[i].caseId
    ensures HasCase(results, results[i].caseId) && Find(results, results[i].caseId) == results[i]
    decreases |results|
  {
    if i > 0 {
      FindAt(results[1..], i - 1);
    }
  }

  function ScopedValues(selected: seq<EvaluationCase>, results: seq<CaseResult>, metric: string): (r: seq<Score>)
    requires Present(selected, results)
    ensures |r| == |selected|
    ensures forall i :: 0 <= i < |r| ==> r[i] == CaseValue(Find(results, selected[i].caseId), metric)
  {
    seq(|selected|, i requires 0 <= i < |selected| => CaseValue(Find(results, selected[i].caseId), metric))
  }

  /** Over the whole dataset the scoped values are simply those of the run's cases. */
  lemma WholeValues(d: Dataset, results: seq<CaseResult>, metric: string)
    requires ValidDataset(d) && SameCases(d.cases, results)
    ensures Present(d.cases, results)
    ensures ScopedValues(d.cases, results, metric) == CaseValues(results, metric)
  {
    WholeScope(d.cases);
    ScopePresent(d.cases, None, results);
    forall i | 0 <= i < |d.cases|
      ensures Find(results, d.cases[i].caseId) == results[i]
    {
      forall j | 0 <= j < i
        ensures results[j].caseId != results[i].caseId
      {
        TextTotal(d.cases[j].caseId, d.cases[i].caseId);
      }
      FindAt(results, i);
    }
  }

  /** One metric over the selected cases, counted in one pass. */
  method AggregateCases(selected: seq<EvaluationCase>, results: seq<CaseResult>, metric: string)
    returns (a: Aggregate)
    requires Present(selected, results)
    ensures a == Tally(ScopedValues(selected, results, metric))
  {
    var values: seq<real>, skipped, errors, i := [], 0, 0, 0;
    ghost var all := ScopedValues(selected, results, metric);
    while i < |selected|
      invariant 0 <= i <= |selected|
      invariant values == Scores(all[..i])
      invariant skipped == CountSkipped(all[..i])
      invariant errors == CountErrors(all[..i])
    {
      assert all[..i + 1][..i] == all[..i];
      match CaseValue(Find(results, selected[i].caseId), metric) {
        case Scored(value) => values := values + [value];
        case Skipped => skipped := skipped + 1;
        case Errored => errors := errors + 1;
      }
      i := i + 1;
    }
    assert all[..i] == all;
    a := Aggregate(|selected|, |values|, skipped, errors,
                   if values == [] then None else Some(Sum(values) / |values| as real));
  }

  // ---------------------------------------------------------------- gates

  const TOLERANCE: real := 0.000000000001

  function Distance(a: real, b: real): real {
    if a < b then b - a else a - b
  }

  predicate AtLeast(value: real, boundary: real) {
    value >= boundary || Distance(value, boundary) <= TOLERANCE
  }

  predicate AtMost(value: real, boundary: real) {
    value <= boundary || Distance(value, boundary) <= TOLERANCE
  }

  predicate Passes(value: real, direction: Direction, threshold: real) {
    if direction.HigherIsBetter? then AtLeast(value, threshold) else AtMost(value, threshold)
  }

  predicate RegressionPasses(delta: real, direction: Direction, allowed: real) {
    if direction.HigherIsBetter? then AtLeast(delta, -allowed) else AtMost(delta, allowed)
  }

  predicate CoveragePasses(a: AggregateComparison) {
    && a.baseline.errors == 0 && a.candidate.errors == 0
    && a.baseline.scored > 0 && a.baseline.scored == a.candidate.scored
    && a.baseline.skipped == a.candidate.skipped
  }

  function Minus(candidate: Option<real>, baseline: Option<real>): Option<real> {
    if baseline.None? || candidate.None? then None else Some(candidate.value - baseline.value)
  }

  function CompareCase(c: EvaluationCase, g: Gate, baseline: Score, candidate: Score): CaseComparison {
    if !(baseline.Scored? && candidate.Scored?) then
      CaseComparison(g.metric, g.slice, c.caseId, c.slices, baseline, candidate, None, None, None, Incomparable)
    else
      var was := Passes(baseline.value, g.direction, g.threshold);
      var now := Passes(candidate.value, g.direction, g.threshold);
      var change := if was then (if now then UnchangedPassing else NewlyFailing)
                    else if now then NewlyPassing else UnchangedFailing;
      CaseComparison(g.metric, g.slice, c.caseId, c.slices, baseline, candidate,
                     Some(candidate.value - baseline.value), Some(was), Some(now), change)
  }

  function GateResultOf(g: Gate, a: AggregateComparison): GateResult {
    var coverage := CoveragePasses(a);
    var threshold := a.candidate.mean.Some? && Passes(a.candidate.mean.value, g.direction, g.threshold);
    var regression := a.delta.Some? && RegressionPasses(a.delta.value, g.direction, g.allowedRegression);
    var codes := (if coverage then [] else [CoverageFailure])
                 + (if threshold then [] else [ThresholdFailure])
                 + (if regression then [] else [RegressionFailure]);
    GateResult(g, a, coverage, threshold, regression, codes == [], codes)
  }

  // ---------------------------------------------------------------- the compared inputs

  datatype Inputs = Inputs(dataset: Dataset, baseline: RunResult, candidate: RunResult)

  predicate Aligned(x: Inputs) {
    SameCases(x.dataset.cases, x.baseline.cases) && SameCases(x.dataset.cases, x.candidate.cases)
  }

  predicate RefMatches(expected: Ref, actual: Ref) {
    LogicalKey(expected) == LogicalKey(actual) && (expected.digest.None? || expected.digest == actual.digest)
  }

  function MetricNames(run: RunResult): (names: seq<string>)
    ensures |names| == |run.metrics|
    ensures forall i :: 0 <= i < |names| ==> names[i] == run.metrics[i].metric
  {
    seq(|run.metrics|, i requires 0 <= i < |run.metrics| => run.metrics[i].metric)
  }

  function MetricSet(run: RunResult): set<string> {
    set i | 0 <= i < |run.metrics| :: run.metrics[i].metric
  }

  function EvaluatorOf(metrics: seq<Summary>, metric: string): Ref
    requires exists i :: 0 <= i < |metrics| && metrics[i].metric == metric
    decreases |metrics|
  {
    if metrics[0].metric == metric then metrics[0].evaluator
    else
      assert exists i :: 0 <= i < |metrics[1..]| && metrics[1..][i].metric == metric by {
        var i :| 0 <= i < |metrics| && metrics[i].metric == metric;
        assert metrics[1..][i - 1].metric == metric;
      }
      EvaluatorOf(metrics[1..], metric)
  }

  /** Checks made before anything is computed, in their order; None accepts. */
  function InputError(spec: Spec, x: Inputs): Option<ConfigurationError> {
    if spec.baseline.None? then Some(BaselineMissing)
    else if x.baseline.mode != x.candidate.mode then Some(ModesDiffer)
    else if x.baseline.dataset != x.dataset.ref || x.candidate.dataset != x.dataset.ref then Some(DatasetMismatch)
    else if !(&& RefMatches(spec.dataset, x.dataset.ref)
              && RefMatches(spec.baseline.value, x.baseline.target)
              && RefMatches(spec.candidate, x.candidate.target)) then Some(PolicyMismatch)
    else if !Aligned(x) then Some(CasesMismatch)
    else if !(Unique(MetricNames(x.baseline)) && Unique(MetricNames(x.candidate))) then Some(MetricsRepeat)
    else if MetricSet(x.baseline) != MetricSet(x.candidate) then Some(MetricsDiffer)
    else None
  }

  function TextKeys(names: set<string>): set<Key> {
    set s | s in names :: [Text(s)]
  }

  function KeyTexts(keys: seq<Key>): (r: seq<string>)
    requires forall k: Key :: k in keys ==> |k| == 1 && k[0].Text?
    ensures |r| == |keys| && forall i :: 0 <= i < |r| ==> r[i] == keys[i][0].s
  {
    seq(|keys|, i requires 0 <= i < |keys| => assert keys[i] in keys; keys[i][0].s)
  }

  /** The names in ascending order. */
  function SortedTexts(names: set<string>): (r: seq<string>)
    ensures forall s :: s in r <==> s in names
  {
    var keys := SortedKeys(TextKeys(names));
    var r := KeyTexts(keys);
    assert forall s :: s in r <==> s in names by {
      forall s
        ensures s in r <==> s in names
      {
        if s in names {
          assert [Text(s)] in TextKeys(names);
          var i :| 0 <= i < |keys| && keys[i] == [Text(s)];
          assert r[i] == s;
        }
        if s in r {
          var i :| 0 <= i < |r| && r[i] == s;
          assert keys[i] in keys;
        }
      }
    }
    r
  }

  function Labels(cases: seq<EvaluationCase>): set<string> {
    set i, s | 0 <= i < |cases| && s in cases[i].slices :: s
  }

  function SliceOptions(labels: seq<string>): (r: seq<Option<string>>)
    ensures |r| == |labels| + 1 && r[0] == None
    ensures forall i :: 0 <= i < |labels| ==> r[i + 1] == Some(labels[i])
  {
    [None] + seq(|labels|, i requires 0 <= i < |labels| => Some(labels[i]))
  }

  /** Every scope an aggregate is computed for: the whole dataset, then each of its slices. */
  function Slices(d: Dataset): seq<Option<string>> {
    SliceOptions(SortedTexts(Labels(d.cases)))
  }

  predicate KnownSlice(d: Dataset, slice: Option<string>) {
    slice.None? || slice.value in Labels(d.cases)
  }

  lemma SlicesKnown(d: Dataset, slice: Option<string>)
    ensures slice in Slices(d) <==> KnownSlice(d, slice)
  {
    var labels := SortedTexts(Labels(d.cases));
    var r := Slices(d);
    if slice.Some? && slice.value in labels {
      var i :| 0 <= i < |labels| && labels[i] == slice.value;
      assert r[i + 1] == slice;
    }
    if slice.Some? && slice in r {
      var i :| 0 <= i < |r| && r[i] == slice;
      assert r[i] == Some(labels[i - 1]);
    }
    assert r[0] == None;
  }

  /** Selecting cases never comes up empty for a scope of the dataset. */
  lemma KnownScopeNotEmpty(d: Dataset, slice: Option<string>)
    requires ValidDataset(d) && KnownSlice(d, slice)
    ensures InScope(d.cases, slice) != []
  {
    if slice.None? {
      WholeScope(d.cases);
    } else {
      var i :| 0 <= i < |d.cases| && slice.value in d.cases[i].slices;
      assert d.cases[i] in InScope(d.cases, slice);
    }
  }

  function ScopeTally(x: Inputs, results: seq<CaseResult>, metric: string, slice: Option<string>): Aggregate
    requires SameCases(x.dataset.cases, results)
  {
    ScopePresent(x.dataset.cases, slice, results);
    Tally(ScopedValues(InScope(x.dataset.cases, slice), results, metric))
  }

  function AggregateFor(x: Inputs, evaluator: Ref, metric: string, slice: Option<string>): AggregateComparison
    requires Aligned(x)
  {
    var b := ScopeTally(x, x.baseline.cases, metric, slice);
    var c := ScopeTally(x, x.candidate.cases, metric, slice);
    AggregateComparison(metric, slice, evaluator, b, c, Minus(c.mean, b.mean))
  }

  predicate Measures(run: RunResult, metric: string) {
    exists i :: 0 <= i < |run.metrics| && run.metrics[i].metric == metric
  }

  predicate AllMeasured(run: RunResult, metrics: seq<string>) {
    forall i :: 0 <= i < |metrics| ==> Measures(run, metrics[i])
  }

  function MetricAggregates(x: Inputs, metric: string, slices: seq<Option<string>>): (r: seq<AggregateComparison>)
    requires Aligned(x) && Measures(x.baseline, metric)
    ensures |r| == |slices|
    ensures forall i :: 0 <= i < |r| ==>
      r[i] == AggregateFor(x, EvaluatorOf(x.baseline.metrics, metric), metric, slices[i])
  {
    seq(|slices|, i requires 0 <= i < |slices| =>
      AggregateFor(x, EvaluatorOf(x.baseline.metrics, metric), metric, slices[i]))
  }

  function Aggregates(x: Inputs, metrics: seq<string>, slices: seq<Option<string>>): seq<AggregateComparison>
    requires Aligned(x) && AllMeasured(x.baseline, metrics)
    decreases |metrics|
  {
    if metrics == [] then []
    else
      var n := |metrics| - 1;
      Aggregates(x, metrics[..n], slices) + MetricAggregates(x, metrics[n], slices)
  }

  /** The aggregate recorded for a metric and scope, if any. */
  function Lookup(aggregates: seq<AggregateComparison>, metric: string, slice: Option<string>)
    : Option<AggregateComparison>
    decreases |aggregates|
  {
    if aggregates == [] then None
    else
      var last := aggregates[|aggregates| - 1];
      if last.metric == metric && last.slice == slice then Some(last)
      else Lookup(aggregates[..|aggregates| - 1], metric, slice)
  }

  predicate StoredMatch(metrics: seq<Summary>, aggregates: seq<AggregateComparison>, candidate: bool) {
    forall i :: 0 <= i < |metrics| ==>
      var a := Lookup(aggregates, metrics[i].metric, None);
      a.Some? && metrics[i].tally == if candidate then a.value.candidate else a.value.baseline
  }

  function GateCases(x: Inputs, g: Gate): (r: seq<CaseComparison>)
    requires Aligned(x)
    ensures |r| == |InScope(x.dataset.cases, g.slice)|
  {
    var selected := InScope(x.dataset.cases, g.slice);
    ScopePresent(x.dataset.cases, g.slice, x.baseline.cases);
    ScopePresent(x.dataset.cases, g.slice, x.candidate.cases);
    var b := ScopedValues(selected, x.baseline.cases, g.metric);
    var c := ScopedValues(selected, x.candidate.cases, g.metric);
    seq(|selected|, i requires 0 <= i < |selected| => CompareCase(selected[i], g, b[i], c[i]))
  }

  predicate GatesKnown(gates: seq<Gate>, aggregates: seq<AggregateComparison>) {
    forall i :: 0 <= i < |gates| ==> Lookup(aggregates, gates[i].metric, gates[i].slice).Some?
  }

  function GateResults(gates: seq<Gate>, aggregates: seq<AggregateComparison>): (r: seq<GateResult>)
    requires GatesKnown(gates, aggregates)
    ensures |r| == |gates|
  {
    seq(|gates|, i requires 0 <= i < |gates| =>
      GateResultOf(gates[i], Lookup(aggregates, gates[i].metric, gates[i].slice).value))
  }

  function AllGateCases(x: Inputs, gates: seq<Gate>): seq<CaseComparison>
    requires Aligned(x)
    decreases |gates|
  {
    if gates == [] then []
    else
      var n := |gates| - 1;
      AllGateCases(x, gates[..n]) + GateCases(x, gates[n])
  }

  function SliceText(slice: Option<string>): string {
    if slice.None? then "" else slice.value
  }

  function AggregateKey(a: AggregateComparison): Key {
    [Text(a.metric), Text(SliceText(a.slice))]
  }

  function GateKey(g: GateResult): Key {
    [Text(g.gate.metric), Text(SliceText(g.gate.slice))]
  }

  function ComparisonKey(c: CaseComparison): Key {
    [Text(c.metric), Text(SliceText(c.slice)), Text(c.caseId)]
  }

  predicate AllPassed(gates: seq<GateResult>) {
    forall i :: 0 <= i < |gates| ==> gates[i].passed
  }

  function Decided(spec: Spec, x: Inputs, aggregates: seq<AggregateComparison>, gates: seq<GateResult>,
                   cases: seq<CaseComparison>): Decision
  {
    Decision(spec.name, x.dataset.ref, x.baseline.target, x.candidate.target, x.baseline.runId, x.candidate.runId,
             SortBy(aggregates, AggregateKey), SortBy(gates, GateKey), SortBy(cases, ComparisonKey),
             x.baseline.mode, AllPassed(SortBy(gates, GateKey)))
  }

  predicate SameEvaluators(x: Inputs, metrics: seq<string>) {
    forall i :: 0 <= i < |metrics| ==>
      && Measures(x.baseline, metrics[i]) && Measures(x.candidate, metrics[i])
      && EvaluatorOf(x.baseline.metrics, metrics[i]) == EvaluatorOf(x.candidate.metrics, metrics[i])
  }

  lemma SortedMeasured(x: Inputs)
    requires MetricSet(x.baseline) == MetricSet(x.candidate)
    ensures AllMeasured(x.baseline, SortedTexts(MetricSet(x.baseline)))
    ensures AllMeasured(x.candidate, SortedTexts(MetricSet(x.baseline)))
  {
    var metrics := SortedTexts(MetricSet(x.baseline));
    forall i | 0 <= i < |metrics|
      ensures Measures(x.baseline, metrics[i]) && Measures(x.candidate, metrics[i])
    {
      assert metrics[i] in metrics;
      assert metrics[i] in MetricSet(x.candidate);
    }
  }

  /** The release decision as a function of its inputs. */
  function Compare(spec: Spec, x: Inputs): Result<Decision, ConfigurationError> {
    var refused := InputError(spec, x);
    if refused.Some? then Err(refused.value)
    else
      var metrics := SortedTexts(MetricSet(x.baseline));
      SortedMeasured(x);
      if !SameEvaluators(x, metrics) then Err(EvaluatorsDiffer)
      else
        var aggregates := Aggregates(x, metrics, Slices(x.dataset));
        if !(StoredMatch(x.baseline.metrics, aggregates, false) && StoredMatch(x.candidate.metrics, aggregates, true))
        then Err(SummariesMismatch)
        else if !GatesKnown(spec.gates, aggregates) then Err(GateUnknown)
        else Ok(Decided(spec, x, aggregates, GateResults(spec.gates, aggregates), AllGateCases(x, spec.gates)))
  }

  // ---------------------------------------------------------------- the algorithm

  method ValidateStoredSummaries(metrics: seq<Summary>, aggregates: seq<AggregateComparison>, candidate: bool)
    returns (matches: bool)
    ensures matches <==> StoredMatch(metrics, aggregates, candidate)
  {
    matches := true;
    var i := 0;
    while i < |metrics| && matches
      invariant 0 <= i <= |metrics|
      invariant matches ==> StoredMatch(metrics[..i], aggregates, candidate)
      invariant !matches ==> !StoredMatch(metrics, aggregates, candidate)
      decreases |metrics| - i, matches
    {
      var a := Lookup(aggregates, metrics[i].metric, None);
      if a.None? || metrics[i].tally != (if candidate then a.value.candidate else a.value.baseline) {
        matches := false;
      } else {
        i := i + 1;
      }
    }
    assert metrics[..|metrics|] == metrics;
  }

  method CompareGateCases(x: Inputs, g: Gate) returns (cases: seq<CaseComparison>)
    requires Aligned(x)
    ensures cases == GateCases(x, g)
  {
    var selected := InScope(x.dataset.cases, g.slice);
    ScopePresent(x.dataset.cases, g.slice, x.baseline.cases);
    ScopePresent(x.dataset.cases, g.slice, x.candidate.cases);
    cases := [];
    var i := 0;
    while i < |selected|
      invariant 0 <= i <= |selected|
      invariant cases == GateCases(x, g)[..i]
    {
      var b := CaseValue(Find(x.baseline.cases, selected[i].caseId), g.metric);
      var c := CaseValue(Find(x.candidate.cases, selected[i].caseId), g.metric);
      cases := cases + [CompareCase(selected[i], g, b, c)];
      i := i + 1;
    }
  }

  method AggregateScope(x: Inputs, evaluator: Ref, metric: string, slice: Option<string>)
    returns (a: AggregateComparison)
    requires Aligned(x)
    ensures a == AggregateFor(x, evaluator, metric, slice)
  {
    hide Tally, InScope, SameCases;
    var selected := InScope(x.dataset.cases, slice);
    ScopePresent(x.dataset.cases, slice, x.baseline.cases);
    ScopePresent(x.dataset.cases, slice, x.candidate.cases);
    var b := AggregateCases(selected, x.baseline.cases, metric);
    var c := AggregateCases(selected, x.candidate.cases, metric);
    var delta := if b.mean.None? || c.mean.None? then None else Some(c.mean.value - b.mean.value);
    a := AggregateComparison(metric, slice, evaluator, b, c, delta);
  }

  method AggregateMetric(x: Inputs, metric: string, slices: seq<Option<string>>)
    returns (r: seq<AggregateComparison>)
    requires Aligned(x) && Measures(x.baseline, metric)
    ensures r == MetricAggregates(x, metric, slices)
  {
    hide AggregateFor, SameCases;
    r := [];
    var evaluator, i := EvaluatorOf(x.baseline.metrics, metric), 0;
    while i < |slices|
      invariant 0 <= i <= |slices|
      invariant r == MetricAggregates(x, metric, slices)[..i]
    {
      var a := AggregateScope(x, evaluator, metric, slices[i]);
      r := r + [a];
      i := i + 1;
    }
  }

  /** Aggregates of every metric and scope, unless the two runs name different evaluators. */
  method AggregateAll(x: Inputs, metrics: seq<string>, slices: seq<Option<string>>)
    returns (r: Option<seq<AggregateComparison>>)
    requires Aligned(x) && AllMeasured(x.baseline, metrics) && AllMeasured(x.candidate, metrics)
    ensures r == if SameEvaluators(x, metrics) then Some(Aggregates(x, metrics, slices)) else None
  {
    hide MetricAggregates, SameCases;
    var aggregates: seq<AggregateComparison>, i := [], 0;
    while i < |metrics|
      invariant 0 <= i <= |metrics|
      invariant aggregates == Aggregates(x, metrics[..i], slices)
      invariant SameEvaluators(x, metrics[..i])
    {
      assert metrics[..i + 1][..i] == metrics[..i];
      if EvaluatorOf(x.baseline.metrics, metrics[i]) != EvaluatorOf(x.candidate.metrics, metrics[i]) {
        return None;
      }
      var more := AggregateMetric(x, metrics[i], slices);
      aggregates := aggregates + more;
      i := i + 1;
    }
    assert metrics[..i] == metrics;
    r := Some(aggregates);
  }

  method ApplyGate(g: Gate, a: AggregateComparison) returns (r: GateResult)
    ensures r == GateResultOf(g, a)
  {
    var coverage := CoveragePasses(a);
    var threshold := a.candidate.mean.Some? && Passes(a.candidate.mean.value, g.direction, g.threshold);
    var regression := a.delta.Some? && RegressionPasses(a.delta.value, g.direction, g.allowedRegression);
    var codes: seq<GateFailure> := [];
    if !coverage {
      codes := codes + [CoverageFailure];
    }
    if !threshold {
      codes := codes + [ThresholdFailure];
    }
    if !regression {
      codes := codes + [RegressionFailure];
    }
    r := GateResult(g, a, coverage, threshold, regression, codes == [], codes);
  }

  lemma GatesSnoc(gates: seq<Gate>, i: int, aggregates: seq<AggregateComparison>)
    requires 0 <= i < |gates| && GatesKnown(gates[..i], aggregates)
    ensures GatesKnown(gates[..i + 1], aggregates) <==> Lookup(aggregates, gates[i].metric, gates[i].slice).Some?
    ensures GatesKnown(gates[..i + 1], aggregates) ==>
              GateResults(gates[..i + 1], aggregates) == GateResults(gates[..i], aggregates)
                + [GateResultOf(gates[i], Lookup(aggregates, gates[i].metric, gates[i].slice).value)]
  {
    hide GateResultOf, Lookup;
    assert forall j :: 0 <= j < i ==> gates[..i + 1][j] == gates[..i][j];
  }

  method ApplyGates(spec: Spec, x: Inputs, aggregates: seq<AggregateComparison>)
    returns (r: Result<Decision, ConfigurationError>)
    requires Aligned(x)
    ensures
      r == if GatesKnown(spec.gates, aggregates)
           then Ok(Decided(spec, x, aggregates, GateResults(spec.gates, aggregates), AllGateCases(x, spec.gates)))
           else Err(GateUnknown)
  {
    hide GateResultOf, Lookup, GateCases, GateResults, Decided, SameCases;
    var results: seq<GateResult>, cases: seq<CaseComparison>, i := [], [], 0;
    NoGates(aggregates);
    while i < |spec.gates|
      invariant 0 <= i <= |spec.gates|
      invariant GatesKnown(spec.gates[..i], aggregates)
      invariant results == GateResults(spec.gates[..i], aggregates)
      invariant cases == AllGateCases(x, spec.gates[..i])
    {
      assert spec.gates[..i + 1][..i] == spec.gates[..i];
      GatesSnoc(spec.gates, i, aggregates);
      var g := spec.gates[i];
      var a := Lookup(aggregates, g.metric, g.slice);
      if a.None? {
        return Err(GateUnknown);
      }
      var result := ApplyGate(g, a.value);
      results := results + [result];
      var compared := CompareGateCases(x, g);
      cases := cases + compared;
      i := i + 1;
    }
    assert spec.gates[..i] == spec.gates;
    r := Ok(Decided(spec, x, aggregates, results, cases));
  }

  lemma NoGates(aggregates: seq<AggregateComparison>)
    ensures GatesKnown([], aggregates) && GateResults([], aggregates) == []
  {
  }

  /** Compares two runs and applies every gate. */
  method CompareRuns(spec: Spec, x: Inputs) returns (r: Result<Decision, ConfigurationError>)
    ensures r == Compare(spec, x)
  {
    hide Aggregates, StoredMatch, GatesKnown, Decided, SameEvaluators, SortedTexts, Slices, SameCases, GateResults,
      AllGateCases, MetricSet, AllMeasured, RefMatches;
    var refused := InputError(spec, x);
    if refused.Some? {
      return Err(refused.value);
    }
    SortedMeasured(x);
    var aggregates := AggregateAll(x, SortedTexts(MetricSet(x.baseline)), Slices(x.dataset));
    if aggregates.None? {
      return Err(EvaluatorsDiffer);
    }
    var baselineMatches := ValidateStoredSummaries(x.baseline.metrics, aggregates.value, false);
    var candidateMatches := ValidateStoredSummaries(x.candidate.metrics, aggregates.value, true);
    if !baselineMatches || !candidateMatches {
      return Err(SummariesMismatch);
    }
    r := ApplyGates(spec, x, aggregates.value);
  }
}
