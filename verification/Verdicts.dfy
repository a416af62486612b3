/** What a release decision says, in terms of the stored evidence of the two runs: counts of cases,
    totals of values and plain inequalities, without the functions that compute it. */
module Verdicts {
  import opened Common
  import opened Ordering
  import opened Evaluation
  import opened Comparison
  import opened Decisions
  import opened Duality
  import R = Runner
  import Readings

  // ---------------------------------------------------------------- reading one case

  predicate FirstOf(observations: seq<Observation>, metric: string, i: int) {
    && 0 <= i < |observations| && observations[i].metric == metric
    && forall j :: 0 <= j < i ==> observations[j].metric != metric
  }

  /** A stored case says this of a metric: its first observation of it, and an error when the target
      failed or nothing was observed. */
  ghost predicate Reads(c: CaseResult, metric: string, score: Score) {
    if c.status == TargetFailed || !Readings.Names(c.observations, metric) then score == Errored
    else exists i :: FirstOf(c.observations, metric, i) && score == c.observations[i].score
  }

  lemma FirstInRange(observations: seq<Observation>, metric: string, i: int)
    requires FirstOf(observations, metric, i)
    ensures 0 <= i < |observations|
  {
  }

  lemma {:induction false} FirstScoreAt(observations: seq<Observation>, metric: string, i: int)
    requires FirstOf(observations, metric, i)
    ensures FirstScore(observations, metric) == observations[i].score
    decreases |observations|
  {
    if i > 0 {
      assert observations[0].metric != metric;
      FirstScoreAt(observations[1..], metric, i - 1);
    }
  }

  lemma {:induction false} FirstExists(observations: seq<Observation>, metric: string) returns (i: int)
    requires Readings.Names(observations, metric)
    ensures FirstOf(observations, metric, i)
    decreases |observations|
  {
    if observations[0].metric == metric {
      i := 0;
    } else {
      var j :| 0 <= j < |observations| && observations[j].metric == metric;
      assert observations[1..][j - 1].metric == metric;
      i := FirstExists(observations[1..], metric);
      i := i + 1;
    }
  }

  lemma ReadsIff(c: CaseResult, metric: string, score: Score)
    ensures Reads(c, metric, score) <==> CaseValue(c, metric) == score
  {
    hide FirstOf;
    if c.status != TargetFailed {
      if Readings.Names(c.observations, metric) {
        var i := FirstExists(c.observations, metric);
        FirstScoreAt(c.observations, metric, i);
        forall j | FirstOf(c.observations, metric, j)
          ensures 0 <= j < |c.observations| && c.observations[j].score == c.observations[i].score
        {
          FirstScoreAt(c.observations, metric, j);
          FirstInRange(c.observations, metric, j);
        }
      } else {
        forall o | o in c.observations
          ensures o.metric != metric
        {
        }
        R.FirstScoreAbsent(c.observations, metric);
      }
    }
  }

  /** What every case of a run says of a metric, in order. */
  ghost predicate AllRead(results: seq<CaseResult>, metric: string, values: seq<Score>) {
    |values| == |results| && forall i :: 0 <= i < |results| ==> Reads(results[i], metric, values[i])
  }

  lemma ValuesRead(results: seq<CaseResult>, metric: string)
    ensures AllRead(results, metric, CaseValues(results, metric))
  {
    hide Reads, CaseValue;
    forall i | 0 <= i < |results|
      ensures Reads(results[i], metric, CaseValues(results, metric)[i])
    {
      ReadsIff(results[i], metric, CaseValue(results[i], metric));
    }
  }

  // ---------------------------------------------------------------- counting a scope

  predicate Belongs(c: EvaluationCase, slice: Option<string>) {
    match slice
    case None => true
    case Some(name) => name in c.slices
  }

  /** The positions of a scope, and those at which the case reads one way. */
  function MembersAt(cases: seq<EvaluationCase>, slice: Option<string>): set<int> {
    set i | 0 <= i < |cases| && Belongs(cases[i], slice)
  }

  function ErrorsAt(cases: seq<EvaluationCase>, values: seq<Score>, slice: Option<string>): set<int>
    requires |values| == |cases|
  {
    set i | 0 <= i < |cases| && Belongs(cases[i], slice) && values[i] == Errored
  }

  function SkipsAt(cases: seq<EvaluationCase>, values: seq<Score>, slice: Option<string>): set<int>
    requires |values| == |cases|
  {
    set i | 0 <= i < |cases| && Belongs(cases[i], slice) && values[i] == Skipped
  }

  function ScoresAt(cases: seq<EvaluationCase>, values: seq<Score>, slice: Option<string>): set<int>
    requires |values| == |cases|
  {
    set i | 0 <= i < |cases| && Belongs(cases[i], slice) && values[i].Scored?
  }

  /** The values of a scope, in dataset order. */
  function Picked(cases: seq<EvaluationCase>, values: seq<Score>, slice: Option<string>): (r: seq<Score>)
    requires |values| == |cases|
    decreases |cases|
  {
    if cases == [] then []
    else
      var n := |cases| - 1;
      Picked(cases[..n], values[..n], slice) + (if Belongs(cases[n], slice) then [values[n]] else [])
  }

  /** The total of the values scored in a scope. */
  function TotalAt(cases: seq<EvaluationCase>, values: seq<Score>, slice: Option<string>): real
    requires |values| == |cases|
    decreases |cases|
  {
    if cases == [] then 0.0
    else
      var n := |cases| - 1;
      TotalAt(cases[..n], values[..n], slice)
      + (if Belongs(cases[n], slice) && values[n].Scored? then values[n].value else 0.0)
  }

  lemma BelongsInSlice(c: EvaluationCase, slice: Option<string>)
    ensures InSlice(c, slice) <==> Belongs(c, slice)
  {
  }

  lemma {:induction false} ScopePicked(cases: seq<EvaluationCase>, results: seq<CaseResult>, metric: string,
                                       slice: Option<string>, all: seq<CaseResult>)
    requires |results| == |cases| && Present(InScope(cases, slice), all)
    requires forall i :: 0 <= i < |cases| ==> HasCase(all, cases[i].caseId) && Find(all, cases[i].caseId) == results[i]
    ensures ScopedValues(InScope(cases, slice), all, metric) == Picked(cases, CaseValues(results, metric), slice)
    decreases |cases|
  {
    hide Find, HasCase, CaseValue, InScope, InSlice, Belongs, Present;
    if cases == [] {
      EmptyScope(slice);
    } else {
      var n := |cases| - 1;
      ScopeLast(cases, slice);
      BelongsInSlice(cases[n], slice);
      PresentPrefix(cases, slice, all);
      ScopePicked(cases[..n], results[..n], metric, slice, all);
      assert CaseValues(results, metric)[..n] == CaseValues(results[..n], metric);
    }
  }

  lemma EmptyScope(slice: Option<string>)
    ensures InScope([], slice) == []
  {
  }

  lemma PresentPrefix(cases: seq<EvaluationCase>, slice: Option<string>, all: seq<CaseResult>)
    requires cases != [] && Present(InScope(cases, slice), all)
    ensures Present(InScope(cases[..|cases| - 1], slice), all)
  {
    hide InScope, HasCase;
    var n := |cases| - 1;
    ScopeLast(cases, slice);
    var init := InScope(cases[..n], slice);
    forall i | 0 <= i < |init|
      ensures HasCase(all, init[i].caseId)
    {
      assert InScope(cases, slice)[i] == init[i];
    }
  }

  lemma CountsSnoc(values: seq<Score>, last: Score)
    ensures CountErrors(values + [last]) == CountErrors(values) + (if last == Errored then 1 else 0)
    ensures CountSkipped(values + [last]) == CountSkipped(values) + (if last == Skipped then 1 else 0)
    ensures |Scores(values + [last])| == |Scores(values)| + (if last.Scored? then 1 else 0)
  {
    assert (values + [last])[..|values|] == values;
  }

  lemma PickedLast(cases: seq<EvaluationCase>, values: seq<Score>, slice: Option<string>)
    requires cases != [] && |values| == |cases|
    ensures
      var n := |cases| - 1;
      var init := Picked(cases[..n], values[..n], slice);
      Picked(cases, values, slice) == if Belongs(cases[n], slice) then init + [values[n]] else init
  {
    hide Belongs;
  }

  lemma {:induction false} PickedMembers(cases: seq<EvaluationCase>, values: seq<Score>, slice: Option<string>)
    requires |values| == |cases|
    ensures |Picked(cases, values, slice)| == |MembersAt(cases, slice)|
    decreases |cases|
  {
    hide Belongs;
    if cases != [] {
      var n := |cases| - 1;
      PickedMembers(cases[..n], values[..n], slice);
      assert MembersAt(cases, slice) == MembersAt(cases[..n], slice) + (if Belongs(cases[n], slice) then {n} else {});
    }
  }

  lemma OneMore(init: set<int>, all: set<int>, n: int, counts: bool)
    requires n !in init && forall i :: i in all <==> i in init || (counts && i == n)
    ensures |all| == |init| + (if counts then 1 else 0)
  {
    var grown := if counts then init + {n} else init;
    forall i: int
      ensures i in all <==> i in grown
    {
      assert i in all <==> i in init || (counts && i == n);
    }
    assert all == grown;
  }

  lemma ErrorsLast(cases: seq<EvaluationCase>, values: seq<Score>, slice: Option<string>)
    requires cases != [] && |values| == |cases|
    ensures
      var n := |cases| - 1;
      |ErrorsAt(cases, values, slice)|
        == |ErrorsAt(cases[..n], values[..n], slice)| + (if Belongs(cases[n], slice) && values[n] == Errored then 1 else 0)
  {
    hide Belongs;
    var n := |cases| - 1;
    OneMore(ErrorsAt(cases[..n], values[..n], slice), ErrorsAt(cases, values, slice), n,
            Belongs(cases[n], slice) && values[n] == Errored);
  }

  lemma {:induction false} PickedErrors(cases: seq<EvaluationCase>, values: seq<Score>, slice: Option<string>)
    requires |values| == |cases|
    ensures CountErrors(Picked(cases, values, slice)) == |ErrorsAt(cases, values, slice)|
    decreases |cases|
  {
    if cases == [] {
      NothingPicked(values, slice);
    } else {
      hide Belongs, Picked, CountErrors, ErrorsAt;
      var n := |cases| - 1;
      PickedErrors(cases[..n], values[..n], slice);
      PickedLast(cases, values, slice);
      CountsSnoc(Picked(cases[..n], values[..n], slice), values[n]);
      ErrorsLast(cases, values, slice);
    }
  }

  lemma SkipsLast(cases: seq<EvaluationCase>, values: seq<Score>, slice: Option<string>)
    requires cases != [] && |values| == |cases|
    ensures
      var n := |cases| - 1;
      |SkipsAt(cases, values, slice)|
        == |SkipsAt(cases[..n], values[..n], slice)| + (if Belongs(cases[n], slice) && values[n] == Skipped then 1 else 0)
  {
    hide Belongs;
    var n := |cases| - 1;
    OneMore(SkipsAt(cases[..n], values[..n], slice), SkipsAt(cases, values, slice), n,
            Belongs(cases[n], slice) && values[n] == Skipped);
  }

  lemma {:induction false} PickedSkips(cases: seq<EvaluationCase>, values: seq<Score>, slice: Option<string>)
    requires |values| == |cases|
    ensures CountSkipped(Picked(cases, values, slice)) == |SkipsAt(cases, values, slice)|
    decreases |cases|
  {
    if cases == [] {
      NothingPicked(values, slice);
    } else {
      hide Belongs, Picked, CountSkipped, SkipsAt;
      var n := |cases| - 1;
      PickedSkips(cases[..n], values[..n], slice);
      PickedLast(cases, values, slice);
      CountsSnoc(Picked(cases[..n], values[..n], slice), values[n]);
      SkipsLast(cases, values, slice);
    }
  }

  lemma ScoresLast(cases: seq<EvaluationCase>, values: seq<Score>, slice: Option<string>)
    requires cases != [] && |values| == |cases|
    ensures
      var n := |cases| - 1;
      |ScoresAt(cases, values, slice)|
        == |ScoresAt(cases[..n], values[..n], slice)| + (if Belongs(cases[n], slice) && values[n].Scored? then 1 else 0)
  {
    hide Belongs;
    var n := |cases| - 1;
    OneMore(ScoresAt(cases[..n], values[..n], slice), ScoresAt(cases, values, slice), n,
            Belongs(cases[n], slice) && values[n].Scored?);
  }

  lemma {:induction false} PickedScores(cases: seq<EvaluationCase>, values: seq<Score>, slice: Option<string>)
    requires |values| == |cases|
    ensures |Scores(Picked(cases, values, slice))| == |ScoresAt(cases, values, slice)|
    decreases |cases|
  {
    if cases == [] {
      NothingPicked(values, slice);
    } else {
      hide Belongs, Picked, Scores, ScoresAt;
      var n := |cases| - 1;
      PickedScores(cases[..n], values[..n], slice);
      PickedLast(cases, values, slice);
      CountsSnoc(Picked(cases[..n], values[..n], slice), values[n]);
      ScoresLast(cases, values, slice);
    }
  }

  lemma NothingPicked(values: seq<Score>, slice: Option<string>)
    requires values == []
    ensures var picked := Picked([], values, slice); picked == []
    ensures CountErrors([]) == 0 && CountSkipped([]) == 0 && Scores([]) == []
  {
  }

  lemma ScoresOfOne(values: seq<Score>, last: Score)
    ensures Sum(Scores(values + [last])) == Sum(Scores(values)) + (if last.Scored? then last.value else 0.0)
  {
    var all := values + [last];
    assert all[..|values|] == values;
    if last.Scored? {
      Readings.SumLast(Scores(values), last.value);
    } else {
      assert Scores(all) == Scores(values);
    }
  }

  lemma {:induction false} PickedTotal(cases: seq<EvaluationCase>, values: seq<Score>, slice: Option<string>)
    requires |values| == |cases|
    ensures Sum(Scores(Picked(cases, values, slice))) == TotalAt(cases, values, slice)
    decreases |cases|
  {
    hide Belongs, Sum, Scores;
    if cases == [] {
      NothingScored();
    } else {
      var n := |cases| - 1;
      PickedTotal(cases[..n], values[..n], slice);
      if Belongs(cases[n], slice) {
        ScoresOfOne(Picked(cases[..n], values[..n], slice), values[n]);
      } else {
        assert Picked(cases, values, slice) == Picked(cases[..n], values[..n], slice);
      }
    }
  }

  lemma NothingScored()
    ensures Sum(Scores([])) == 0.0
  {
  }

  /** An aggregate counts the cases of a scope by what they read, and its mean is the total of the
      values scored over their number. */
  predicate Counted(a: Aggregate, cases: seq<EvaluationCase>, values: seq<Score>, slice: Option<string>) {
    && |values| == |cases|
    && a.attempted == |MembersAt(cases, slice)|
    && a.errors == |ErrorsAt(cases, values, slice)|
    && a.skipped == |SkipsAt(cases, values, slice)|
    && a.scored == |ScoresAt(cases, values, slice)|
    && match a.mean
       case None => a.scored == 0
       case Some(mean) => a.scored > 0 && mean == TotalAt(cases, values, slice) / a.scored as real
  }

  lemma PickedCounted(cases: seq<EvaluationCase>, values: seq<Score>, slice: Option<string>)
    requires |values| == |cases|
    ensures Counted(Tally(Picked(cases, values, slice)), cases, values, slice)
  {
    hide Picked, MembersAt, ErrorsAt, SkipsAt, ScoresAt, TotalAt, Scores, CountErrors, CountSkipped, Sum;
    PickedMembers(cases, values, slice);
    PickedErrors(cases, values, slice);
    PickedSkips(cases, values, slice);
    PickedScores(cases, values, slice);
    PickedTotal(cases, values, slice);
  }

  lemma FoundInOrder(d: Dataset, results: seq<CaseResult>, i: int)
    requires ValidDataset(d) && SameCases(d.cases, results) && 0 <= i < |d.cases|
    ensures HasCase(results, d.cases[i].caseId) && Find(results, d.cases[i].caseId) == results[i]
  {
    forall j | 0 <= j < i
      ensures results[j].caseId != results[i].caseId
    {
      TextTotal(d.cases[j].caseId, d.cases[i].caseId);
    }
    FindAt(results, i);
  }

  lemma ScopedIsPicked(d: Dataset, results: seq<CaseResult>, metric: string, slice: Option<string>)
    requires ValidDataset(d) && SameCases(d.cases, results)
    ensures Present(InScope(d.cases, slice), results)
    ensures ScopedValues(InScope(d.cases, slice), results, metric)
         == Picked(d.cases, CaseValues(results, metric), slice)
  {
    hide SameCases, ValidDataset, Find, HasCase, InScope, Present, CaseValue;
    ScopePresent(d.cases, slice, results);
    SameLength(d, results);
    forall i | 0 <= i < |d.cases|
      ensures HasCase(results, d.cases[i].caseId) && Find(results, d.cases[i].caseId) == results[i]
    {
      FoundInOrder(d, results, i);
    }
    ScopePicked(d.cases, results, metric, slice, results);
  }

  lemma SameLength(d: Dataset, results: seq<CaseResult>)
    requires SameCases(d.cases, results)
    ensures |results| == |d.cases|
  {
  }

  /** The recomputed aggregate of a metric over a scope of a run, from the evidence. */
  lemma ScopeCounted(x: Inputs, results: seq<CaseResult>, metric: string, slice: Option<string>)
    requires ValidDataset(x.dataset) && SameCases(x.dataset.cases, results)
    ensures AllRead(results, metric, CaseValues(results, metric))
    ensures Counted(ScopeTally(x, results, metric, slice), x.dataset.cases, CaseValues(results, metric), slice)
  {
    hide ValidDataset, SameCases, AllRead, Counted, Tally, InScope, Picked, CaseValues, Find;
    ValuesRead(results, metric);
    ScopedIsPicked(x.dataset, results, metric, slice);
    SameLength(x.dataset, results);
    PickedCounted(x.dataset.cases, CaseValues(results, metric), slice);
  }

  // ---------------------------------------------------------------- aggregates of a decision

  predicate Difference(delta: Option<real>, candidate: Option<real>, baseline: Option<real>) {
    match delta
    case None => candidate.None? || baseline.None?
    case Some(change) => candidate.Some? && baseline.Some? && change == candidate.value - baseline.value
  }

  /** An aggregate says of each run what its evidence says, and its delta is candidate less baseline. */
  ghost predicate FromEvidence(x: Inputs, a: AggregateComparison) {
    && Difference(a.delta, a.candidate.mean, a.baseline.mean)
    && (exists b :: AllRead(x.baseline.cases, a.metric, b) && Counted(a.baseline, x.dataset.cases, b, a.slice))
    && (exists c :: AllRead(x.candidate.cases, a.metric, c) && Counted(a.candidate, x.dataset.cases, c, a.slice))
  }

  /** Both runs stored a summary of the metric under this evaluator. */
  predicate StoredUnder(run: RunResult, metric: string, evaluator: Ref) {
    exists i :: 0 <= i < |run.metrics| && run.metrics[i].metric == metric && run.metrics[i].evaluator == evaluator
  }

  lemma {:induction false} EvaluatorStored(metrics: seq<Summary>, metric: string) returns (i: int)
    requires exists i :: 0 <= i < |metrics| && metrics[i].metric == metric
    ensures 0 <= i < |metrics| && metrics[i].metric == metric && metrics[i].evaluator == EvaluatorOf(metrics, metric)
    decreases |metrics|
  {
    if metrics[0].metric == metric {
      i := 0;
    } else {
      var j :| 0 <= j < |metrics| && metrics[j].metric == metric;
      assert metrics[1..][j - 1].metric == metric;
      i := EvaluatorStored(metrics[1..], metric);
      i := i + 1;
    }
  }

  lemma AggregateEvidence(x: Inputs, evaluator: Ref, metric: string, slice: Option<string>)
    requires ValidDataset(x.dataset) && Aligned(x)
    ensures FromEvidence(x, AggregateFor(x, evaluator, metric, slice))
  {
    hide ValidDataset, SameCases, AllRead, Counted, ScopeTally, CaseValues;
    ScopeCounted(x, x.baseline.cases, metric, slice);
    ScopeCounted(x, x.candidate.cases, metric, slice);
  }

  lemma DecidedEvaluators(spec: Spec, x: Inputs, metric: string)
    requires Compare(spec, x).Ok? && metric in SortedTexts(Comparison.MetricSet(x.baseline))
    ensures Measures(x.baseline, metric)
    ensures StoredUnder(x.baseline, metric, EvaluatorOf(x.baseline.metrics, metric))
    ensures StoredUnder(x.candidate, metric, EvaluatorOf(x.baseline.metrics, metric))
  {
    hide SortedTexts, Aggregates, StoredMatch, GatesKnown, Decided, GateResults, AllGateCases, SameCases, InputError;
    var metrics := SortedTexts(Comparison.MetricSet(x.baseline));
    assert SameEvaluators(x, metrics);
    var k :| 0 <= k < |metrics| && metrics[k] == metric;
    var i := EvaluatorStored(x.baseline.metrics, metric);
    var j := EvaluatorStored(x.candidate.metrics, metric);
  }

  /** Each aggregate of a decision belongs to a metric both runs stored, under the evaluator both
      stored it under, and to a scope of the dataset; and it says what the evidence says. */
  lemma DecisionAggregate(spec: Spec, x: Inputs, a: AggregateComparison)
    requires ValidDataset(x.dataset) && Compare(spec, x).Ok? && a in Compare(spec, x).value.aggregates
    ensures StoredUnder(x.baseline, a.metric, a.evaluator) && StoredUnder(x.candidate, a.metric, a.evaluator)
    ensures a.slice.Some? ==> exists i :: 0 <= i < |x.dataset.cases| && a.slice.value in x.dataset.cases[i].slices
    ensures FromEvidence(x, a)
  {
    hide Compare, Aligned, ValidDataset, Aggregates, AggregateFor, Comparison.MetricSet, SortedTexts, Slices,
      AllMeasured, StoredUnder, FromEvidence;
    DecisionParts(spec, x);
    var metrics, slices := SortedTexts(Comparison.MetricSet(x.baseline)), Slices(x.dataset);
    DecidedAggregates(spec, x, Aggregates(x, metrics, slices));
    AggregateSource(x, metrics, slices, a);
    SlicesKnown(x.dataset, a.slice);
    DecidedEvaluators(spec, x, a.metric);
    ForEvaluator(x, EvaluatorOf(x.baseline.metrics, a.metric), a.metric, a.slice);
    AggregateEvidence(x, EvaluatorOf(x.baseline.metrics, a.metric), a.metric, a.slice);
  }

  lemma ForEvaluator(x: Inputs, evaluator: Ref, metric: string, slice: Option<string>)
    requires Aligned(x)
    ensures
      var a := AggregateFor(x, evaluator, metric, slice);
      a.metric == metric && a.slice == slice && a.evaluator == evaluator
  {
  }

  lemma DecidedAggregates(spec: Spec, x: Inputs, aggregates: seq<AggregateComparison>)
    requires Compare(spec, x).Ok? && Aligned(x)
    requires AllMeasured(x.baseline, SortedTexts(Comparison.MetricSet(x.baseline)))
    requires aggregates == Aggregates(x, SortedTexts(Comparison.MetricSet(x.baseline)), Slices(x.dataset))
    ensures forall a :: a in Compare(spec, x).value.aggregates <==> a in aggregates
  {
    hide Compare, Aligned, Aggregates, Comparison.MetricSet, SortedTexts, Slices, AllMeasured;
    DecisionParts(spec, x);
    SortMembers(aggregates, AggregateKey);
  }

  /** A decision has an aggregate for every metric a run stored and every scope of the dataset. */
  lemma DecisionCoversScopes(spec: Spec, x: Inputs, i: int, slice: Option<string>)
    requires Compare(spec, x).Ok? && 0 <= i < |x.baseline.metrics|
    requires slice.None? || exists j :: 0 <= j < |x.dataset.cases| && slice.value in x.dataset.cases[j].slices
    ensures exists a :: && a in Compare(spec, x).value.aggregates
                        && a.metric == x.baseline.metrics[i].metric && a.slice == slice
  {
    hide Compare, Aligned, Aggregates, AggregateFor, SortedTexts, Slices, AllMeasured;
    DecisionParts(spec, x);
    var metrics, slices := SortedTexts(Comparison.MetricSet(x.baseline)), Slices(x.dataset);
    var metric := x.baseline.metrics[i].metric;
    assert metric in Comparison.MetricSet(x.baseline);
    DecidedAggregates(spec, x, Aggregates(x, metrics, slices));
    SlicesKnown(x.dataset, slice);
    AggregateListed(x, metrics, slices, metric, slice);
    ForEvaluator(x, EvaluatorOf(x.baseline.metrics, metric), metric, slice);
  }

  // ---------------------------------------------------------------- the verdict of a gate

  /** Nothing errored on either side, something was scored, and as much on one side as on the other. */
  predicate Covered(a: AggregateComparison) {
    && a.baseline.errors == 0 && a.candidate.errors == 0
    && a.baseline.scored > 0 && a.baseline.scored == a.candidate.scored
    && a.baseline.skipped == a.candidate.skipped
  }

  predicate MeanMeets(h: GateResult) {
    match h.aggregate.candidate.mean
    case None => false
    case Some(mean) => Meets(mean, h.gate.direction, h.gate.threshold)
  }

  predicate ChangeTolerated(h: GateResult) {
    match h.aggregate.delta
    case None => false
    case Some(change) => Tolerated(change, h.gate.direction, h.gate.allowedRegression)
  }

  /** A gate's three checks, its verdict and its failure codes, by counts and inequalities. */
  predicate Judged(h: GateResult) {
    && (h.coveragePassed <==> Covered(h.aggregate))
    && (h.thresholdPassed <==> MeanMeets(h))
    && (h.regressionPassed <==> ChangeTolerated(h))
    && (h.passed <==> Covered(h.aggregate) && MeanMeets(h) && ChangeTolerated(h))
    && (CoverageFailure in h.failureCodes <==> !Covered(h.aggregate))
    && (ThresholdFailure in h.failureCodes <==> !MeanMeets(h))
    && (RegressionFailure in h.failureCodes <==> !ChangeTolerated(h))
    && forall i, j :: 0 <= i < j < |h.failureCodes| ==>
         || (h.failureCodes[i] == CoverageFailure && h.failureCodes[j] != CoverageFailure)
         || (h.failureCodes[i] == ThresholdFailure && h.failureCodes[j] == RegressionFailure)
  }

  lemma GateJudged(g: Gate, a: AggregateComparison)
    ensures Judged(GateResultOf(g, a))
  {
    hide Passes, RegressionPasses, Meets, Tolerated;
    if a.candidate.mean.Some? {
      PassesMeets(a.candidate.mean.value, g.direction, g.threshold);
    }
    if a.delta.Some? {
      PassesMeets(a.delta.value, g.direction, g.allowedRegression);
    }
  }

  lemma DecidedGates(spec: Spec, x: Inputs)
    requires Compare(spec, x).Ok?
    ensures Aligned(x) && AllMeasured(x.baseline, SortedTexts(Comparison.MetricSet(x.baseline)))
    ensures
      var aggregates := Aggregates(x, SortedTexts(Comparison.MetricSet(x.baseline)), Slices(x.dataset));
      var d := Compare(spec, x).value;
      && GatesKnown(spec.gates, aggregates)
      && |d.gates| == |spec.gates|
      && (forall h :: h in d.gates <==> h in GateResults(spec.gates, aggregates))
      && (d.passed <==> forall i :: 0 <= i < |d.gates| ==> d.gates[i].passed)
  {
    hide Compare, Aligned, Aggregates, Comparison.MetricSet, SortedTexts, Slices, AllMeasured, SortBy, GatesKnown,
      GateResults;
    DecisionParts(spec, x);
    var aggregates := Aggregates(x, SortedTexts(Comparison.MetricSet(x.baseline)), Slices(x.dataset));
    SortMembers(GateResults(spec.gates, aggregates), GateKey);
  }

  /** Each gate of a decision is a gate of the policy, judged on the aggregate of its own metric and
      scope, which says what the evidence of the two runs says. */
  lemma DecisionGate(spec: Spec, x: Inputs, h: GateResult)
    requires ValidDataset(x.dataset) && Compare(spec, x).Ok? && h in Compare(spec, x).value.gates
    ensures h.gate in spec.gates
    ensures h.aggregate.metric == h.gate.metric && h.aggregate.slice == h.gate.slice
    ensures h.aggregate in Compare(spec, x).value.aggregates && FromEvidence(x, h.aggregate)
    ensures Judged(h)
  {
    hide Compare, Aligned, ValidDataset, Aggregates, Comparison.MetricSet, SortedTexts, Slices, AllMeasured, Judged,
      GateResultOf, Lookup, FromEvidence;
    DecidedGates(spec, x);
    var aggregates := Aggregates(x, SortedTexts(Comparison.MetricSet(x.baseline)), Slices(x.dataset));
    var results := GateResults(spec.gates, aggregates);
    var i :| 0 <= i < |results| && results[i] == h;
    LookupMember(aggregates, spec.gates[i].metric, spec.gates[i].slice);
    var a := Lookup(aggregates, spec.gates[i].metric, spec.gates[i].slice).value;
    GateJudged(spec.gates[i], a);
    GateOfResult(spec.gates[i], a);
    DecidedAggregates(spec, x, aggregates);
    DecisionAggregate(spec, x, a);
  }

  /** Every gate of the policy is judged, and the release passes exactly when each of them passes. */
  lemma DecisionJudgesAll(spec: Spec, x: Inputs)
    requires Compare(spec, x).Ok?
    ensures
      var d := Compare(spec, x).value;
      && |d.gates| == |spec.gates|
      && (forall k :: 0 <= k < |spec.gates| ==> exists h :: h in d.gates && h.gate == spec.gates[k])
      && (d.passed <==> forall h :: h in d.gates ==> h.passed)
  {
    hide Compare, Aligned, Aggregates, Comparison.MetricSet, SortedTexts, Slices, AllMeasured, GateResultOf, Lookup;
    DecidedGates(spec, x);
    var d := Compare(spec, x).value;
    var aggregates := Aggregates(x, SortedTexts(Comparison.MetricSet(x.baseline)), Slices(x.dataset));
    var results := GateResults(spec.gates, aggregates);
    forall k | 0 <= k < |spec.gates|
      ensures exists h :: h in d.gates && h.gate == spec.gates[k]
    {
      GateOfResult(spec.gates[k], Lookup(aggregates, spec.gates[k].metric, spec.gates[k].slice).value);
      assert results[k] in results;
    }
    if forall i :: 0 <= i < |d.gates| ==> d.gates[i].passed {
      forall h | h in d.gates
        ensures h.passed
      {
        var i :| 0 <= i < |d.gates| && d.gates[i] == h;
      }
    }
    forall i | 0 <= i < |d.gates|
      ensures d.gates[i] in d.gates
    {
    }
  }

  // ---------------------------------------------------------------- the cases of a decision

  /** A compared case, by inequalities: two values give a delta, a verdict on each side and one of
      four changes, anything else gives none of them and is incomparable. */
  predicate Labelled(c: CaseComparison, g: Gate) {
    if c.baseline.Scored? && c.candidate.Scored? then
      var was := Meets(c.baseline.value, g.direction, g.threshold);
      var now := Meets(c.candidate.value, g.direction, g.threshold);
      && c.delta == Some(c.candidate.value - c.baseline.value)
      && c.baselinePassed == Some(was) && c.candidatePassed == Some(now)
      && (c.change == NewlyPassing <==> !was && now)
      && (c.change == NewlyFailing <==> was && !now)
      && (c.change == UnchangedPassing <==> was && now)
      && (c.change == UnchangedFailing <==> !was && !now)
    else
      c.delta == None && c.baselinePassed == None && c.candidatePassed == None && c.change == Incomparable
  }

  /** The comparison of a dataset case under a gate, from the evidence of both runs. */
  ghost predicate CaseCompared(c: CaseComparison, x: Inputs, g: Gate, i: int) {
    && 0 <= i < |x.dataset.cases| && |x.baseline.cases| == |x.candidate.cases| == |x.dataset.cases|
    && Belongs(x.dataset.cases[i], g.slice)
    && c.metric == g.metric && c.slice == g.slice
    && c.caseId == x.dataset.cases[i].caseId && c.slices == x.dataset.cases[i].slices
    && Reads(x.baseline.cases[i], g.metric, c.baseline)
    && Reads(x.candidate.cases[i], g.metric, c.candidate)
    && Labelled(c, g)
  }

  lemma CompareCaseLabels(c: EvaluationCase, g: Gate, b: Score, d: Score)
    ensures
      var r := CompareCase(c, g, b, d);
      && Labelled(r, g) && r.metric == g.metric && r.slice == g.slice && r.caseId == c.caseId && r.slices == c.slices
      && r.baseline == b && r.candidate == d
  {
    hide Passes, Meets;
    if b.Scored? && d.Scored? {
      PassesMeets(b.value, g.direction, g.threshold);
      PassesMeets(d.value, g.direction, g.threshold);
    }
  }

  lemma CaseAt(x: Inputs, g: Gate, i: int, c: CaseComparison)
    requires ValidDataset(x.dataset) && Aligned(x) && 0 <= i < |x.dataset.cases|
    requires Belongs(x.dataset.cases[i], g.slice)
    requires c == CompareCase(x.dataset.cases[i], g, CaseValue(x.baseline.cases[i], g.metric),
                              CaseValue(x.candidate.cases[i], g.metric))
    ensures CaseCompared(c, x, g, i)
  {
    hide CompareCase, Labelled, Reads, CaseValue, Belongs;
    var b, d := CaseValue(x.baseline.cases[i], g.metric), CaseValue(x.candidate.cases[i], g.metric);
    CompareCaseLabels(x.dataset.cases[i], g, b, d);
    ReadsIff(x.baseline.cases[i], g.metric, b);
    ReadsIff(x.candidate.cases[i], g.metric, d);
  }

  lemma SelectedAt(x: Inputs, g: Gate, p: int, i: int)
    requires ValidDataset(x.dataset) && Aligned(x) && 0 <= i < |x.dataset.cases|
    requires 0 <= p < |InScope(x.dataset.cases, g.slice)| && InScope(x.dataset.cases, g.slice)[p] == x.dataset.cases[i]
    ensures 0 <= p < |GateCases(x, g)| && CaseCompared(GateCases(x, g)[p], x, g, i)
  {
    hide ValidDataset, SameCases, CaseCompared, InScope, Find, HasCase, CompareCase, CaseValue;
    FoundInOrder(x.dataset, x.baseline.cases, i);
    FoundInOrder(x.dataset, x.candidate.cases, i);
    ScopePresent(x.dataset.cases, g.slice, x.baseline.cases);
    ScopePresent(x.dataset.cases, g.slice, x.candidate.cases);
    assert x.dataset.cases[i] in InScope(x.dataset.cases, g.slice);
    BelongsInSlice(x.dataset.cases[i], g.slice);
    SameLength(x.dataset, x.baseline.cases);
    SameLength(x.dataset, x.candidate.cases);
    CaseAt(x, g, i, GateCases(x, g)[p]);
  }

  lemma {:induction false} GateCaseSource(x: Inputs, gates: seq<Gate>, c: CaseComparison) returns (k: int, p: int)
    requires Aligned(x) && c in AllGateCases(x, gates)
    ensures 0 <= k < |gates| && 0 <= p < |GateCases(x, gates[k])| && GateCases(x, gates[k])[p] == c
    decreases |gates|
  {
    hide Aligned, GateCases;
    var n := |gates| - 1;
    if c in AllGateCases(x, gates[..n]) {
      k, p := GateCaseSource(x, gates[..n], c);
    } else {
      k := n;
      p :| 0 <= p < |GateCases(x, gates[n])| && GateCases(x, gates[n])[p] == c;
    }
  }

  lemma {:induction false} GateCaseListed(x: Inputs, gates: seq<Gate>, k: int, p: int)
    requires Aligned(x) && 0 <= k < |gates| && 0 <= p < |GateCases(x, gates[k])|
    ensures GateCases(x, gates[k])[p] in AllGateCases(x, gates)
    decreases |gates|
  {
    hide Aligned, GateCases;
    var n := |gates| - 1;
    if k < n {
      GateCaseListed(x, gates[..n], k, p);
    }
  }

  lemma DecidedCases(spec: Spec, x: Inputs)
    requires Compare(spec, x).Ok?
    ensures Aligned(x) && forall c :: c in Compare(spec, x).value.cases <==> c in AllGateCases(x, spec.gates)
  {
    hide Compare, Aligned, AllGateCases;
    DecisionCases(spec, x);
    var cases, all := Compare(spec, x).value.cases, AllGateCases(x, spec.gates);
    forall c
      ensures c in cases <==> c in all
    {
      assert c in cases <==> c in multiset(cases);
      assert c in all <==> c in multiset(all);
    }
  }

  /** Each compared case of a decision is a case of the dataset under a gate whose scope holds it,
      with what the evidence of both runs reads, and the label the inequalities give. */
  lemma DecisionCase(spec: Spec, x: Inputs, c: CaseComparison) returns (k: int, i: int)
    requires ValidDataset(x.dataset) && Compare(spec, x).Ok? && c in Compare(spec, x).value.cases
    ensures 0 <= k < |spec.gates| && CaseCompared(c, x, spec.gates[k], i)
  {
    hide Compare, Aligned, AllGateCases, GateCases, CaseCompared, InScope, ValidDataset;
    DecidedCases(spec, x);
    var p: int;
    k, p := GateCaseSource(x, spec.gates, c);
    var g := spec.gates[k];
    assert InScope(x.dataset.cases, g.slice)[p] in InScope(x.dataset.cases, g.slice);
    i :| 0 <= i < |x.dataset.cases| && x.dataset.cases[i] == InScope(x.dataset.cases, g.slice)[p];
    SelectedAt(x, g, p, i);
  }

  /** Every case of every gate's scope is compared. */
  lemma DecisionListsCase(spec: Spec, x: Inputs, k: int, i: int)
    requires ValidDataset(x.dataset) && Compare(spec, x).Ok? && 0 <= k < |spec.gates|
    requires 0 <= i < |x.dataset.cases| && Belongs(x.dataset.cases[i], spec.gates[k].slice)
    ensures exists c :: c in Compare(spec, x).value.cases && CaseCompared(c, x, spec.gates[k], i)
  {
    hide Compare, Aligned, AllGateCases, GateCases, CaseCompared, InScope, ValidDataset, Belongs;
    DecidedCases(spec, x);
    var g := spec.gates[k];
    BelongsInSlice(x.dataset.cases[i], g.slice);
    assert x.dataset.cases[i] in InScope(x.dataset.cases, g.slice);
    var p :| 0 <= p < |InScope(x.dataset.cases, g.slice)| && InScope(x.dataset.cases, g.slice)[p] == x.dataset.cases[i];
    SelectedAt(x, g, p, i);
    GateCaseListed(x, spec.gates, k, p);
  }

  /** What else a decision records: the policy's name, the dataset, and of each run its target, its
      identifier and their common mode. */
  lemma DecisionFields(spec: Spec, x: Inputs)
    requires Compare(spec, x).Ok?
    ensures
      var d := Compare(spec, x).value;
      && d.spec == spec.name && d.dataset == x.dataset.ref
      && d.baseline == x.baseline.target && d.candidate == x.candidate.target
      && d.baselineRunId == x.baseline.runId && d.candidateRunId == x.candidate.runId
      && d.mode == x.baseline.mode && d.mode == x.candidate.mode
  {
    hide Aligned, Aggregates, StoredMatch, GatesKnown, GateResults, AllGateCases, SameEvaluators, Comparison.MetricSet,
      Slices, SortedTexts, AllMeasured, Unique, RefMatches, SortBy;
  }

  // ---------------------------------------------------------------- errors are never released

  lemma ErrorCounted(cases: seq<EvaluationCase>, values: seq<Score>, slice: Option<string>, i: int)
    requires |values| == |cases| && 0 <= i < |cases| && Belongs(cases[i], slice) && values[i] == Errored
    ensures |ErrorsAt(cases, values, slice)| > 0
  {
    assert i in ErrorsAt(cases, values, slice);
  }

  lemma OneReading(c: CaseResult, metric: string, a: Score, b: Score)
    requires Reads(c, metric, a) && Reads(c, metric, b)
    ensures a == b
  {
    hide Reads;
    ReadsIff(c, metric, a);
    ReadsIff(c, metric, b);
  }

  lemma ErrorInEvidence(x: Inputs, results: seq<CaseResult>, metric: string, slice: Option<string>, a: Aggregate,
                        i: int)
    requires 0 <= i < |x.dataset.cases| && |results| == |x.dataset.cases|
    requires exists v :: AllRead(results, metric, v) && Counted(a, x.dataset.cases, v, slice)
    requires Belongs(x.dataset.cases[i], slice) && Reads(results[i], metric, Errored)
    ensures a.errors > 0
  {
    hide Belongs, Reads, ErrorsAt, SkipsAt, ScoresAt, MembersAt, TotalAt;
    var v :| AllRead(results, metric, v) && Counted(a, x.dataset.cases, v, slice);
    OneReading(results[i], metric, v[i], Errored);
    ErrorCounted(x.dataset.cases, v, slice, i);
  }

  /** A case in a gate's scope that reads as an error of the gate's metric in either run fails the
      gate's coverage, and with it the gate and the release. */
  lemma ErrorFailsGate(spec: Spec, x: Inputs, h: GateResult, i: int)
    requires ValidDataset(x.dataset) && Compare(spec, x).Ok? && h in Compare(spec, x).value.gates
    requires 0 <= i < |x.dataset.cases| && Belongs(x.dataset.cases[i], h.gate.slice)
    requires |x.baseline.cases| == |x.candidate.cases| == |x.dataset.cases|
    requires Reads(x.baseline.cases[i], h.gate.metric, Errored) || Reads(x.candidate.cases[i], h.gate.metric, Errored)
    ensures !h.coveragePassed && CoverageFailure in h.failureCodes && !h.passed && !Compare(spec, x).value.passed
  {
    hide Compare, ValidDataset, Belongs, Reads, AllRead, Counted, Difference, MeanMeets, ChangeTolerated;
    DecisionGate(spec, x, h);
    DecisionJudgesAll(spec, x);
    if Reads(x.baseline.cases[i], h.gate.metric, Errored) {
      ErrorInEvidence(x, x.baseline.cases, h.gate.metric, h.gate.slice, h.aggregate.baseline, i);
    } else {
      ErrorInEvidence(x, x.candidate.cases, h.gate.metric, h.gate.slice, h.aggregate.candidate, i);
    }
  }

  /** On this case the target gave no answer, or an evaluator that declares the metric delivered
      nothing or observed an error. */
  predicate Erred(evaluators: seq<R.Evaluator>, b: R.Behaviour, caseId: string, metric: string) {
    || b.target(caseId) != R.Responded
    || exists e :: e in evaluators && metric in e.metrics && Readings.CountsAsError(e, b, caseId, metric)
  }

  lemma ErredReads(runId: string, d: Dataset, target: Ref, evaluators: seq<R.Evaluator>, b: R.Behaviour,
                   mode: ExecutionMode, metric: string, i: int)
    requires ValidDataset(d) && R.RunOf(runId, d, target, evaluators, b, mode).Ok? && 0 <= i < |d.cases|
    requires Erred(evaluators, b, d.cases[i].caseId, metric)
    ensures
      var cases := R.RunOf(runId, d, target, evaluators, b, mode).value.cases;
      |cases| == |d.cases| && Reads(cases[i], metric, Errored)
  {
    hide R.RunOf, SortBy, R.ValidPlan, ValidDataset, Reads, R.NoRepeats, Readings.CountsAsError;
    var ordered, caseId := SortBy(evaluators, R.EvaluatorKey), d.cases[i].caseId;
    R.RunCases(runId, d, target, evaluators, b, mode);
    R.RunMetrics(runId, d, target, evaluators, b, mode);
    var c := R.CaseOf(ordered, b, caseId);
    ReadsIff(c, metric, Errored);
    if b.target(caseId) == R.Responded {
      hide R.CaseOf, CaseValue;
      var e :| e in evaluators && metric in e.metrics && Readings.CountsAsError(e, b, caseId, metric);
      SortMembers(evaluators, R.EvaluatorKey);
      var k :| 0 <= k < |ordered| && ordered[k] == e;
      Readings.StoredNoRepeats(runId, d, target, evaluators, b, mode, i);
      Readings.ReadingFromBehaviour(target, ordered, b, caseId, k, metric);
    }
  }

  /** For every plan and behaviour: of two runs the runner stored, a case in a gate's scope on which
      either run's target gave no answer, or whose evaluator of the gate's metric delivered nothing
      or observed an error, keeps the release from passing. */
  lemma ErrorNeverReleased(
      spec: Spec, d: Dataset,
      id1: string, target1: Ref, evaluators1: seq<R.Evaluator>, b1: R.Behaviour, mode1: ExecutionMode,
      id2: string, target2: Ref, evaluators2: seq<R.Evaluator>, b2: R.Behaviour, mode2: ExecutionMode,
      h: GateResult, i: int)
    requires ValidDataset(d)
    requires R.RunOf(id1, d, target1, evaluators1, b1, mode1).Ok?
    requires R.RunOf(id2, d, target2, evaluators2, b2, mode2).Ok?
    requires
      var x := Inputs(d, R.RunOf(id1, d, target1, evaluators1, b1, mode1).value,
                      R.RunOf(id2, d, target2, evaluators2, b2, mode2).value);
      Compare(spec, x).Ok? && h in Compare(spec, x).value.gates
    requires 0 <= i < |d.cases| && Belongs(d.cases[i], h.gate.slice)
    requires Erred(evaluators1, b1, d.cases[i].caseId, h.gate.metric)
          || Erred(evaluators2, b2, d.cases[i].caseId, h.gate.metric)
    ensures
      var x := Inputs(d, R.RunOf(id1, d, target1, evaluators1, b1, mode1).value,
                      R.RunOf(id2, d, target2, evaluators2, b2, mode2).value);
      !h.coveragePassed && CoverageFailure in h.failureCodes && !h.passed && !Compare(spec, x).value.passed
  {
    hide R.RunOf, Compare, ValidDataset, Belongs, Reads, Erred, SameCases;
    var x := Inputs(d, R.RunOf(id1, d, target1, evaluators1, b1, mode1).value,
                    R.RunOf(id2, d, target2, evaluators2, b2, mode2).value);
    RunConsistent(id1, d, target1, evaluators1, b1, mode1);
    RunConsistent(id2, d, target2, evaluators2, b2, mode2);
    SameLength(d, x.baseline.cases);
    SameLength(d, x.candidate.cases);
    if Erred(evaluators1, b1, d.cases[i].caseId, h.gate.metric) {
      ErredReads(id1, d, target1, evaluators1, b1, mode1, h.gate.metric, i);
    } else {
      ErredReads(id2, d, target2, evaluators2, b2, mode2, h.gate.metric, i);
    }
    ErrorFailsGate(spec, x, h, i);
  }

  // ---------------------------------------------------------------- when there is a decision

  /** A policy's reference names an artifact: kind, name and revision, and the digest if it gives one. */
  predicate Pins(expected: Ref, actual: Ref) {
    && expected.kind == actual.kind && expected.name == actual.name && expected.revision == actual.revision
    && (expected.digest == None || expected.digest == actual.digest)
  }

  predicate PolicyNames(spec: Spec, x: Inputs) {
    && spec.baseline.Some? && Pins(spec.baseline.value, x.baseline.target)
    && Pins(spec.candidate, x.candidate.target) && Pins(spec.dataset, x.dataset.ref)
  }

  predicate CasesOf(d: Dataset, run: RunResult) {
    |run.cases| == |d.cases| && forall i :: 0 <= i < |d.cases| ==> run.cases[i].caseId == d.cases[i].caseId
  }

  predicate MetricsOnce(run: RunResult) {
    forall i, j :: 0 <= i < j < |run.metrics| ==> run.metrics[i].metric != run.metrics[j].metric
  }

  predicate HasMetric(run: RunResult, metric: string) {
    exists i :: 0 <= i < |run.metrics| && run.metrics[i].metric == metric
  }

  /** Both runs stored the same metrics. */
  predicate SameMetrics(a: RunResult, b: RunResult) {
    && (forall i :: 0 <= i < |a.metrics| ==> HasMetric(b, a.metrics[i].metric))
    && (forall i :: 0 <= i < |b.metrics| ==> HasMetric(a, b.metrics[i].metric))
  }

  /** And each under the same evaluator. */
  predicate SameOwners(a: RunResult, b: RunResult) {
    forall i, j :: 0 <= i < |a.metrics| && 0 <= j < |b.metrics| && a.metrics[i].metric == b.metrics[j].metric ==>
      a.metrics[i].evaluator == b.metrics[j].evaluator
  }

  ghost predicate SaysEvidence(s: Summary, d: Dataset, run: RunResult) {
    exists v :: AllRead(run.cases, s.metric, v) && Counted(s.tally, d.cases, v, None)
  }

  /** Every stored summary says what the run's own cases say. */
  ghost predicate TrueToEvidence(d: Dataset, run: RunResult) {
    forall i :: 0 <= i < |run.metrics| ==> SaysEvidence(run.metrics[i], d, run)
  }

  /** A gate speaks of a stored metric and of the whole dataset or a slice that some case is in. */
  predicate GateFits(g: Gate, x: Inputs) {
    && HasMetric(x.baseline, g.metric)
    && (g.slice == None || exists i :: 0 <= i < |x.dataset.cases| && Belongs(x.dataset.cases[i], g.slice))
  }

  lemma PinsIs(expected: Ref, actual: Ref)
    ensures RefMatches(expected, actual) <==> Pins(expected, actual)
  {
    Readings.SameKeyMeans(expected.(digest := actual.digest), actual);
  }

  lemma MetricsOnceIs(run: RunResult)
    ensures Unique(MetricNames(run)) <==> MetricsOnce(run)
  {
  }

  lemma SameMetricsIs(a: RunResult, b: RunResult)
    ensures Comparison.MetricSet(a) == Comparison.MetricSet(b) <==> SameMetrics(a, b)
  {
    if Comparison.MetricSet(a) == Comparison.MetricSet(b) {
      forall i | 0 <= i < |a.metrics|
        ensures HasMetric(b, a.metrics[i].metric)
      {
        assert a.metrics[i].metric in Comparison.MetricSet(b);
      }
      forall i | 0 <= i < |b.metrics|
        ensures HasMetric(a, b.metrics[i].metric)
      {
        assert b.metrics[i].metric in Comparison.MetricSet(a);
      }
    }
  }

  lemma OwnerIs(run: RunResult, i: int)
    requires MetricsOnce(run) && 0 <= i < |run.metrics|
    ensures Measures(run, run.metrics[i].metric)
    ensures EvaluatorOf(run.metrics, run.metrics[i].metric) == run.metrics[i].evaluator
  {
    var k := EvaluatorStored(run.metrics, run.metrics[i].metric);
    assert k == i;
  }

  lemma SameOwnersIs(x: Inputs)
    requires MetricsOnce(x.baseline) && MetricsOnce(x.candidate) && SameMetrics(x.baseline, x.candidate)
    ensures SameEvaluators(x, SortedTexts(Comparison.MetricSet(x.baseline))) <==> SameOwners(x.baseline, x.candidate)
  {
    hide SortedTexts, MetricsOnce, EvaluatorOf;
    var metrics := SortedTexts(Comparison.MetricSet(x.baseline));
    if SameEvaluators(x, metrics) {
      forall i, j | 0 <= i < |x.baseline.metrics| && 0 <= j < |x.candidate.metrics|
                    && x.baseline.metrics[i].metric == x.candidate.metrics[j].metric
        ensures x.baseline.metrics[i].evaluator == x.candidate.metrics[j].evaluator
      {
        assert x.baseline.metrics[i].metric in metrics;
        OwnerIs(x.baseline, i);
        OwnerIs(x.candidate, j);
      }
    }
    if SameOwners(x.baseline, x.candidate) {
      forall k | 0 <= k < |metrics|
        ensures && Measures(x.baseline, metrics[k]) && Measures(x.candidate, metrics[k])
                && EvaluatorOf(x.baseline.metrics, metrics[k]) == EvaluatorOf(x.candidate.metrics, metrics[k])
      {
        assert metrics[k] in metrics;
        var i :| 0 <= i < |x.baseline.metrics| && x.baseline.metrics[i].metric == metrics[k];
        assert HasMetric(x.candidate, metrics[k]);
        var j :| 0 <= j < |x.candidate.metrics| && x.candidate.metrics[j].metric == metrics[k];
        OwnerIs(x.baseline, i);
        OwnerIs(x.candidate, j);
      }
    }
  }

  lemma CountedOnce(a: Aggregate, b: Aggregate, cases: seq<EvaluationCase>, v: seq<Score>, w: seq<Score>)
    requires Counted(a, cases, v, None) && Counted(b, cases, w, None) && v == w
    ensures a == b
  {
    hide MembersAt, ErrorsAt, SkipsAt, ScoresAt, TotalAt;
  }

  lemma SameReadings(results: seq<CaseResult>, metric: string, v: seq<Score>, w: seq<Score>)
    requires AllRead(results, metric, v) && AllRead(results, metric, w)
    ensures v == w
  {
    hide Reads;
    forall i | 0 <= i < |v|
      ensures v[i] == w[i]
    {
      OneReading(results[i], metric, v[i], w[i]);
    }
  }

  lemma SaysEvidenceIs(x: Inputs, run: RunResult, s: Summary)
    requires ValidDataset(x.dataset) && SameCases(x.dataset.cases, run.cases)
    ensures s.tally == Tally(CaseValues(run.cases, s.metric)) <==> SaysEvidence(s, x.dataset, run)
  {
    hide ValidDataset, SameCases, AllRead, Counted, Tally, CaseValues, ScopeTally;
    var w := CaseValues(run.cases, s.metric);
    ScopeCounted(x, run.cases, s.metric, None);
    WholeTally(x, run.cases, s.metric);
    forall v | AllRead(run.cases, s.metric, v) && Counted(s.tally, x.dataset.cases, v, None)
      ensures s.tally == Tally(w)
    {
      SameReadings(run.cases, s.metric, v, w);
      CountedOnce(s.tally, Tally(w), x.dataset.cases, v, w);
    }
  }

  lemma TrueToEvidenceIs(x: Inputs, run: RunResult)
    requires ValidDataset(x.dataset) && SameCases(x.dataset.cases, run.cases)
    ensures SelfConsistent(run) <==> TrueToEvidence(x.dataset, run)
  {
    hide ValidDataset, SameCases, Tally, CaseValues, SaysEvidence;
    forall i | 0 <= i < |run.metrics|
      ensures run.metrics[i].tally == Tally(CaseValues(run.cases, run.metrics[i].metric))
              <==> SaysEvidence(run.metrics[i], x.dataset, run)
    {
      SaysEvidenceIs(x, run, run.metrics[i]);
    }
  }

  lemma GateFitsIs(x: Inputs, g: Gate)
    ensures g.metric in SortedTexts(Comparison.MetricSet(x.baseline)) && g.slice in Slices(x.dataset)
            <==> GateFits(g, x)
  {
    hide SortedTexts, Slices;
    SlicesKnown(x.dataset, g.slice);
    if g.slice.Some? {
      forall i | 0 <= i < |x.dataset.cases|
        ensures g.slice.value in x.dataset.cases[i].slices <==> Belongs(x.dataset.cases[i], g.slice)
      {
      }
    }
  }

  lemma GatesFitIs(spec: Spec, x: Inputs)
    requires Aligned(x) && AllMeasured(x.baseline, SortedTexts(Comparison.MetricSet(x.baseline)))
    ensures
      GatesKnown(spec.gates, Aggregates(x, SortedTexts(Comparison.MetricSet(x.baseline)), Slices(x.dataset)))
      <==> forall k :: 0 <= k < |spec.gates| ==> GateFits(spec.gates[k], x)
  {
    hide SortedTexts, Slices, Comparison.MetricSet, GateFits, Aligned, AllMeasured, Aggregates, Lookup, AggregateFor;
    var metrics, slices := SortedTexts(Comparison.MetricSet(x.baseline)), Slices(x.dataset);
    forall k | 0 <= k < |spec.gates|
      ensures Lookup(Aggregates(x, metrics, slices), spec.gates[k].metric, spec.gates[k].slice).Some?
              <==> GateFits(spec.gates[k], x)
    {
      LookupExact(x, metrics, slices, spec.gates[k].metric, spec.gates[k].slice);
      GateFitsIs(x, spec.gates[k]);
    }
  }

  lemma InputsRefused(spec: Spec, x: Inputs)
    ensures
      match InputError(spec, x)
      case None =>
        && x.baseline.mode == x.candidate.mode
        && x.baseline.dataset == x.dataset.ref && x.candidate.dataset == x.dataset.ref
        && PolicyNames(spec, x) && CasesOf(x.dataset, x.baseline) && CasesOf(x.dataset, x.candidate)
        && MetricsOnce(x.baseline) && MetricsOnce(x.candidate) && SameMetrics(x.baseline, x.candidate)
      case Some(BaselineMissing) => spec.baseline.None?
      case Some(ModesDiffer) => x.baseline.mode != x.candidate.mode
      case Some(DatasetMismatch) => x.baseline.dataset != x.dataset.ref || x.candidate.dataset != x.dataset.ref
      case Some(PolicyMismatch) => spec.baseline.Some? && !PolicyNames(spec, x)
      case Some(CasesMismatch) => !CasesOf(x.dataset, x.baseline) || !CasesOf(x.dataset, x.candidate)
      case Some(MetricsRepeat) => !MetricsOnce(x.baseline) || !MetricsOnce(x.candidate)
      case Some(MetricsDiffer) => !SameMetrics(x.baseline, x.candidate)
      case Some(_) => false
  {
    hide Unique, Comparison.MetricSet, MetricsOnce, SameMetrics, RefMatches, Pins;
    if spec.baseline.Some? {
      PinsIs(spec.baseline.value, x.baseline.target);
      PinsIs(spec.candidate, x.candidate.target);
      PinsIs(spec.dataset, x.dataset.ref);
    }
    MetricsOnceIs(x.baseline);
    MetricsOnceIs(x.candidate);
    SameMetricsIs(x.baseline, x.candidate);
  }

  /** There is a decision only when the policy names what was run, both runs are of this dataset, in
      one mode, with the same metrics under the same evaluators and summaries true to their evidence,
      and every gate fits; and a refusal says which of these fails. */
  lemma DecidedOrRefused(spec: Spec, x: Inputs)
    requires ValidDataset(x.dataset)
    ensures
      match Compare(spec, x)
      case Ok(_) =>
        && x.baseline.mode == x.candidate.mode
        && x.baseline.dataset == x.dataset.ref && x.candidate.dataset == x.dataset.ref
        && PolicyNames(spec, x) && CasesOf(x.dataset, x.baseline) && CasesOf(x.dataset, x.candidate)
        && MetricsOnce(x.baseline) && MetricsOnce(x.candidate) && SameMetrics(x.baseline, x.candidate)
        && SameOwners(x.baseline, x.candidate)
        && TrueToEvidence(x.dataset, x.baseline) && TrueToEvidence(x.dataset, x.candidate)
        && (forall k :: 0 <= k < |spec.gates| ==> GateFits(spec.gates[k], x))
      case Err(BaselineMissing) => spec.baseline.None?
      case Err(ModesDiffer) => x.baseline.mode != x.candidate.mode
      case Err(DatasetMismatch) => x.baseline.dataset != x.dataset.ref || x.candidate.dataset != x.dataset.ref
      case Err(PolicyMismatch) => spec.baseline.Some? && !PolicyNames(spec, x)
      case Err(CasesMismatch) => !CasesOf(x.dataset, x.baseline) || !CasesOf(x.dataset, x.candidate)
      case Err(MetricsRepeat) => !MetricsOnce(x.baseline) || !MetricsOnce(x.candidate)
      case Err(MetricsDiffer) => !SameMetrics(x.baseline, x.candidate)
      case Err(EvaluatorsDiffer) => !SameOwners(x.baseline, x.candidate)
      case Err(SummariesMismatch) =>
        !TrueToEvidence(x.dataset, x.baseline) || !TrueToEvidence(x.dataset, x.candidate)
      case Err(GateUnknown) => exists k :: 0 <= k < |spec.gates| && !GateFits(spec.gates[k], x)
  {
    hide InputError, ValidDataset, SortedTexts, Slices, Aggregates, StoredMatch, GatesKnown, Decided, GateResults,
      AllGateCases, Comparison.MetricSet, SameEvaluators, SelfConsistent, TrueToEvidence, SameOwners, SameMetrics,
      MetricsOnce, GateFits, PolicyNames, AllMeasured, CasesOf, SameCases;
    InputsRefused(spec, x);
    if InputError(spec, x).None? {
      InputsAccepted(spec, x);
      SortedMeasured(x);
      SameOwnersIs(x);
      MatchIffConsistent(x);
      TrueToEvidenceIs(x, x.baseline);
      TrueToEvidenceIs(x, x.candidate);
      GatesFitIs(spec, x);
    }
  }

  lemma InputsAccepted(spec: Spec, x: Inputs)
    requires InputError(spec, x).None?
    ensures Aligned(x) && Comparison.MetricSet(x.baseline) == Comparison.MetricSet(x.candidate)
  {
    hide Comparison.MetricSet, SameCases, Unique, RefMatches;
  }
}
