/** What a release decision means: the recomputed aggregates agree with what the runner stored,
    comparison is symmetric, every change is counted once, and deltas are conserved. */
module Decisions {
  import opened Common
  import opened Ordering
  import opened Evaluation
  import opened Comparison
  import R = Runner

  // ---------------------------------------------------------------- looking up aggregates

  lemma {:induction false} LookupMember(aggregates: seq<AggregateComparison>, metric: string, slice: Option<string>)
    ensures
      match Lookup(aggregates, metric, slice)
      case Some(a) => a in aggregates && a.metric == metric && a.slice == slice
      case None => forall a :: a in aggregates ==> a.metric != metric || a.slice != slice
    decreases |aggregates|
  {
    if aggregates != [] {
      var n := |aggregates| - 1;
      LookupMember(aggregates[..n], metric, slice);
      assert aggregates == aggregates[..n] + [aggregates[n]];
    }
  }

  lemma {:induction false} AggregateSource(x: Inputs, metrics: seq<string>, slices: seq<Option<string>>,
                                           a: AggregateComparison)
    requires Aligned(x) && AllMeasured(x.baseline, metrics)
    requires a in Aggregates(x, metrics, slices)
    ensures a.metric in metrics && a.slice in slices && Measures(x.baseline, a.metric)
    ensures a == AggregateFor(x, EvaluatorOf(x.baseline.metrics, a.metric), a.metric, a.slice)
    decreases |metrics|
  {
    hide Aligned, ScopeTally;
    var n := |metrics| - 1;
    if a in Aggregates(x, metrics[..n], slices) {
      AggregateSource(x, metrics[..n], slices, a);
    }
  }

  lemma {:induction false} AggregateListed(x: Inputs, metrics: seq<string>, slices: seq<Option<string>>,
                                           metric: string, slice: Option<string>)
    requires Aligned(x) && AllMeasured(x.baseline, metrics)
    requires metric in metrics && slice in slices
    ensures Measures(x.baseline, metric)
    ensures AggregateFor(x, EvaluatorOf(x.baseline.metrics, metric), metric, slice) in Aggregates(x, metrics, slices)
    decreases |metrics|
  {
    hide Aligned, AggregateFor;
    var n := |metrics| - 1;
    if metric in metrics[..n] {
      AggregateListed(x, metrics[..n], slices, metric, slice);
    } else {
      var i :| 0 <= i < |slices| && slices[i] == slice;
      assert MetricAggregates(x, metrics[n], slices)[i]
          == AggregateFor(x, EvaluatorOf(x.baseline.metrics, metric), metric, slice);
    }
  }

  /** A lookup finds the aggregate of that metric and scope, or there is none to find. */
  lemma LookupExact(x: Inputs, metrics: seq<string>, slices: seq<Option<string>>,
                    metric: string, slice: Option<string>)
    requires Aligned(x) && AllMeasured(x.baseline, metrics)
    ensures
      var found := Lookup(Aggregates(x, metrics, slices), metric, slice);
      if metric in metrics && slice in slices
      then
        && Measures(x.baseline, metric)
        && found == Some(AggregateFor(x, EvaluatorOf(x.baseline.metrics, metric), metric, slice))
      else found == None
  {
    hide Aligned, AggregateFor, Lookup, Aggregates, AllMeasured;
    var all := Aggregates(x, metrics, slices);
    LookupMember(all, metric, slice);
    match Lookup(all, metric, slice)
    case Some(a) => AggregateSource(x, metrics, slices, a);
    case None =>
      if metric in metrics && slice in slices {
        AggregateListed(x, metrics, slices, metric, slice);
        ForScope(x, EvaluatorOf(x.baseline.metrics, metric), metric, slice);
      }
  }

  lemma ForScope(x: Inputs, evaluator: Ref, metric: string, slice: Option<string>)
    requires Aligned(x)
    ensures var a := AggregateFor(x, evaluator, metric, slice); a.metric == metric && a.slice == slice
  {
  }

  // ---------------------------------------------------------------- runner and comparison agree

  /** Every stored summary is the tally of the run's own case evidence. */
  predicate SelfConsistent(run: RunResult) {
    forall i :: 0 <= i < |run.metrics| ==>
      run.metrics[i].tally == Tally(CaseValues(run.cases, run.metrics[i].metric))
  }

  lemma WholeTally(x: Inputs, results: seq<CaseResult>, metric: string)
    requires ValidDataset(x.dataset) && SameCases(x.dataset.cases, results)
    ensures ScopeTally(x, results, metric, None) == Tally(CaseValues(results, metric))
  {
    WholeScope(x.dataset.cases);
    WholeValues(x.dataset, results, metric);
  }

  /** Stored summaries match the recomputed aggregates exactly when each run is consistent with
      its own case evidence. */
  lemma MatchIffConsistent(x: Inputs)
    requires ValidDataset(x.dataset) && Aligned(x) && MetricSet(x.baseline) == MetricSet(x.candidate)
    ensures
      var metrics := SortedTexts(MetricSet(x.baseline));
      AllMeasured(x.baseline, metrics)
    ensures
      var aggregates := Aggregates(x, SortedTexts(MetricSet(x.baseline)), Slices(x.dataset));
      && (StoredMatch(x.baseline.metrics, aggregates, false) <==> SelfConsistent(x.baseline))
      && (StoredMatch(x.candidate.metrics, aggregates, true) <==> SelfConsistent(x.candidate))
  {
    hide Lookup, Aggregates, Slices, SortedTexts, AllMeasured, ScopeTally, Tally, SameCases, CaseValues;
    SortedMeasured(x);
    var metrics, slices := SortedTexts(MetricSet(x.baseline)), Slices(x.dataset);
    var aggregates := Aggregates(x, metrics, slices);
    SlicesKnown(x.dataset, None);
    forall m | m in MetricSet(x.baseline)
      ensures Lookup(aggregates, m, None).Some?
      ensures Lookup(aggregates, m, None).value.baseline == Tally(CaseValues(x.baseline.cases, m))
      ensures Lookup(aggregates, m, None).value.candidate == Tally(CaseValues(x.candidate.cases, m))
    {
      LookupExact(x, metrics, slices, m, None);
      WholeTally(x, x.baseline.cases, m);
      WholeTally(x, x.candidate.cases, m);
    }
    assert forall i :: 0 <= i < |x.baseline.metrics| ==> x.baseline.metrics[i].metric in MetricSet(x.baseline);
    assert forall i :: 0 <= i < |x.candidate.metrics| ==> x.candidate.metrics[i].metric in MetricSet(x.candidate);
  }

  /** A comparison is refused for its summaries only if a run contradicts its own evidence. */
  lemma MismatchMeansInconsistent(spec: Spec, x: Inputs)
    requires ValidDataset(x.dataset) && SelfConsistent(x.baseline) && SelfConsistent(x.candidate)
    ensures Compare(spec, x) != Err(SummariesMismatch)
  {
    hide Aggregates, StoredMatch, SameEvaluators, GatesKnown, Decided, SelfConsistent, GateResults, AllGateCases,
      SameCases, Slices, SortedTexts;
    if InputError(spec, x).None? {
      MatchIffConsistent(x);
    }
  }

  lemma RunConsistent(runId: string, d: Dataset, target: Ref, evaluators: seq<R.Evaluator>, b: R.Behaviour,
                      mode: ExecutionMode)
    requires ValidDataset(d) && R.RunOf(runId, d, target, evaluators, b, mode).Ok?
    ensures SelfConsistent(R.RunOf(runId, d, target, evaluators, b, mode).value)
    ensures SameCases(d.cases, R.RunOf(runId, d, target, evaluators, b, mode).value.cases)
  {
    hide R.RunOf, Tally, CaseValues;
    var run := R.RunOf(runId, d, target, evaluators, b, mode).value;
    forall i | 0 <= i < |run.metrics|
      ensures run.metrics[i].tally == Tally(CaseValues(run.cases, run.metrics[i].metric))
    {
      assert run.metrics[i] in run.metrics;
      R.StoredSummariesAgree(runId, d, target, evaluators, b, mode, run.metrics[i]);
    }
    R.RunCases(runId, d, target, evaluators, b, mode);
  }

  /** For every plan, every behaviour of target and evaluators, and every dataset: comparing two
      runs the runner produced is never refused because of their stored aggregates. */
  lemma RunnerRunsNeverMismatch(
      spec: Spec, d: Dataset,
      id1: string, target1: Ref, evaluators1: seq<R.Evaluator>, b1: R.Behaviour, mode1: ExecutionMode,
      id2: string, target2: Ref, evaluators2: seq<R.Evaluator>, b2: R.Behaviour, mode2: ExecutionMode)
    requires ValidDataset(d)
    requires R.RunOf(id1, d, target1, evaluators1, b1, mode1).Ok?
    requires R.RunOf(id2, d, target2, evaluators2, b2, mode2).Ok?
    ensures
      var baseline := R.RunOf(id1, d, target1, evaluators1, b1, mode1).value;
      var candidate := R.RunOf(id2, d, target2, evaluators2, b2, mode2).value;
      Compare(spec, Inputs(d, baseline, candidate)) != Err(SummariesMismatch)
  {
    hide R.RunOf, Compare, SelfConsistent, ValidDataset;
    RunConsistent(id1, d, target1, evaluators1, b1, mode1);
    RunConsistent(id2, d, target2, evaluators2, b2, mode2);
    var baseline := R.RunOf(id1, d, target1, evaluators1, b1, mode1).value;
    var candidate := R.RunOf(id2, d, target2, evaluators2, b2, mode2).value;
    MismatchMeansInconsistent(spec, Inputs(d, baseline, candidate));
  }

  // ---------------------------------------------------------------- when a comparison succeeds

  lemma {:induction false} SummaryNames(cases: seq<CaseResult>, evaluators: seq<R.Evaluator>)
    ensures |R.Summaries(cases, evaluators)| == |R.AllMetrics(evaluators)|
    ensures forall i :: 0 <= i < |R.AllMetrics(evaluators)| ==>
      R.Summaries(cases, evaluators)[i].metric == R.AllMetrics(evaluators)[i]
    decreases |evaluators|
  {
    hide R.SummaryValue, Tally;
    if evaluators != [] {
      SummaryNames(cases, evaluators[..|evaluators| - 1]);
    }
  }

  lemma NamesOfSorted(summaries: seq<Summary>, names: seq<string>, run: RunResult)
    requires |summaries| == |names| && forall i :: 0 <= i < |names| ==> summaries[i].metric == names[i]
    requires run.metrics == SortBy(summaries, R.SummaryKey) && Unique(names)
    ensures Unique(MetricNames(run))
    ensures MetricSet(run) == set s | s in names
  {
    hide Unique, SortBy, R.SummaryKey;
    SortMembers(summaries, R.SummaryKey);
    var sorted := MetricNames(run);
    forall s
      ensures s in sorted <==> s in names
      ensures s in MetricSet(run) <==> s in names
    {
      if s in names {
        var i :| 0 <= i < |names| && names[i] == s;
        assert summaries[i] in run.metrics;
        var j :| 0 <= j < |run.metrics| && run.metrics[j] == summaries[i];
        assert sorted[j] == s;
      }
      if s in sorted {
        var j :| 0 <= j < |sorted| && sorted[j] == s;
        assert run.metrics[j] in run.metrics;
        var i :| 0 <= i < |summaries| && summaries[i] == run.metrics[j];
        assert names[i] == s;
      }
    }
    assert (set s | s in sorted) == (set s | s in names);
    NamesSize(sorted);
    NamesSize(names);
  }

  /** What a run stores of a plan: each declared metric once, under its evaluator. */
  lemma RunMetricsOfPlan(runId: string, d: Dataset, target: Ref, evaluators: seq<R.Evaluator>, b: R.Behaviour,
                         mode: ExecutionMode)
    requires R.RunOf(runId, d, target, evaluators, b, mode).Ok?
    ensures
      var run := R.RunOf(runId, d, target, evaluators, b, mode).value;
      var names := R.AllMetrics(SortBy(evaluators, R.EvaluatorKey));
      && Unique(MetricNames(run)) && MetricSet(run) == (set s | s in names)
      && run.mode == mode && run.dataset == d.ref && run.target == target
  {
    hide R.ValidPlan, R.AllValid, R.CaseOf, SortBy, R.Summaries;
    var ordered := SortBy(evaluators, R.EvaluatorKey);
    R.RunMetrics(runId, d, target, evaluators, b, mode);
    var cases := R.Results(d.cases, ordered, b);
    SummaryNames(cases, ordered);
    PlanMetricsUnique(target, ordered);
    NamesOfSorted(R.Summaries(cases, ordered), R.AllMetrics(ordered),
                  R.RunOf(runId, d, target, evaluators, b, mode).value);
  }

  lemma PlanMetricsUnique(target: Ref, evaluators: seq<R.Evaluator>)
    requires R.ValidPlan(target, evaluators)
    ensures Unique(R.AllMetrics(evaluators))
  {
  }

  lemma {:induction false} EvaluatorFound(metrics: seq<Summary>, metric: string, evaluator: Ref)
    requires exists i :: 0 <= i < |metrics| && metrics[i].metric == metric
    requires forall s :: s in metrics && s.metric == metric ==> s.evaluator == evaluator
    ensures EvaluatorOf(metrics, metric) == evaluator
    decreases |metrics|
  {
    if metrics[0].metric == metric {
      assert metrics[0] in metrics;
    } else {
      var i :| 0 <= i < |metrics| && metrics[i].metric == metric;
      assert metrics[1..][i - 1].metric == metric;
      forall s | s in metrics[1..] && s.metric == metric ensures s.evaluator == evaluator {
        assert s in metrics;
      }
      EvaluatorFound(metrics[1..], metric, evaluator);
    }
  }

  lemma RunEvaluator(runId: string, d: Dataset, target: Ref, evaluators: seq<R.Evaluator>, b: R.Behaviour,
                     mode: ExecutionMode, k: int, metric: string)
    requires R.RunOf(runId, d, target, evaluators, b, mode).Ok?
    requires
      var ordered := SortBy(evaluators, R.EvaluatorKey);
      0 <= k < |ordered| && metric in ordered[k].metrics
    ensures
      var run := R.RunOf(runId, d, target, evaluators, b, mode).value;
      && Measures(run, metric)
      && EvaluatorOf(run.metrics, metric) == SortBy(evaluators, R.EvaluatorKey)[k].ref
  {
    hide R.ValidPlan, R.AllValid, R.RunOf, SortBy, R.Summaries, Tally;
    var run := R.RunOf(runId, d, target, evaluators, b, mode).value;
    var ordered := SortBy(evaluators, R.EvaluatorKey);
    R.RunMetrics(runId, d, target, evaluators, b, mode);
    PlanMetricsUnique(target, ordered);
    var cases := R.Results(d.cases, ordered, b);
    SortMembers(R.Summaries(cases, ordered), R.SummaryKey);
    R.MetricSummarized(cases, ordered, k, metric);
    var i :| 0 <= i < |run.metrics| && run.metrics[i] == R.SummaryOf(cases, ordered[k], metric);
    forall s | s in run.metrics && s.metric == metric
      ensures s.evaluator == ordered[k].ref
    {
      var l := R.SummarySource(cases, ordered, s);
      R.MetricOwner(ordered, k, l, metric);
    }
    EvaluatorFound(run.metrics, metric, ordered[k].ref);
  }

  lemma {:induction false} DeclaredBy(evaluators: seq<R.Evaluator>, metric: string) returns (k: int)
    requires metric in R.AllMetrics(evaluators)
    ensures 0 <= k < |evaluators| && metric in evaluators[k].metrics
    decreases |evaluators|
  {
    var n := |evaluators| - 1;
    if metric in evaluators[n].metrics {
      k := n;
    } else {
      k := DeclaredBy(evaluators[..n], metric);
    }
  }

  /** A gate names a metric of the plan and a scope of the dataset. */
  predicate GateDefined(g: Gate, d: Dataset, evaluators: seq<R.Evaluator>) {
    g.metric in R.AllMetrics(SortBy(evaluators, R.EvaluatorKey)) && KnownSlice(d, g.slice)
  }

  lemma GatesKnownIff(gates: seq<Gate>, x: Inputs, evaluators: seq<R.Evaluator>)
    requires Aligned(x) && MetricSet(x.baseline) == MetricSet(x.candidate)
    requires MetricSet(x.baseline) == set s | s in R.AllMetrics(SortBy(evaluators, R.EvaluatorKey))
    ensures AllMeasured(x.baseline, SortedTexts(MetricSet(x.baseline)))
    ensures
      GatesKnown(gates, Aggregates(x, SortedTexts(MetricSet(x.baseline)), Slices(x.dataset))) <==>
        forall i :: 0 <= i < |gates| ==> GateDefined(gates[i], x.dataset, evaluators)
  {
    hide Lookup, Aggregates, Slices, AllMeasured, AggregateFor, Aligned, KnownSlice, MetricSet, R.AllMetrics, SortBy;
    SortedMeasured(x);
    var metrics := SortedTexts(MetricSet(x.baseline));
    forall i | 0 <= i < |gates|
      ensures Lookup(Aggregates(x, metrics, Slices(x.dataset)), gates[i].metric, gates[i].slice).Some?
              <==> GateDefined(gates[i], x.dataset, evaluators)
    {
      LookupExact(x, metrics, Slices(x.dataset), gates[i].metric, gates[i].slice);
      SlicesKnown(x.dataset, gates[i].slice);
    }
  }

  lemma SamePlanSameEvaluators(
      d: Dataset, evaluators: seq<R.Evaluator>, mode: ExecutionMode,
      id1: string, target1: Ref, b1: R.Behaviour, id2: string, target2: Ref, b2: R.Behaviour)
    requires R.RunOf(id1, d, target1, evaluators, b1, mode).Ok?
    requires R.RunOf(id2, d, target2, evaluators, b2, mode).Ok?
    ensures
      var x := Inputs(d, R.RunOf(id1, d, target1, evaluators, b1, mode).value,
                      R.RunOf(id2, d, target2, evaluators, b2, mode).value);
      SameEvaluators(x, SortedTexts(MetricSet(x.baseline)))
  {
    hide R.RunOf, SortBy, R.AllMetrics, MetricSet;
    var x := Inputs(d, R.RunOf(id1, d, target1, evaluators, b1, mode).value,
                    R.RunOf(id2, d, target2, evaluators, b2, mode).value);
    RunMetricsOfPlan(id1, d, target1, evaluators, b1, mode);
    var ordered := SortBy(evaluators, R.EvaluatorKey);
    var metrics := SortedTexts(MetricSet(x.baseline));
    forall i | 0 <= i < |metrics|
      ensures && Measures(x.baseline, metrics[i]) && Measures(x.candidate, metrics[i])
              && EvaluatorOf(x.baseline.metrics, metrics[i]) == EvaluatorOf(x.candidate.metrics, metrics[i])
    {
      assert metrics[i] in metrics;
      var k := DeclaredBy(ordered, metrics[i]);
      RunEvaluator(id1, d, target1, evaluators, b1, mode, k, metrics[i]);
      RunEvaluator(id2, d, target2, evaluators, b2, mode, k, metrics[i]);
    }
  }

  /** Two runs of one plan in one mode on one dataset, under a policy that names their targets:
      the comparison decides if and only if every gate names a metric of the plan and a scope of
      the dataset, and otherwise says that a gate is unknown. */
  lemma SamePlanDecides(
      spec: Spec, d: Dataset, evaluators: seq<R.Evaluator>, mode: ExecutionMode,
      id1: string, target1: Ref, b1: R.Behaviour, id2: string, target2: Ref, b2: R.Behaviour)
    requires ValidDataset(d)
    requires R.RunOf(id1, d, target1, evaluators, b1, mode).Ok?
    requires R.RunOf(id2, d, target2, evaluators, b2, mode).Ok?
    requires spec.baseline.Some? && RefMatches(spec.baseline.value, target1) && RefMatches(spec.candidate, target2)
    requires RefMatches(spec.dataset, d.ref)
    ensures
      var x := Inputs(d, R.RunOf(id1, d, target1, evaluators, b1, mode).value,
                      R.RunOf(id2, d, target2, evaluators, b2, mode).value);
      && (Compare(spec, x).Ok? <==> forall i :: 0 <= i < |spec.gates| ==> GateDefined(spec.gates[i], d, evaluators))
      && (Compare(spec, x).Err? ==> Compare(spec, x) == Err(GateUnknown))
  {
    hide R.RunOf, SelfConsistent, ValidDataset, RefMatches, SameCases, Unique, MetricSet, SameEvaluators, GatesKnown,
      StoredMatch, Aggregates, Slices, SortedTexts, Decided, GateResults, AllGateCases, GateDefined, R.AllMetrics,
      SortBy;
    var x := Inputs(d, R.RunOf(id1, d, target1, evaluators, b1, mode).value,
                    R.RunOf(id2, d, target2, evaluators, b2, mode).value);
    RunConsistent(id1, d, target1, evaluators, b1, mode);
    RunConsistent(id2, d, target2, evaluators, b2, mode);
    RunMetricsOfPlan(id1, d, target1, evaluators, b1, mode);
    RunMetricsOfPlan(id2, d, target2, evaluators, b2, mode);
    SamePlanSameEvaluators(d, evaluators, mode, id1, target1, b1, id2, target2, b2);
    MatchIffConsistent(x);
    GatesKnownIff(spec.gates, x, evaluators);
  }
}
