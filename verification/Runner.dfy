/** The in-process runner: it validates a plan, runs every case through the target and every
    evaluator, and stores one coverage-aware summary for each metric. */
module Runner {
  import opened Common
  import opened Ordering
  import opened Evaluation

  datatype Evaluator = Evaluator(ref: Ref, metrics: seq<string>)

  /** What invoking the target on a case ends with. */
  datatype TargetOutcome = TargetRaised | InvalidResponse | Responded

  /** What an evaluator does on a case. */
  datatype EvaluatorOutcome = EvaluatorRaised | Malformed | Produced(observations: seq<Observation>)

  /** How the target and the evaluators behave: anything at all. */
  datatype Behaviour = Behaviour(
    target: string -> TargetOutcome,
    evaluate: (Ref, string) -> EvaluatorOutcome)

  datatype RunError = PlanRejected | EvidenceRejected

  // ---------------------------------------------------------------- the plan

  function EvaluatorKey(e: Evaluator): Key {
    LogicalKey(e.ref)
  }

  function AllMetrics(evaluators: seq<Evaluator>): seq<string>
    decreases |evaluators|
  {
    if evaluators == [] then []
    else
      var n := |evaluators| - 1;
      AllMetrics(evaluators[..n]) + evaluators[n].metrics
  }

  predicate UniqueKeys(evaluators: seq<Evaluator>) {
    forall i, j :: 0 <= i < j < |evaluators| ==> EvaluatorKey(evaluators[i]) != EvaluatorKey(evaluators[j])
  }

  predicate ResolvedEvaluator(e: Evaluator) {
    e.ref.kind.EvaluatorArtifact? && e.ref.digest.Some? && e.metrics != []
  }

  /** A plan the runner accepts: a resolved target; evaluators that are resolved, declare
      metrics, and share neither a reference nor a metric name. */
  predicate ValidPlan(target: Ref, evaluators: seq<Evaluator>) {
    && target.kind.TargetArtifact? && target.digest.Some?
    && evaluators != []
    && UniqueKeys(evaluators)
    && (forall i :: 0 <= i < |evaluators| ==> ResolvedEvaluator(evaluators[i]))
    && Unique(AllMetrics(evaluators))
  }

  lemma {:induction false} MetricListed(evaluators: seq<Evaluator>, k: int, m: int) returns (p: int)
    requires 0 <= k < |evaluators| && 0 <= m < |evaluators[k].metrics|
    ensures 0 <= p < |AllMetrics(evaluators)| && AllMetrics(evaluators)[p] == evaluators[k].metrics[m]
    ensures |AllMetrics(evaluators[..k])| + m == p
    decreases |evaluators|
  {
    var n := |evaluators| - 1;
    if k == n {
      p := |AllMetrics(evaluators[..n])| + m;
    } else {
      assert evaluators[..n][..k] == evaluators[..k];
      p := MetricListed(evaluators[..n], k, m);
    }
  }

  lemma {:induction false} MetricsGrow(evaluators: seq<Evaluator>, k: int)
    requires 0 <= k < |evaluators|
    ensures |AllMetrics(evaluators[..k])| + |evaluators[k].metrics| <= |AllMetrics(evaluators)|
    decreases |evaluators|
  {
    var n := |evaluators| - 1;
    if k < n {
      assert evaluators[..n][..k] == evaluators[..k];
      MetricsGrow(evaluators[..n], k);
    }
  }

  /** With unique metric names a metric has one evaluator. */
  lemma MetricOwner(evaluators: seq<Evaluator>, k: int, l: int, metric: string)
    requires Unique(AllMetrics(evaluators))
    requires 0 <= k < |evaluators| && metric in evaluators[k].metrics
    requires 0 <= l < |evaluators| && metric in evaluators[l].metrics
    ensures k == l
  {
    var i :| 0 <= i < |evaluators[k].metrics| && evaluators[k].metrics[i] == metric;
    var j :| 0 <= j < |evaluators[l].metrics| && evaluators[l].metrics[j] == metric;
    if k < l {
      ListedApart(evaluators, k, i, l, j);
    } else if l < k {
      ListedApart(evaluators, l, j, k, i);
    }
  }

  lemma ListedApart(evaluators: seq<Evaluator>, k: int, i: int, l: int, j: int)
    requires Unique(AllMetrics(evaluators)) && 0 <= k < l < |evaluators|
    requires 0 <= i < |evaluators[k].metrics| && 0 <= j < |evaluators[l].metrics|
    ensures evaluators[k].metrics[i] != evaluators[l].metrics[j]
  {
    hide Unique;
    var p := MetricListed(evaluators, k, i);
    var q := MetricListed(evaluators, l, j);
    assert evaluators[..l][..k] == evaluators[..k] && evaluators[..l][k] == evaluators[k];
    MetricsGrow(evaluators[..l], k);
    assert p < q;
    UniqueApart(AllMetrics(evaluators), p, q);
  }

  lemma UniqueApart(xs: seq<string>, p: int, q: int)
    requires Unique(xs) && 0 <= p < q < |xs|
    ensures xs[p] != xs[q]
  {
  }

  lemma NoMetrics()
    ensures AllMetrics([]) == []
  {
  }

  lemma MetricsSnoc(evaluators: seq<Evaluator>, i: int)
    requires 0 <= i < |evaluators|
    ensures AllMetrics(evaluators[..i + 1]) == AllMetrics(evaluators[..i]) + evaluators[i].metrics
  {
    assert evaluators[..i + 1][..i] == evaluators[..i];
  }

  /** Orders the evaluators and rejects every plan that is not valid. */
  method ValidatePlan(target: Ref, evaluators: seq<Evaluator>) returns (r: Result<seq<Evaluator>, RunError>)
    ensures
      var ordered := SortBy(evaluators, EvaluatorKey);
      r == if ValidPlan(target, ordered) then Ok(ordered) else Err(PlanRejected)
  {
    hide SortBy, Unique, UniqueKeys, ResolvedEvaluator, AllMetrics;
    var ordered := SortBy(evaluators, EvaluatorKey);
    r := Err(PlanRejected);
    NoMetrics();
    if target.kind.TargetArtifact? && target.digest.Some? && evaluators != [] && UniqueKeys(ordered) {
      var names: seq<string>, i, sound := [], 0, true;
      while i < |ordered| && sound
        invariant 0 <= i <= |ordered|
        invariant sound ==>
                    && names == AllMetrics(ordered[..i])
                    && forall k :: 0 <= k < i ==> ResolvedEvaluator(ordered[k])
        invariant !sound ==> !ValidPlan(target, ordered)
        decreases |ordered| - i, sound
      {
        MetricsSnoc(ordered, i);
        if !ResolvedEvaluator(ordered[i]) {
          sound := false;
        } else if !Unique(ordered[i].metrics) {
          RepeatedMetric(ordered, i);
          sound := false;
        } else {
          names := names + ordered[i].metrics;
          i := i + 1;
        }
      }
      assert i == |ordered| ==> ordered[..i] == ordered;
      if sound && Unique(names) {
        r := Ok(ordered);
      }
    }
  }

  lemma RepeatedMetric(evaluators: seq<Evaluator>, k: int)
    requires 0 <= k < |evaluators| && !Unique(evaluators[k].metrics)
    ensures !Unique(AllMetrics(evaluators))
  {
    var i, j :| 0 <= i < j < |evaluators[k].metrics| && evaluators[k].metrics[i] == evaluators[k].metrics[j];
    var p := MetricListed(evaluators, k, i);
    var q := MetricListed(evaluators, k, j);
  }

  // ---------------------------------------------------------------- one case

  function MetricSet(observations: seq<Observation>): set<string> {
    set i | 0 <= i < |observations| :: observations[i].metric
  }

  function NameSet(names: seq<string>): set<string> {
    set i | 0 <= i < |names| :: names[i]
  }

  /** Observations cover every declared metric and no other, under the evaluator's reference. */
  predicate Covering(e: Evaluator, observations: seq<Observation>) {
    && MetricSet(observations) == NameSet(e.metrics)
    && forall i :: 0 <= i < |observations| ==>
         LogicalKey(observations[i].evaluator) == EvaluatorKey(e) && observations[i].evaluator.digest == e.ref.digest
  }

  function ObservationKey(o: Observation): Key {
    LogicalKey(o.evaluator) + [Text(o.metric)]
  }

  predicate Accepted(e: Evaluator, outcome: EvaluatorOutcome) {
    outcome.Produced? && Covering(e, outcome.observations)
  }

  /** The accepted observations of all evaluators on a case. */
  function Observed(evaluators: seq<Evaluator>, b: Behaviour, caseId: string): seq<Observation>
    decreases |evaluators|
  {
    if evaluators == [] then []
    else
      var n := |evaluators| - 1;
      var outcome := b.evaluate(evaluators[n].ref, caseId);
      Observed(evaluators[..n], b, caseId)
      + (if Accepted(evaluators[n], outcome) then SortBy(outcome.observations, ObservationKey) else [])
  }

  function FailureOf(e: Evaluator, outcome: EvaluatorOutcome): Failure {
    Failure(e.ref, if outcome.EvaluatorRaised? then EvaluatorException else InvalidEvaluatorOutput)
  }

  function Failures(evaluators: seq<Evaluator>, b: Behaviour, caseId: string): seq<Failure>
    decreases |evaluators|
  {
    if evaluators == [] then []
    else
      var n := |evaluators| - 1;
      var outcome := b.evaluate(evaluators[n].ref, caseId);
      Failures(evaluators[..n], b, caseId)
      + (if Accepted(evaluators[n], outcome) then [] else [FailureOf(evaluators[n], outcome)])
  }

  predicate AnyError(observations: seq<Observation>) {
    exists i :: 0 <= i < |observations| && observations[i].score.Errored?
  }

  function CaseOf(evaluators: seq<Evaluator>, b: Behaviour, caseId: string): CaseResult {
    if b.target(caseId) != Responded then CaseResult(caseId, TargetFailed, [], [])
    else
      var observations := Observed(evaluators, b, caseId);
      var failures := Failures(evaluators, b, caseId);
      var status := if failures != [] || AnyError(observations) then CompletedWithErrors else CaseCompleted;
      CaseResult(caseId, status, observations, failures)
  }

  function FailureKey(f: Failure): Key {
    LogicalKey(f.evaluator)
  }

  /** The case validator: evidence matches the status; failures and observations are unique and
      in canonical order. */
  predicate ValidCase(c: CaseResult) {
    && (c.status.TargetFailed? ==> c.observations == [] && c.failures == [])
    && (c.status.CaseCompleted? ==> c.failures == [])
    && (c.status.CompletedWithErrors? ==> c.failures != [] || AnyError(c.observations))
    && StrictlyBy(c.failures, FailureKey)
    && StrictlyBy(c.observations, ObservationKey)
  }

  method RunCase(evaluators: seq<Evaluator>, b: Behaviour, caseId: string) returns (c: CaseResult)
    ensures c == CaseOf(evaluators, b, caseId)
  {
    var target := b.target(caseId);
    if target.TargetRaised? || target.InvalidResponse? {
      c := CaseResult(caseId, TargetFailed, [], []);
    } else {
      var observations, failures, i := [], [], 0;
      while i < |evaluators|
        invariant 0 <= i <= |evaluators|
        invariant observations == Observed(evaluators[..i], b, caseId)
        invariant failures == Failures(evaluators[..i], b, caseId)
      {
        assert evaluators[..i + 1][..i] == evaluators[..i];
        var e := evaluators[i];
        var outcome := b.evaluate(e.ref, caseId);
        match outcome {
          case EvaluatorRaised => failures := failures + [Failure(e.ref, EvaluatorException)];
          case Malformed => failures := failures + [Failure(e.ref, InvalidEvaluatorOutput)];
          case Produced(raw) =>
            if Covering(e, raw) {
              observations := observations + SortBy(raw, ObservationKey);
            } else {
              failures := failures + [Failure(e.ref, InvalidEvaluatorOutput)];
            }
        }
        i := i + 1;
      }
      assert evaluators[..i] == evaluators;
      var status := if failures != [] || AnyError(observations) then CompletedWithErrors else CaseCompleted;
      c := CaseResult(caseId, status, observations, failures);
    }
  }

  // ---------------------------------------------------------------- summaries

  predicate FailedBy(c: CaseResult, key: Key) {
    exists i :: 0 <= i < |c.failures| && FailureKey(c.failures[i]) == key
  }

  function FirstScoreBy(observations: seq<Observation>, key: Key, metric: string): Score {
    if observations == [] then Errored
    else if observations[0].metric == metric && LogicalKey(observations[0].evaluator) == key then observations[0].score
    else FirstScoreBy(observations[1..], key, metric)
  }

  /** The runner's reading of a case: by evaluator and metric, a failed evaluator being an error. */
  function SummaryValue(c: CaseResult, e: Evaluator, metric: string): Score {
    if c.status.TargetFailed? then Errored
    else if FailedBy(c, EvaluatorKey(e)) then Errored
    else FirstScoreBy(c.observations, EvaluatorKey(e), metric)
  }

  function SummaryValues(cases: seq<CaseResult>, e: Evaluator, metric: string): (r: seq<Score>)
    ensures |r| == |cases|
    ensures forall i :: 0 <= i < |r| ==> r[i] == SummaryValue(cases[i], e, metric)
  {
    seq(|cases|, i requires 0 <= i < |cases| => SummaryValue(cases[i], e, metric))
  }

  function SummaryOf(cases: seq<CaseResult>, e: Evaluator, metric: string): Summary {
    Summary(metric, e.ref, Tally(SummaryValues(cases, e, metric)))
  }

  function EvaluatorSummaries(cases: seq<CaseResult>, e: Evaluator, upTo: nat): seq<Summary>
    requires upTo <= |e.metrics|
  {
    seq(upTo, i requires 0 <= i < upTo => SummaryOf(cases, e, e.metrics[i]))
  }

  function Summaries(cases: seq<CaseResult>, evaluators: seq<Evaluator>): seq<Summary>
    decreases |evaluators|
  {
    if evaluators == [] then []
    else
      var n := |evaluators| - 1;
      Summaries(cases, evaluators[..n]) + EvaluatorSummaries(cases, evaluators[n], |evaluators[n].metrics|)
  }

  /** One metric over all cases, counted in one pass. */
  method SummarizeMetric(cases: seq<CaseResult>, e: Evaluator, metric: string) returns (s: Summary)
    ensures s == SummaryOf(cases, e, metric)
  {
    var values: seq<real>, skipped, errors, i := [], 0, 0, 0;
    ghost var all := SummaryValues(cases, e, metric);
    while i < |cases|
      invariant 0 <= i <= |cases|
      invariant values == Scores(all[..i])
      invariant skipped == CountSkipped(all[..i])
      invariant errors == CountErrors(all[..i])
    {
      assert all[..i + 1][..i] == all[..i];
      var c := cases[i];
      if c.status.TargetFailed? {
        errors := errors + 1;
      } else if FailedBy(c, EvaluatorKey(e)) {
        errors := errors + 1;
      } else {
        match FirstScoreBy(c.observations, EvaluatorKey(e), metric) {
          case Scored(value) => values := values + [value];
          case Skipped => skipped := skipped + 1;
          case Errored => errors := errors + 1;
        }
      }
      i := i + 1;
    }
    assert all[..i] == all;
    s := Summary(metric, e.ref, Aggregate(
      |cases|, |values|, skipped, errors,
      if values == [] then None else Some(Sum(values) / |values| as real)));
  }

  method Summarize(cases: seq<CaseResult>, evaluators: seq<Evaluator>) returns (summaries: seq<Summary>)
    ensures summaries == Summaries(cases, evaluators)
  {
    summaries := [];
    var i := 0;
    while i < |evaluators|
      invariant 0 <= i <= |evaluators|
      invariant summaries == Summaries(cases, evaluators[..i])
    {
      assert evaluators[..i + 1][..i] == evaluators[..i];
      var e, j := evaluators[i], 0;
      ghost var before := summaries;
      while j < |e.metrics|
        invariant 0 <= j <= |e.metrics|
        invariant summaries == before + EvaluatorSummaries(cases, e, j)
      {
        var s := SummarizeMetric(cases, e, e.metrics[j]);
        assert EvaluatorSummaries(cases, e, j + 1) == EvaluatorSummaries(cases, e, j) + [s];
        summaries := summaries + [s];
        j := j + 1;
      }
      i := i + 1;
    }
    assert evaluators[..i] == evaluators;
  }

  // ---------------------------------------------------------------- a whole run

  function Results(cases: seq<EvaluationCase>, evaluators: seq<Evaluator>, b: Behaviour): (r: seq<CaseResult>)
    ensures |r| == |cases|
    ensures forall i :: 0 <= i < |r| ==> r[i] == CaseOf(evaluators, b, cases[i].caseId)
  {
    seq(|cases|, i requires 0 <= i < |cases| => CaseOf(evaluators, b, cases[i].caseId))
  }

  function SummaryKey(s: Summary): Key {
    [Text(s.metric)] + LogicalKey(s.evaluator)
  }

  function CaseKey(c: CaseResult): Key {
    [Text(c.caseId)]
  }

  predicate AllValid(cases: seq<CaseResult>) {
    forall i :: 0 <= i < |cases| ==> ValidCase(cases[i])
  }

  predicate NoFailures(cases: seq<CaseResult>, metrics: seq<Summary>) {
    && (forall i :: 0 <= i < |cases| ==> cases[i].status.CaseCompleted?)
    && (forall i :: 0 <= i < |metrics| ==> metrics[i].tally.errors <= 0)
  }

  /** The stored result: cases and summaries in canonical order. */
  function Created(runId: string, dataset: Ref, target: Ref, evaluators: seq<Evaluator>,
                   cases: seq<CaseResult>, metrics: seq<Summary>, mode: ExecutionMode): RunResult
  {
    var orderedCases := SortBy(cases, CaseKey);
    var orderedMetrics := SortBy(metrics, SummaryKey);
    RunResult(runId, dataset, target, seq(|evaluators|, i requires 0 <= i < |evaluators| => evaluators[i].ref),
              orderedCases, orderedMetrics, mode, NoFailures(orderedCases, orderedMetrics))
  }

  /** The result of a run as a function of the plan, the dataset and the behaviour. */
  function RunOf(runId: string, dataset: Dataset, target: Ref, evaluators: seq<Evaluator>, b: Behaviour,
                 mode: ExecutionMode): Result<RunResult, RunError>
  {
    var ordered := SortBy(evaluators, EvaluatorKey);
    if !ValidPlan(target, ordered) then Err(PlanRejected)
    else
      var cases := Results(dataset.cases, ordered, b);
      if !AllValid(cases) then Err(EvidenceRejected)
      else Ok(Created(runId, dataset.ref, target, ordered, cases, Summaries(cases, ordered), mode))
  }

  method Run(runId: string, dataset: Dataset, target: Ref, evaluators: seq<Evaluator>, b: Behaviour,
             mode: ExecutionMode) returns (r: Result<RunResult, RunError>)
    ensures r == RunOf(runId, dataset, target, evaluators, b, mode)
  {
    hide SortBy, ValidPlan, CaseOf, ValidCase, Summaries, Created;
    var plan := ValidatePlan(target, evaluators);
    if plan.Err? {
      return Err(PlanRejected);
    }
    var ordered := plan.value;
    var cases, i := [], 0;
    while i < |dataset.cases|
      invariant 0 <= i <= |dataset.cases|
      invariant cases == Results(dataset.cases, ordered, b)[..i]
      invariant AllValid(cases)
    {
      var c := RunCase(ordered, b, dataset.cases[i].caseId);
      assert Results(dataset.cases, ordered, b)[i] == c;
      if !ValidCase(c) {
        return Err(EvidenceRejected);
      }
      cases := cases + [c];
      i := i + 1;
    }
    assert cases == Results(dataset.cases, ordered, b);
    var summaries := Summarize(cases, ordered);
    r := Ok(Created(runId, dataset.ref, target, ordered, cases, summaries, mode));
  }

  // ---------------------------------------------------------------- the two readings agree

  /** Where an accepted observation comes from. */
  lemma {:induction false} ObservedSource(evaluators: seq<Evaluator>, b: Behaviour, caseId: string, o: Observation)
    returns (k: int)
    requires o in Observed(evaluators, b, caseId)
    ensures 0 <= k < |evaluators|
    ensures Accepted(evaluators[k], b.evaluate(evaluators[k].ref, caseId))
    ensures o.metric in evaluators[k].metrics && LogicalKey(o.evaluator) == EvaluatorKey(evaluators[k])
    decreases |evaluators|
  {
    var n := |evaluators| - 1;
    if o in Observed(evaluators[..n], b, caseId) {
      k := ObservedSource(evaluators[..n], b, caseId, o);
    } else {
      k := n;
      var raw := b.evaluate(evaluators[n].ref, caseId).observations;
      SortMembers(raw, ObservationKey);
      assert o in raw;
      assert o.metric in MetricSet(raw);
      assert o.metric in NameSet(evaluators[n].metrics);
    }
  }

  lemma {:induction false} FailureSource(evaluators: seq<Evaluator>, b: Behaviour, caseId: string, f: Failure)
    returns (k: int)
    requires f in Failures(evaluators, b, caseId)
    ensures 0 <= k < |evaluators| && FailureKey(f) == EvaluatorKey(evaluators[k])
    ensures !Accepted(evaluators[k], b.evaluate(evaluators[k].ref, caseId))
    decreases |evaluators|
  {
    var n := |evaluators| - 1;
    if f in Failures(evaluators[..n], b, caseId) {
      k := FailureSource(evaluators[..n], b, caseId, f);
    } else {
      k := n;
    }
  }

  lemma {:induction false} FirstScoreSame(observations: seq<Observation>, key: Key, metric: string)
    requires forall o :: o in observations && o.metric == metric ==> LogicalKey(o.evaluator) == key
    ensures FirstScore(observations, metric) == FirstScoreBy(observations, key, metric)
    decreases |observations|
  {
    if observations != [] {
      assert observations[0] in observations;
      forall o | o in observations[1..] && o.metric == metric
        ensures LogicalKey(o.evaluator) == key
      {
        assert o in observations;
      }
      FirstScoreSame(observations[1..], key, metric);
    }
  }

  lemma {:induction false} FirstScoreAbsent(observations: seq<Observation>, metric: string)
    requires forall o :: o in observations ==> o.metric != metric
    ensures FirstScore(observations, metric) == Errored
    decreases |observations|
  {
    if observations != [] {
      assert observations[0] in observations;
      forall o | o in observations[1..]
        ensures o.metric != metric
      {
        assert o in observations;
      }
      FirstScoreAbsent(observations[1..], metric);
    }
  }

  /** On every case of a valid plan, whatever the target and the evaluators did, the runner's
      reading by evaluator and the comparison's reading by metric name agree. */
  lemma ReadingsAgree(target: Ref, evaluators: seq<Evaluator>, b: Behaviour, caseId: string, k: int, metric: string)
    requires ValidPlan(target, evaluators)
    requires 0 <= k < |evaluators| && metric in evaluators[k].metrics
    ensures
      var c := CaseOf(evaluators, b, caseId);
      SummaryValue(c, evaluators[k], metric) == CaseValue(c, metric)
  {
    var c := CaseOf(evaluators, b, caseId);
    if !c.status.TargetFailed? {
      forall o | o in c.observations && o.metric == metric
        ensures LogicalKey(o.evaluator) == EvaluatorKey(evaluators[k])
        ensures Accepted(evaluators[k], b.evaluate(evaluators[k].ref, caseId))
      {
        var l := ObservedSource(evaluators, b, caseId, o);
        MetricOwner(evaluators, k, l, metric);
      }
      FirstScoreSame(c.observations, EvaluatorKey(evaluators[k]), metric);
      if FailedBy(c, EvaluatorKey(evaluators[k])) {
        var i :| 0 <= i < |c.failures| && FailureKey(c.failures[i]) == EvaluatorKey(evaluators[k]);
        var l := FailureSource(evaluators, b, caseId, c.failures[i]);
        assert l == k;
        FirstScoreAbsent(c.observations, metric);
      }
    }
  }

  lemma {:induction false} SummarySource(cases: seq<CaseResult>, evaluators: seq<Evaluator>, s: Summary)
    returns (k: int)
    requires s in Summaries(cases, evaluators)
    ensures 0 <= k < |evaluators| && s.metric in evaluators[k].metrics
    ensures s == SummaryOf(cases, evaluators[k], s.metric)
    decreases |evaluators|
  {
    var n := |evaluators| - 1;
    if s in Summaries(cases, evaluators[..n]) {
      k := SummarySource(cases, evaluators[..n], s);
    } else {
      k := n;
    }
  }

  lemma {:induction false} MetricSummarized(cases: seq<CaseResult>, evaluators: seq<Evaluator>, k: int, metric: string)
    requires 0 <= k < |evaluators| && metric in evaluators[k].metrics
    ensures SummaryOf(cases, evaluators[k], metric) in Summaries(cases, evaluators)
    decreases |evaluators|
  {
    var n := |evaluators| - 1;
    if k < n {
      MetricSummarized(cases, evaluators[..n], k, metric);
    } else {
      var i :| 0 <= i < |evaluators[n].metrics| && evaluators[n].metrics[i] == metric;
      assert EvaluatorSummaries(cases, evaluators[n], |evaluators[n].metrics|)[i]
          == SummaryOf(cases, evaluators[n], metric);
    }
  }

  lemma DatasetNotEmpty(dataset: Dataset)
    requires ValidDataset(dataset)
    ensures dataset.cases != []
  {
  }

  lemma TextKeyLess(a: string, b: string)
    ensures KeyLess([Text(a)], [Text(b)]) <==> TextLess(a, b)
  {
    TextTotal(a, b);
  }

  /** A stored run keeps its cases in dataset order. */
  lemma RunCases(runId: string, dataset: Dataset, target: Ref, evaluators: seq<Evaluator>, b: Behaviour,
                 mode: ExecutionMode)
    requires ValidDataset(dataset) && RunOf(runId, dataset, target, evaluators, b, mode).Ok?
    ensures
      RunOf(runId, dataset, target, evaluators, b, mode).value.cases
        == Results(dataset.cases, SortBy(evaluators, EvaluatorKey), b)
  {
    var cases := Results(dataset.cases, SortBy(evaluators, EvaluatorKey), b);
    forall i, j | 0 <= i < j < |cases|
      ensures !KeyLess(CaseKey(cases[j]), CaseKey(cases[i]))
    {
      TextKeyLess(cases[j].caseId, cases[i].caseId);
      TextTotal(dataset.cases[i].caseId, dataset.cases[j].caseId);
    }
    SortIdentity(cases, CaseKey);
  }

  lemma RunMetrics(runId: string, dataset: Dataset, target: Ref, evaluators: seq<Evaluator>, b: Behaviour,
                   mode: ExecutionMode)
    requires RunOf(runId, dataset, target, evaluators, b, mode).Ok?
    ensures
      var ordered := SortBy(evaluators, EvaluatorKey);
      && ValidPlan(target, ordered)
      && RunOf(runId, dataset, target, evaluators, b, mode).value.metrics
           == SortBy(Summaries(Results(dataset.cases, ordered, b), ordered), SummaryKey)
  {
    hide ValidPlan, AllValid;
  }

  /** The two algorithms agree on every run: each stored summary is the tally the comparison
      recomputes from the case evidence, and it satisfies the aggregate validator. */
  lemma StoredSummariesAgree(runId: string, dataset: Dataset, target: Ref, evaluators: seq<Evaluator>, b: Behaviour,
                             mode: ExecutionMode, s: Summary)
    requires ValidDataset(dataset) && RunOf(runId, dataset, target, evaluators, b, mode).Ok?
    requires s in RunOf(runId, dataset, target, evaluators, b, mode).value.metrics
    ensures
      var run := RunOf(runId, dataset, target, evaluators, b, mode).value;
      s.tally == Tally(CaseValues(run.cases, s.metric)) && ValidAggregate(s.tally)
  {
    hide ValidPlan, RunOf, SummaryValue, CaseValue, CaseOf, Tally, ValidDataset, ValidAggregate, Summaries;
    var ordered := SortBy(evaluators, EvaluatorKey);
    var cases := Results(dataset.cases, ordered, b);
    RunMetrics(runId, dataset, target, evaluators, b, mode);
    DatasetNotEmpty(dataset);
    RunCases(runId, dataset, target, evaluators, b, mode);
    SortMembers(Summaries(cases, ordered), SummaryKey);
    var k := SummarySource(cases, ordered, s);
    forall i | 0 <= i < |cases|
      ensures SummaryValue(cases[i], ordered[k], s.metric) == CaseValue(cases[i], s.metric)
    {
      ReadingsAgree(target, ordered, b, dataset.cases[i].caseId, k, s.metric);
    }
    assert SummaryValues(cases, ordered[k], s.metric) == CaseValues(cases, s.metric);
    TallyValid(CaseValues(cases, s.metric));
  }

  // ---------------------------------------------------------------- when evidence is rejected

  lemma {:induction false} AppendLess(a: Key, b: Key, x: Field, y: Field)
    requires |a| == |b|
    ensures KeyLess(a, b) ==> KeyLess(a + [x], b + [y])
    ensures a == b ==> (KeyLess(a + [x], b + [y]) <==> FieldLess(x, y))
    decreases |a|
  {
    if a == [] {
      FieldTotal(x, y);
    } else {
      AppendLess(a[1..], b[1..], x, y);
      assert (a + [x])[1..] == a[1..] + [x] && (b + [y])[1..] == b[1..] + [y];
      FieldTotal(a[0], b[0]);
      FieldTotal(a[0], a[0]);
    }
  }

  lemma MetricSetSnoc(init: seq<Observation>, o: Observation)
    ensures MetricSet(init + [o]) == MetricSet(init) + {o.metric}
  {
    var all := init + [o];
    forall m
      ensures m in MetricSet(all) <==> m in MetricSet(init) + {o.metric}
    {
      if m in MetricSet(init) {
        var i :| 0 <= i < |init| && init[i].metric == m;
        assert all[i].metric == m;
      } else if m == o.metric {
        assert all[|init|].metric == m;
      }
    }
  }

  predicate UniqueMetrics(observations: seq<Observation>) {
    forall i, j :: 0 <= i < j < |observations| ==> observations[i].metric != observations[j].metric
  }

  lemma UniqueSnoc(init: seq<Observation>, o: Observation)
    ensures UniqueMetrics(init + [o]) <==> UniqueMetrics(init) && o.metric !in MetricSet(init)
  {
    var all := init + [o];
    if UniqueMetrics(all) {
      forall i, j | 0 <= i < j < |init| ensures init[i].metric != init[j].metric {
        assert all[i].metric != all[j].metric;
      }
      forall i | 0 <= i < |init| ensures init[i].metric != o.metric {
        assert all[i].metric != all[|init|].metric;
      }
    }
  }

  lemma {:induction false} MetricSetSize(observations: seq<Observation>)
    ensures |MetricSet(observations)| <= |observations|
    ensures |MetricSet(observations)| == |observations| <==> UniqueMetrics(observations)
    decreases |observations|
  {
    if observations != [] {
      hide MetricSet, UniqueMetrics;
      var n := |observations| - 1;
      MetricSetSize(observations[..n]);
      MetricSetSnoc(observations[..n], observations[n]);
      UniqueSnoc(observations[..n], observations[n]);
      assert observations[..n] + [observations[n]] == observations;
    }
  }

  lemma SameMetricSet(a: seq<Observation>, b: seq<Observation>)
    requires forall o :: o in a <==> o in b
    ensures MetricSet(a) == MetricSet(b)
  {
    forall m
      ensures m in MetricSet(a) <==> m in MetricSet(b)
    {
      if m in MetricSet(a) {
        var i :| 0 <= i < |a| && a[i].metric == m;
        assert a[i] in b;
      }
      if m in MetricSet(b) {
        var i :| 0 <= i < |b| && b[i].metric == m;
        assert b[i] in a;
      }
    }
  }

  /** Of one evaluator's observations in order, the earlier key is less unless the metrics are equal. */
  lemma SameEvaluatorLess(o: Observation, p: Observation)
    requires LogicalKey(o.evaluator) == LogicalKey(p.evaluator)
    requires !KeyLess(ObservationKey(p), ObservationKey(o))
    ensures KeyLess(ObservationKey(o), ObservationKey(p)) <==> o.metric != p.metric
  {
    hide KeyLess, LogicalKey, TextLess;
    KeyTotal(ObservationKey(o), ObservationKey(p));
    var k := LogicalKey(o.evaluator);
    if o.metric != p.metric {
      assert ObservationKey(o)[|k|] != ObservationKey(p)[|k|];
    }
  }

  /** The observations of one evaluator are in strict order exactly when no metric repeats. */
  lemma SortedStrict(e: Evaluator, raw: seq<Observation>)
    requires Covering(e, raw)
    ensures StrictlyBy(SortBy(raw, ObservationKey), ObservationKey) <==> |raw| == |MetricSet(raw)|
  {
    hide KeyLess, LogicalKey, SortBy, ObservationKey, MetricSet;
    var r := SortBy(raw, ObservationKey);
    SortMembers(raw, ObservationKey);
    SortOrdered(raw, ObservationKey);
    SameMetricSet(raw, r);
    MetricSetSize(r);
    forall i, j | 0 <= i < j < |r|
      ensures KeyLess(ObservationKey(r[i]), ObservationKey(r[j])) <==> r[i].metric != r[j].metric
    {
      assert r[i] in raw && r[j] in raw;
      SameEvaluatorLess(r[i], r[j]);
    }
  }

  predicate StrictEvaluators(evaluators: seq<Evaluator>) {
    forall i, j :: 0 <= i < j < |evaluators| ==> KeyLess(EvaluatorKey(evaluators[i]), EvaluatorKey(evaluators[j]))
  }

  lemma SortedPlanStrict(evaluators: seq<Evaluator>)
    requires UniqueKeys(SortBy(evaluators, EvaluatorKey))
    ensures StrictEvaluators(SortBy(evaluators, EvaluatorKey))
  {
    var r := SortBy(evaluators, EvaluatorKey);
    SortOrdered(evaluators, EvaluatorKey);
    forall i, j | 0 <= i < j < |r|
      ensures KeyLess(EvaluatorKey(r[i]), EvaluatorKey(r[j]))
    {
      KeyTotal(EvaluatorKey(r[i]), EvaluatorKey(r[j]));
    }
  }

  /** This evaluator's accepted output, if any, names no metric twice. */
  predicate NoRepeat(e: Evaluator, outcome: EvaluatorOutcome) {
    Accepted(e, outcome) ==> |outcome.observations| == |MetricSet(outcome.observations)|
  }

  predicate NoRepeats(evaluators: seq<Evaluator>, b: Behaviour, caseId: string) {
    forall k :: 0 <= k < |evaluators| ==> NoRepeat(evaluators[k], b.evaluate(evaluators[k].ref, caseId))
  }

  lemma NoRepeatsSplit(evaluators: seq<Evaluator>, b: Behaviour, caseId: string)
    requires evaluators != []
    ensures
      var n := |evaluators| - 1;
      NoRepeats(evaluators, b, caseId) <==>
        NoRepeats(evaluators[..n], b, caseId) && NoRepeat(evaluators[n], b.evaluate(evaluators[n].ref, caseId))
  {
    hide NoRepeat;
    var n := |evaluators| - 1;
    assert forall k :: 0 <= k < n ==> evaluators[..n][k] == evaluators[k];
  }

  /** Everything earlier evaluators observed comes before everything the last one did. */
  lemma BlocksApart(evaluators: seq<Evaluator>, b: Behaviour, caseId: string, o: Observation, p: Observation)
    requires StrictEvaluators(evaluators) && evaluators != []
    requires o in Observed(evaluators[..|evaluators| - 1], b, caseId)
    requires LogicalKey(p.evaluator) == EvaluatorKey(evaluators[|evaluators| - 1])
    ensures KeyLess(ObservationKey(o), ObservationKey(p))
  {
    hide KeyLess, Accepted, LogicalKey;
    var k := ObservedSource(evaluators[..|evaluators| - 1], b, caseId, o);
    SameLengthKeys(o.evaluator, p.evaluator);
    AppendLess(LogicalKey(o.evaluator), LogicalKey(p.evaluator), Text(o.metric), Text(p.metric));
  }

  lemma SameLengthKeys(a: Ref, b: Ref)
    ensures |LogicalKey(a)| == |LogicalKey(b)|
  {
  }

  lemma {:induction false} ObservedStrict(evaluators: seq<Evaluator>, b: Behaviour, caseId: string)
    requires StrictEvaluators(evaluators)
    ensures StrictlyBy(Observed(evaluators, b, caseId), ObservationKey) <==> NoRepeats(evaluators, b, caseId)
    decreases |evaluators|
  {
    hide KeyLess, LogicalKey, ObservationKey, SortBy, MetricSet, NoRepeats, StrictlyBy;
    if evaluators == [] {
      NothingRepeats(b, caseId);
    } else {
      var n := |evaluators| - 1;
      var e := evaluators[n];
      var outcome := b.evaluate(e.ref, caseId);
      ObservedStrict(evaluators[..n], b, caseId);
      NoRepeatsSplit(evaluators, b, caseId);
      var init := Observed(evaluators[..n], b, caseId);
      if Accepted(e, outcome) {
        var block := SortBy(outcome.observations, ObservationKey);
        SortedStrict(e, outcome.observations);
        SortMembers(outcome.observations, ObservationKey);
        forall i, j | 0 <= i < |init| && 0 <= j < |block|
          ensures KeyLess(ObservationKey(init[i]), ObservationKey(block[j]))
        {
          assert block[j] in outcome.observations;
          BlocksApart(evaluators, b, caseId, init[i], block[j]);
        }
        StrictConcat(init, block, ObservationKey);
      } else {
        assert Observed(evaluators, b, caseId) == init;
      }
    }
  }

  lemma NothingRepeats(b: Behaviour, caseId: string)
    ensures NoRepeats([], b, caseId) && StrictlyBy([], ObservationKey)
  {
  }

  lemma StrictConcat<T(!new)>(a: seq<T>, b: seq<T>, key: T -> Key)
    requires forall i, j :: 0 <= i < |a| && 0 <= j < |b| ==> KeyLess(key(a[i]), key(b[j]))
    ensures StrictlyBy(a + b, key) <==> StrictlyBy(a, key) && StrictlyBy(b, key)
  {
    var c := a + b;
    if StrictlyBy(c, key) {
      forall i, j | 0 <= i < j < |a| ensures KeyLess(key(a[i]), key(a[j])) {
        assert KeyLess(key(c[i]), key(c[j]));
      }
      forall i, j | 0 <= i < j < |b| ensures KeyLess(key(b[i]), key(b[j])) {
        assert KeyLess(key(c[|a| + i]), key(c[|a| + j]));
      }
    }
  }

  lemma {:induction false} FailuresStrict(evaluators: seq<Evaluator>, b: Behaviour, caseId: string)
    requires StrictEvaluators(evaluators)
    ensures StrictlyBy(Failures(evaluators, b, caseId), FailureKey)
    decreases |evaluators|
  {
    if evaluators != [] {
      var n := |evaluators| - 1;
      FailuresStrict(evaluators[..n], b, caseId);
      var init := Failures(evaluators[..n], b, caseId);
      forall i | 0 <= i < |init|
        ensures KeyLess(FailureKey(init[i]), EvaluatorKey(evaluators[n]))
      {
        var k := FailureSource(evaluators[..n], b, caseId, init[i]);
      }
    }
  }

  /** Exactly when the case validator accepts the runner's evidence: always, unless an accepted
      evaluator output names the same metric twice. */
  lemma CaseAccepted(evaluators: seq<Evaluator>, b: Behaviour, caseId: string)
    requires StrictEvaluators(evaluators)
    ensures ValidCase(CaseOf(evaluators, b, caseId)) <==>
            (b.target(caseId).Responded? ==> NoRepeats(evaluators, b, caseId))
  {
    hide NoRepeats;
    ObservedStrict(evaluators, b, caseId);
    FailuresStrict(evaluators, b, caseId);
  }

  /** A run of a valid plan is refused for its evidence exactly when, on some case the target
      answered, an accepted evaluator output names a metric twice. */
  lemma EvidenceRejectedIff(runId: string, dataset: Dataset, target: Ref, evaluators: seq<Evaluator>, b: Behaviour,
                            mode: ExecutionMode)
    ensures
      var ordered := SortBy(evaluators, EvaluatorKey);
      RunOf(runId, dataset, target, evaluators, b, mode) == Err(EvidenceRejected) <==>
        && ValidPlan(target, ordered)
        && exists i :: 0 <= i < |dataset.cases| &&
             b.target(dataset.cases[i].caseId).Responded? && !NoRepeats(ordered, b, dataset.cases[i].caseId)
  {
    hide CaseOf, ValidCase, NoRepeats, Created, Summaries, SortBy;
    var ordered := SortBy(evaluators, EvaluatorKey);
    if ValidPlan(target, ordered) {
      SortedPlanStrict(evaluators);
      var cases := Results(dataset.cases, ordered, b);
      forall i | 0 <= i < |cases|
        ensures ValidCase(cases[i]) <==>
                (b.target(dataset.cases[i].caseId).Responded? ==> NoRepeats(ordered, b, dataset.cases[i].caseId))
      {
        CaseAccepted(ordered, b, dataset.cases[i].caseId);
      }
    }
  }

  // A plan the runner accepts whose evidence it refuses.

  const EXAMPLE_TARGET := Ref(TargetArtifact, "target", 1, Some("digest"))
  const EXAMPLE_EVALUATOR := Evaluator(Ref(EvaluatorArtifact, "evaluator", 1, Some("digest")), ["metric"])
  const EXAMPLE_DATASET := Dataset(Ref(DatasetArtifact, "dataset", 1, Some("digest")), [EvaluationCase("case", [])])

  function ExampleObservation(): Observation {
    Observation("metric", EXAMPLE_EVALUATOR.ref, Scored(1.0))
  }

  /** Answers every case, and observes the one declared metric twice. */
  function ExampleBehaviour(): Behaviour {
    Behaviour(_ => Responded, (_, _) => Produced([ExampleObservation(), ExampleObservation()]))
  }

  /** The declared metrics are covered, so the output is accepted, and the same metric is there
      twice, so the case is not. */
  lemma RepeatedMetricExample(runId: string, mode: ExecutionMode)
    ensures ValidDataset(EXAMPLE_DATASET) && ValidPlan(EXAMPLE_TARGET, [EXAMPLE_EVALUATOR])
    ensures RunOf(runId, EXAMPLE_DATASET, EXAMPLE_TARGET, [EXAMPLE_EVALUATOR], ExampleBehaviour(), mode)
            == Err(EvidenceRejected)
  {
    hide RunOf;
    var evaluators, b := [EXAMPLE_EVALUATOR], ExampleBehaviour();
    assert SortBy(evaluators, EvaluatorKey) == evaluators;
    assert AllMetrics(evaluators) == ["metric"] by {
      assert evaluators[..0] == [];
    }
    var observations := [ExampleObservation(), ExampleObservation()];
    assert observations[0].metric == observations[1].metric == "metric";
    assert MetricSet(observations) == {"metric"};
    assert ["metric"][0] == "metric";
    assert NameSet(["metric"]) == {"metric"};
    assert !NoRepeat(EXAMPLE_EVALUATOR, b.evaluate(EXAMPLE_EVALUATOR.ref, "case"));
    assert b.target(EXAMPLE_DATASET.cases[0].caseId).Responded?
        && !NoRepeats(evaluators, b, EXAMPLE_DATASET.cases[0].caseId);
    EvidenceRejectedIff(runId, EXAMPLE_DATASET, EXAMPLE_TARGET, evaluators, b, mode);
  }

  // ---------------------------------------------------------------- the run's status

  lemma {:induction false} UnacceptedFails(evaluators: seq<Evaluator>, b: Behaviour, caseId: string, k: int)
    requires 0 <= k < |evaluators|
    requires !Accepted(evaluators[k], b.evaluate(evaluators[k].ref, caseId))
    ensures FailureOf(evaluators[k], b.evaluate(evaluators[k].ref, caseId)) in Failures(evaluators, b, caseId)
    decreases |evaluators|
  {
    var n := |evaluators| - 1;
    if k < n {
      UnacceptedFails(evaluators[..n], b, caseId, k);
    }
  }

  lemma {:induction false} AcceptedObserved(evaluators: seq<Evaluator>, b: Behaviour, caseId: string, k: int,
                                           o: Observation)
    requires 0 <= k < |evaluators|
    requires Accepted(evaluators[k], b.evaluate(evaluators[k].ref, caseId))
    requires o in b.evaluate(evaluators[k].ref, caseId).observations
    ensures o in Observed(evaluators, b, caseId)
    decreases |evaluators|
  {
    var n := |evaluators| - 1;
    if k < n {
      AcceptedObserved(evaluators[..n], b, caseId, k, o);
    } else {
      SortMembers(b.evaluate(evaluators[n].ref, caseId).observations, ObservationKey);
    }
  }

  lemma {:induction false} FirstScoreFound(observations: seq<Observation>, metric: string, o: Observation)
    requires o in observations && o.metric == metric && !AnyError(observations)
    ensures !FirstScore(observations, metric).Errored?
    decreases |observations|
  {
    assert !observations[0].score.Errored?;
    if observations[0].metric != metric {
      assert o in observations[1..];
      forall i | 0 <= i < |observations[1..]|
        ensures !observations[1..][i].score.Errored?
      {
        assert !observations[i + 1].score.Errored?;
      }
      FirstScoreFound(observations[1..], metric, o);
    }
  }

  /** A completed case has a value, not an error, for every declared metric. */
  lemma CompletedHasValues(evaluators: seq<Evaluator>, b: Behaviour, caseId: string, k: int, metric: string)
    requires 0 <= k < |evaluators| && metric in evaluators[k].metrics
    requires CaseOf(evaluators, b, caseId).status.CaseCompleted?
    ensures !CaseValue(CaseOf(evaluators, b, caseId), metric).Errored?
  {
    var outcome := b.evaluate(evaluators[k].ref, caseId);
    if !Accepted(evaluators[k], outcome) {
      UnacceptedFails(evaluators, b, caseId, k);
    } else {
      assert metric in NameSet(evaluators[k].metrics);
      assert metric in MetricSet(outcome.observations);
      var i :| 0 <= i < |outcome.observations| && outcome.observations[i].metric == metric;
      AcceptedObserved(evaluators, b, caseId, k, outcome.observations[i]);
      FirstScoreFound(Observed(evaluators, b, caseId), metric, outcome.observations[i]);
    }
  }

  /** A run is stored as completed exactly when every case completed: the summaries' error counts
      never add a reason. */
  lemma CompletedIffCases(runId: string, dataset: Dataset, target: Ref, evaluators: seq<Evaluator>, b: Behaviour,
                          mode: ExecutionMode)
    requires ValidDataset(dataset) && RunOf(runId, dataset, target, evaluators, b, mode).Ok?
    ensures
      var run := RunOf(runId, dataset, target, evaluators, b, mode).value;
      run.completed <==> forall i :: 0 <= i < |run.cases| ==> run.cases[i].status.CaseCompleted?
  {
    var run := RunOf(runId, dataset, target, evaluators, b, mode).value;
    var ordered := SortBy(evaluators, EvaluatorKey);
    RunCases(runId, dataset, target, evaluators, b, mode);
    RunMetrics(runId, dataset, target, evaluators, b, mode);
    hide ValidPlan, CaseOf, CaseValue, ValidDataset, AllValid, Summaries;
    if forall i :: 0 <= i < |run.cases| ==> run.cases[i].status.CaseCompleted? {
      forall i | 0 <= i < |run.metrics|
        ensures run.metrics[i].tally.errors <= 0
      {
        var s := run.metrics[i];
        assert s in run.metrics;
        SummaryHasNoErrors(runId, dataset, target, evaluators, b, mode, s);
      }
    }
  }

  lemma SummaryHasNoErrors(runId: string, dataset: Dataset, target: Ref, evaluators: seq<Evaluator>, b: Behaviour,
                           mode: ExecutionMode, s: Summary)
    requires ValidDataset(dataset) && RunOf(runId, dataset, target, evaluators, b, mode).Ok?
    requires
      var run := RunOf(runId, dataset, target, evaluators, b, mode).value;
      && s in run.metrics
      && forall i :: 0 <= i < |run.cases| ==> run.cases[i].status.CaseCompleted?
    ensures s.tally.errors == 0
  {
    hide ValidPlan, CaseOf, CaseValue, ValidDataset, AllValid, Summaries, RunOf;
    var run := RunOf(runId, dataset, target, evaluators, b, mode).value;
    var ordered := SortBy(evaluators, EvaluatorKey);
    var cases := Results(dataset.cases, ordered, b);
    RunCases(runId, dataset, target, evaluators, b, mode);
    RunMetrics(runId, dataset, target, evaluators, b, mode);
    StoredSummariesAgree(runId, dataset, target, evaluators, b, mode, s);
    SortMembers(Summaries(cases, ordered), SummaryKey);
    var k := SummarySource(cases, ordered, s);
    forall i | 0 <= i < |cases|
      ensures !CaseValues(cases, s.metric)[i].Errored?
    {
      assert run.cases[i].status.CaseCompleted?;
      CompletedHasValues(ordered, b, dataset.cases[i].caseId, k, s.metric);
    }
    NoErrorsCounted(CaseValues(cases, s.metric));
  }
}
