/** What a stored case and a stored summary say, in terms of what the target and the evaluators did
    and of the evidence itself, without the functions that compute them. */
module Readings {
  import opened Common
  import opened Ordering
  import opened Evaluation
  import opened Runner

  // ---------------------------------------------------------------- what the behaviour says

  predicate SameReference(a: Ref, b: Ref) {
    a.kind == b.kind && a.name == b.name && a.revision == b.revision && a.digest == b.digest
  }

  predicate Names(observations: seq<Observation>, metric: string) {
    exists i :: 0 <= i < |observations| && observations[i].metric == metric
  }

  /** An output in order: every declared metric is observed, nothing else is, and each observation
      carries the evaluator's own reference. */
  predicate InOrder(e: Evaluator, observations: seq<Observation>) {
    && (forall m :: m in e.metrics ==> Names(observations, m))
    && (forall i :: 0 <= i < |observations| ==>
          observations[i].metric in e.metrics && SameReference(observations[i].evaluator, e.ref))
  }

  /** What the evaluator observed on a case, if anything. */
  function OutputOf(e: Evaluator, b: Behaviour, caseId: string): seq<Observation> {
    match b.evaluate(e.ref, caseId)
    case Produced(observations) => observations
    case _ => []
  }

  /** The evaluator answered on this case with an output in order. */
  predicate Delivered(e: Evaluator, b: Behaviour, caseId: string) {
    b.evaluate(e.ref, caseId).Produced? && InOrder(e, OutputOf(e, b, caseId))
  }

  /** One of the observations it delivered for a metric has this score. */
  predicate Gave(e: Evaluator, b: Behaviour, caseId: string, metric: string, score: Score) {
    Delivered(e, b, caseId) &&
    exists o :: o in OutputOf(e, b, caseId) && o.metric == metric && o.score == score
  }

  /** The case counts as an error for the metric: no answer of the target, nothing delivered by the
      evaluator, or an error it observed. */
  predicate CountsAsError(e: Evaluator, b: Behaviour, caseId: string, metric: string) {
    b.target(caseId) != Responded || !Delivered(e, b, caseId) || Gave(e, b, caseId, metric, Errored)
  }

  predicate CountsAsSkipped(e: Evaluator, b: Behaviour, caseId: string, metric: string) {
    b.target(caseId) == Responded && Gave(e, b, caseId, metric, Skipped)
  }

  predicate CountsAs(e: Evaluator, b: Behaviour, caseId: string, metric: string, value: real) {
    b.target(caseId) == Responded && Gave(e, b, caseId, metric, Scored(value))
  }

  predicate CountsAsScored(e: Evaluator, b: Behaviour, caseId: string, metric: string) {
    b.target(caseId) == Responded && Delivered(e, b, caseId)
    && exists o :: o in OutputOf(e, b, caseId) && o.metric == metric && o.score.Scored?
  }

  // ---------------------------------------------------------------- references and outputs

  lemma SameKeyMeans(a: Ref, b: Ref)
    ensures LogicalKey(a) == LogicalKey(b) && a.digest == b.digest <==> SameReference(a, b)
  {
    var x, y := LogicalKey(a), LogicalKey(b);
    assert x == [x[0], x[1], x[2]] && y == [y[0], y[1], y[2]];
    KindNamesDiffer(a.kind, b.kind);
  }

  lemma KindNamesDiffer(a: ArtifactKind, b: ArtifactKind)
    ensures KindName(a) == KindName(b) <==> a == b
  {
    assert |KindName(DatasetArtifact)| == 7 && |KindName(TargetArtifact)| == 6 && |KindName(EvaluatorArtifact)| == 9;
  }

  lemma CoveringMeans(e: Evaluator, observations: seq<Observation>)
    ensures Covering(e, observations) <==> InOrder(e, observations)
  {
    hide LogicalKey, SameReference;
    forall i | 0 <= i < |observations|
      ensures LogicalKey(observations[i].evaluator) == EvaluatorKey(e)
              && observations[i].evaluator.digest == e.ref.digest
              <==> SameReference(observations[i].evaluator, e.ref)
    {
      SameKeyMeans(observations[i].evaluator, e.ref);
    }
    if Covering(e, observations) {
      forall m | m in e.metrics
        ensures Names(observations, m)
      {
        assert m in NameSet(e.metrics);
        assert m in MetricSet(observations);
      }
      forall i | 0 <= i < |observations|
        ensures observations[i].metric in e.metrics
      {
        assert observations[i].metric in MetricSet(observations);
        assert observations[i].metric in NameSet(e.metrics);
      }
    }
    if InOrder(e, observations) {
      forall m
        ensures m in MetricSet(observations) <==> m in NameSet(e.metrics)
      {
        if m in NameSet(e.metrics) {
          assert m in e.metrics;
          assert Names(observations, m);
        }
      }
    }
  }

  lemma AcceptedMeans(e: Evaluator, b: Behaviour, caseId: string)
    ensures Accepted(e, b.evaluate(e.ref, caseId)) <==> Delivered(e, b, caseId)
  {
    hide Covering, InOrder;
    if b.evaluate(e.ref, caseId).Produced? {
      CoveringMeans(e, b.evaluate(e.ref, caseId).observations);
    }
  }

  // ---------------------------------------------------------------- the evidence of a case

  lemma {:induction false} ObservedMembers(evaluators: seq<Evaluator>, b: Behaviour, caseId: string, o: Observation)
    ensures o in Observed(evaluators, b, caseId) <==>
              exists k :: 0 <= k < |evaluators| && Delivered(evaluators[k], b, caseId)
                          && o in OutputOf(evaluators[k], b, caseId)
    decreases |evaluators|
  {
    hide SortBy, Accepted, Delivered;
    if evaluators != [] {
      var n := |evaluators| - 1;
      ObservedMembers(evaluators[..n], b, caseId, o);
      AcceptedMeans(evaluators[n], b, caseId);
      ProducedIfDelivered(evaluators[n], b, caseId);
      if Delivered(evaluators[n], b, caseId) {
        SortMembers(OutputOf(evaluators[n], b, caseId), ObservationKey);
      }
      if o in Observed(evaluators[..n], b, caseId) {
        var k :| 0 <= k < n && Delivered(evaluators[..n][k], b, caseId)
                 && o in OutputOf(evaluators[..n][k], b, caseId);
        assert Delivered(evaluators[k], b, caseId);
      }
      forall k | 0 <= k < |evaluators| && Delivered(evaluators[k], b, caseId)
                 && o in OutputOf(evaluators[k], b, caseId)
        ensures o in Observed(evaluators, b, caseId)
      {
        if k < n {
          assert Delivered(evaluators[..n][k], b, caseId);
        }
      }
    }
  }

  lemma ProducedIfDelivered(e: Evaluator, b: Behaviour, caseId: string)
    ensures Delivered(e, b, caseId) ==> b.evaluate(e.ref, caseId).Produced?
  {
  }

  /** How a missing delivery is recorded. */
  function FailureFor(e: Evaluator, b: Behaviour, caseId: string): Failure {
    Failure(e.ref, if b.evaluate(e.ref, caseId) == EvaluatorRaised then EvaluatorException else InvalidEvaluatorOutput)
  }

  lemma {:induction false} FailureMembers(evaluators: seq<Evaluator>, b: Behaviour, caseId: string, f: Failure)
    ensures f in Failures(evaluators, b, caseId) <==>
              exists k :: 0 <= k < |evaluators| && !Delivered(evaluators[k], b, caseId)
                          && f == FailureFor(evaluators[k], b, caseId)
    decreases |evaluators|
  {
    hide Accepted, Delivered;
    if evaluators != [] {
      var n := |evaluators| - 1;
      FailureMembers(evaluators[..n], b, caseId, f);
      AcceptedMeans(evaluators[n], b, caseId);
      if f in Failures(evaluators[..n], b, caseId) {
        var k :| 0 <= k < n && !Delivered(evaluators[..n][k], b, caseId)
                 && f == FailureFor(evaluators[..n][k], b, caseId);
        assert !Delivered(evaluators[k], b, caseId);
      }
      forall k | 0 <= k < |evaluators| && !Delivered(evaluators[k], b, caseId)
                 && f == FailureFor(evaluators[k], b, caseId)
        ensures f in Failures(evaluators, b, caseId)
      {
        if k < n {
          assert !Delivered(evaluators[..n][k], b, caseId);
        }
      }
    }
  }

  /** The evidence of a case, member by member: exactly the delivered observations and exactly the
      missing deliveries, each under its evaluator; failed exactly when the target gave no answer,
      and with errors exactly when a delivery is missing or an observation is an error. */
  lemma CaseEvidence(evaluators: seq<Evaluator>, b: Behaviour, caseId: string)
    ensures
      var c := CaseOf(evaluators, b, caseId);
      && c.caseId == caseId
      && (c.status == TargetFailed <==> b.target(caseId) != Responded)
      && (b.target(caseId) != Responded ==> c.observations == [] && c.failures == [])
      && (b.target(caseId) == Responded ==>
            && (forall o :: o in c.observations <==>
                  exists k :: 0 <= k < |evaluators| && Delivered(evaluators[k], b, caseId)
                              && o in OutputOf(evaluators[k], b, caseId))
            && (forall f :: f in c.failures <==>
                  exists k :: 0 <= k < |evaluators| && !Delivered(evaluators[k], b, caseId)
                              && f == FailureFor(evaluators[k], b, caseId))
            && (c.status == CompletedWithErrors <==>
                  || (exists k :: 0 <= k < |evaluators| && !Delivered(evaluators[k], b, caseId))
                  || (exists o :: o in c.observations && o.score.Errored?)))
  {
    hide Observed, Failures, Delivered;
    var c := CaseOf(evaluators, b, caseId);
    forall o
      ensures o in Observed(evaluators, b, caseId) <==>
                exists k :: 0 <= k < |evaluators| && Delivered(evaluators[k], b, caseId)
                            && o in OutputOf(evaluators[k], b, caseId)
    {
      ObservedMembers(evaluators, b, caseId, o);
    }
    forall f
      ensures f in Failures(evaluators, b, caseId) <==>
                exists k :: 0 <= k < |evaluators| && !Delivered(evaluators[k], b, caseId)
                            && f == FailureFor(evaluators[k], b, caseId)
    {
      FailureMembers(evaluators, b, caseId, f);
    }
    if b.target(caseId) == Responded {
      SomeFailure(evaluators, b, caseId, c);
    }
  }

  lemma SomeFailure(evaluators: seq<Evaluator>, b: Behaviour, caseId: string, c: CaseResult)
    requires b.target(caseId) == Responded && c == CaseOf(evaluators, b, caseId)
    requires forall f :: f in c.failures <==>
               exists k :: 0 <= k < |evaluators| && !Delivered(evaluators[k], b, caseId)
                           && f == FailureFor(evaluators[k], b, caseId)
    ensures c.failures != [] <==> exists k :: 0 <= k < |evaluators| && !Delivered(evaluators[k], b, caseId)
    ensures AnyError(c.observations) <==> exists o :: o in c.observations && o.score.Errored?
  {
    hide Delivered, CaseOf;
    if c.failures != [] {
      assert c.failures[0] in c.failures;
    }
    forall k | 0 <= k < |evaluators| && !Delivered(evaluators[k], b, caseId)
      ensures c.failures != []
    {
      assert FailureFor(evaluators[k], b, caseId) in c.failures;
    }
    if AnyError(c.observations) {
      var i :| 0 <= i < |c.observations| && c.observations[i].score.Errored?;
      assert c.observations[i] in c.observations;
    }
  }

  // ---------------------------------------------------------------- what a case counts as

  lemma {:induction false} FirstScoreMember(observations: seq<Observation>, metric: string) returns (o: Observation)
    requires exists p :: p in observations && p.metric == metric
    ensures o in observations && o.metric == metric && FirstScore(observations, metric) == o.score
    decreases |observations|
  {
    if observations[0].metric == metric {
      o := observations[0];
    } else {
      var p :| p in observations && p.metric == metric;
      assert p in observations[1..];
      o := FirstScoreMember(observations[1..], metric);
    }
  }

  lemma MetricsApart(observations: seq<Observation>, i: int, j: int)
    requires UniqueMetrics(observations) && 0 <= i < j < |observations|
    ensures observations[i].metric != observations[j].metric
  {
  }

  lemma SameObservation(observations: seq<Observation>, o: Observation, p: Observation)
    requires |observations| == |MetricSet(observations)|
    requires o in observations && p in observations && o.metric == p.metric
    ensures o == p
  {
    hide UniqueMetrics, MetricSet;
    MetricSetSize(observations);
    var i :| 0 <= i < |observations| && observations[i] == o;
    var j :| 0 <= j < |observations| && observations[j] == p;
    if i < j {
      MetricsApart(observations, i, j);
    } else if j < i {
      MetricsApart(observations, j, i);
    }
  }

  /** What its owner delivered for a metric is the only observation of it on the case. */
  lemma OwnedObservation(target: Ref, evaluators: seq<Evaluator>, b: Behaviour, caseId: string, k: int, o: Observation)
    requires ValidPlan(target, evaluators) && b.target(caseId) == Responded
    requires 0 <= k < |evaluators| && o.metric in evaluators[k].metrics
    ensures o in CaseOf(evaluators, b, caseId).observations
            <==> Delivered(evaluators[k], b, caseId) && o in OutputOf(evaluators[k], b, caseId)
  {
    hide Observed, Failures, SameReference, AnyError, Unique, ResolvedEvaluator, UniqueKeys;
    ObservedMembers(evaluators, b, caseId, o);
    if o in CaseOf(evaluators, b, caseId).observations {
      var l :| 0 <= l < |evaluators| && Delivered(evaluators[l], b, caseId) && o in OutputOf(evaluators[l], b, caseId);
      MetricOwner(evaluators, k, l, o.metric);
    }
  }

  /** On every case of a valid plan whose evidence is accepted, the comparison's reading of a metric
      is an error, skipped or a value exactly as its owning evaluator and the target behaved. */
  lemma ReadingFromBehaviour(target: Ref, evaluators: seq<Evaluator>, b: Behaviour, caseId: string, k: int,
                             metric: string)
    requires ValidPlan(target, evaluators)
    requires b.target(caseId) == Responded ==> NoRepeats(evaluators, b, caseId)
    requires 0 <= k < |evaluators| && metric in evaluators[k].metrics
    ensures
      var e, value := evaluators[k], CaseValue(CaseOf(evaluators, b, caseId), metric);
      && (value == Errored <==> CountsAsError(e, b, caseId, metric))
      && (value == Skipped <==> CountsAsSkipped(e, b, caseId, metric))
      && (value.Scored? <==> CountsAsScored(e, b, caseId, metric))
      && (forall x :: value == Scored(x) <==> CountsAs(e, b, caseId, metric, x))
  {
    hide ValidPlan, Observed, Failures, Delivered, NoRepeats, FirstScore;
    var e, c := evaluators[k], CaseOf(evaluators, b, caseId);
    if b.target(caseId) == Responded {
      if Delivered(e, b, caseId) {
        var o := DeliveredFor(e, b, caseId, metric);
        OwnedObservation(target, evaluators, b, caseId, k, o);
        var p := FirstScoreMember(c.observations, metric);
        OwnedObservation(target, evaluators, b, caseId, k, p);
        OutputUnique(evaluators, b, caseId, k);
        SameObservation(OutputOf(e, b, caseId), o, p);
        forall q | q in OutputOf(e, b, caseId) && q.metric == metric
          ensures q == o
        {
          SameObservation(OutputOf(e, b, caseId), o, q);
        }
      } else {
        forall o | o in c.observations
          ensures o.metric != metric
        {
          if o.metric == metric {
            OwnedObservation(target, evaluators, b, caseId, k, o);
          }
        }
        FirstScoreAbsent(c.observations, metric);
      }
    }
  }

  lemma DeliveredFor(e: Evaluator, b: Behaviour, caseId: string, metric: string) returns (o: Observation)
    requires Delivered(e, b, caseId) && metric in e.metrics
    ensures o in OutputOf(e, b, caseId) && o.metric == metric
  {
    var observations := OutputOf(e, b, caseId);
    assert Names(observations, metric);
    var i :| 0 <= i < |observations| && observations[i].metric == metric;
    o := observations[i];
  }

  lemma OutputUnique(evaluators: seq<Evaluator>, b: Behaviour, caseId: string, k: int)
    requires NoRepeats(evaluators, b, caseId) && 0 <= k < |evaluators| && Delivered(evaluators[k], b, caseId)
    ensures |OutputOf(evaluators[k], b, caseId)| == |MetricSet(OutputOf(evaluators[k], b, caseId))|
  {
    hide Delivered, MetricSet, Covering;
    AcceptedMeans(evaluators[k], b, caseId);
    assert NoRepeat(evaluators[k], b.evaluate(evaluators[k].ref, caseId));
  }

  // ---------------------------------------------------------------- what a summary counts

  /** The positions at which a reading has a kind. */
  function ErrorsIn(values: seq<Score>): set<int> {
    set i | 0 <= i < |values| && values[i] == Errored
  }

  function SkipsIn(values: seq<Score>): set<int> {
    set i | 0 <= i < |values| && values[i] == Skipped
  }

  function ScoresIn(values: seq<Score>): set<int> {
    set i | 0 <= i < |values| && values[i].Scored?
  }

  /** The sum of the values scored. */
  function TotalOf(values: seq<Score>): real
    decreases |values|
  {
    if values == [] then 0.0
    else
      var n := |values| - 1;
      TotalOf(values[..n]) + (if values[n].Scored? then values[n].value else 0.0)
  }

  lemma {:induction false} CountsErrors(values: seq<Score>)
    ensures CountErrors(values) == |ErrorsIn(values)|
    decreases |values|
  {
    if values != [] {
      var n := |values| - 1;
      CountsErrors(values[..n]);
      assert ErrorsIn(values) == ErrorsIn(values[..n]) + (if values[n] == Errored then {n} else {});
    }
  }

  lemma {:induction false} CountsSkips(values: seq<Score>)
    ensures CountSkipped(values) == |SkipsIn(values)|
    decreases |values|
  {
    if values != [] {
      var n := |values| - 1;
      CountsSkips(values[..n]);
      assert SkipsIn(values) == SkipsIn(values[..n]) + (if values[n] == Skipped then {n} else {});
    }
  }

  lemma {:induction false} CountsScores(values: seq<Score>)
    ensures |Scores(values)| == |ScoresIn(values)|
    decreases |values|
  {
    if values != [] {
      var n := |values| - 1;
      CountsScores(values[..n]);
      assert ScoresIn(values) == ScoresIn(values[..n]) + (if values[n].Scored? then {n} else {});
    }
  }

  lemma SumLast(values: seq<real>, last: real)
    ensures Sum(values + [last]) == Sum(values) + last
  {
    assert (values + [last])[..|values|] == values;
  }

  lemma {:induction false} SumsScores(values: seq<Score>)
    ensures Sum(Scores(values)) == TotalOf(values)
    decreases |values|
  {
    hide Sum;
    if values == [] {
      NothingToSum();
    } else {
      var n := |values| - 1;
      SumsScores(values[..n]);
      if values[n].Scored? {
        SumLast(Scores(values[..n]), values[n].value);
      } else {
        assert Scores(values) == Scores(values[..n]);
      }
    }
  }

  lemma NothingToSum()
    ensures Sum([]) == 0.0
  {
  }

  /** A tally counts positions, and its mean is the total over the positions scored. */
  lemma TallyMeans(values: seq<Score>)
    ensures
      var a := Tally(values);
      && a.attempted == |values| && a.errors == |ErrorsIn(values)| && a.skipped == |SkipsIn(values)|
      && a.scored == |ScoresIn(values)|
      && a.mean == (if ScoresIn(values) == {} then None else Some(TotalOf(values) / |ScoresIn(values)| as real))
  {
    hide ErrorsIn, SkipsIn, ScoresIn, Scores, CountErrors, CountSkipped, Sum, TotalOf;
    CountsErrors(values);
    CountsSkips(values);
    CountsScores(values);
    SumsScores(values);
  }

  // The cases of a dataset that count as each kind, by behaviour alone.

  function ErrorCases(d: Dataset, e: Evaluator, b: Behaviour, metric: string): set<int> {
    set i | 0 <= i < |d.cases| && CountsAsError(e, b, d.cases[i].caseId, metric)
  }

  function SkippedCases(d: Dataset, e: Evaluator, b: Behaviour, metric: string): set<int> {
    set i | 0 <= i < |d.cases| && CountsAsSkipped(e, b, d.cases[i].caseId, metric)
  }

  function ScoredCases(d: Dataset, e: Evaluator, b: Behaviour, metric: string): set<int> {
    set i | 0 <= i < |d.cases| && CountsAsScored(e, b, d.cases[i].caseId, metric)
  }

  /** Each case counts as this outcome by its behaviour. */
  ghost predicate Outcomes(d: Dataset, e: Evaluator, b: Behaviour, metric: string, values: seq<Score>) {
    && |values| == |d.cases|
    && (forall i :: 0 <= i < |values| ==> (values[i] == Errored <==> CountsAsError(e, b, d.cases[i].caseId, metric)))
    && (forall i :: 0 <= i < |values| ==> (values[i] == Skipped <==> CountsAsSkipped(e, b, d.cases[i].caseId, metric)))
    && (forall i :: 0 <= i < |values| ==> (values[i].Scored? <==> CountsAsScored(e, b, d.cases[i].caseId, metric)))
    && (forall i :: 0 <= i < |values| && values[i].Scored? ==>
          CountsAs(e, b, d.cases[i].caseId, metric, values[i].value))
  }

  /** A tally of a dataset by behaviour: it counts exactly the cases whose target or evaluator gave no
      answer or observed an error, those skipped and those scored; its mean is the total scored over
      their number. */
  ghost predicate Summarizes(a: Aggregate, d: Dataset, e: Evaluator, b: Behaviour, metric: string) {
    && a.attempted == |d.cases|
    && a.errors == |ErrorCases(d, e, b, metric)|
    && a.skipped == |SkippedCases(d, e, b, metric)|
    && a.scored == |ScoredCases(d, e, b, metric)|
    && match a.mean
       case None => a.scored == 0
       case Some(mean) => a.scored > 0 && exists values ::
         Outcomes(d, e, b, metric, values) && mean == TotalOf(values) / a.scored as real
  }

  lemma OutcomesSummarized(d: Dataset, e: Evaluator, b: Behaviour, metric: string, values: seq<Score>)
    requires Outcomes(d, e, b, metric, values)
    ensures Summarizes(Tally(values), d, e, b, metric)
  {
    hide Tally, CountsAsError, CountsAsSkipped, CountsAsScored, CountsAs, TotalOf;
    TallyMeans(values);
    assert ErrorsIn(values) == ErrorCases(d, e, b, metric);
    assert SkipsIn(values) == SkippedCases(d, e, b, metric);
    assert ScoresIn(values) == ScoredCases(d, e, b, metric);
  }

  /** Each stored summary of a run belongs to a metric of an evaluator of the plan, under that
      evaluator's reference, and counts the cases by what the target and that evaluator did. */
  lemma SummaryCounts(runId: string, d: Dataset, target: Ref, evaluators: seq<Evaluator>, b: Behaviour,
                      mode: ExecutionMode, s: Summary) returns (e: Evaluator)
    requires ValidDataset(d) && RunOf(runId, d, target, evaluators, b, mode).Ok?
    requires s in RunOf(runId, d, target, evaluators, b, mode).value.metrics
    ensures e in evaluators && s.metric in e.metrics && s.evaluator == e.ref
    ensures Summarizes(s.tally, d, e, b, s.metric)
  {
    hide ValidPlan, RunOf, CaseValue, CaseOf, Tally, ValidDataset, Summaries, SummaryValue, CountsAsError,
      CountsAsSkipped, CountsAsScored, CountsAs, NoRepeats, Summarizes;
    var ordered := SortBy(evaluators, EvaluatorKey);
    var cases := Results(d.cases, ordered, b);
    RunMetrics(runId, d, target, evaluators, b, mode);
    RunCases(runId, d, target, evaluators, b, mode);
    StoredSummariesAgree(runId, d, target, evaluators, b, mode, s);
    SortMembers(Summaries(cases, ordered), SummaryKey);
    SortMembers(evaluators, EvaluatorKey);
    var k := SummarySource(cases, ordered, s);
    e := ordered[k];
    var values := CaseValues(cases, s.metric);
    forall i | 0 <= i < |d.cases|
      ensures values[i] == Errored <==> CountsAsError(e, b, d.cases[i].caseId, s.metric)
      ensures values[i] == Skipped <==> CountsAsSkipped(e, b, d.cases[i].caseId, s.metric)
      ensures values[i].Scored? <==> CountsAsScored(e, b, d.cases[i].caseId, s.metric)
      ensures values[i].Scored? ==> CountsAs(e, b, d.cases[i].caseId, s.metric, values[i].value)
    {
      StoredNoRepeats(runId, d, target, evaluators, b, mode, i);
      ReadingFromBehaviour(target, ordered, b, d.cases[i].caseId, k, s.metric);
    }
    OutcomesSummarized(d, e, b, s.metric, values);
  }

  /** And no metric of the plan goes without a summary. */
  lemma EveryMetricStored(runId: string, d: Dataset, target: Ref, evaluators: seq<Evaluator>, b: Behaviour,
                          mode: ExecutionMode, e: Evaluator, metric: string)
    requires RunOf(runId, d, target, evaluators, b, mode).Ok? && e in evaluators && metric in e.metrics
    ensures exists s :: s in RunOf(runId, d, target, evaluators, b, mode).value.metrics
                        && s.metric == metric && s.evaluator == e.ref
  {
    hide ValidPlan, RunOf, CaseOf, Tally, Summaries, SummaryValue;
    var ordered := SortBy(evaluators, EvaluatorKey);
    var cases := Results(d.cases, ordered, b);
    RunMetrics(runId, d, target, evaluators, b, mode);
    SortMembers(Summaries(cases, ordered), SummaryKey);
    SortMembers(evaluators, EvaluatorKey);
    var k :| 0 <= k < |ordered| && ordered[k] == e;
    MetricSummarized(cases, ordered, k, metric);
  }

  /** Evidence that was stored repeats no metric; where the target did not answer there is nothing
      to repeat it. */
  lemma StoredNoRepeats(runId: string, d: Dataset, target: Ref, evaluators: seq<Evaluator>, b: Behaviour,
                        mode: ExecutionMode, i: int)
    requires RunOf(runId, d, target, evaluators, b, mode).Ok? && 0 <= i < |d.cases|
    ensures b.target(d.cases[i].caseId) == Responded ==>
              NoRepeats(SortBy(evaluators, EvaluatorKey), b, d.cases[i].caseId)
  {
    hide RunOf, NoRepeats, SortBy, ValidPlan;
    EvidenceRejectedIff(runId, d, target, evaluators, b, mode);
    RunMetrics(runId, d, target, evaluators, b, mode);
  }

  // ---------------------------------------------------------------- which plans are accepted

  predicate SoundEvaluator(e: Evaluator) {
    && e.ref.kind == EvaluatorArtifact && e.ref.digest != None && |e.metrics| > 0
    && forall a, b :: 0 <= a < b < |e.metrics| ==> e.metrics[a] != e.metrics[b]
  }

  /** Two evaluators are different revisions or names and have no metric in common. */
  predicate Apart(e: Evaluator, f: Evaluator) {
    (e.ref.name != f.ref.name || e.ref.revision != f.ref.revision) && forall m :: m in e.metrics ==> m !in f.metrics
  }

  predicate SoundPlan(target: Ref, evaluators: seq<Evaluator>) {
    && target.kind == TargetArtifact && target.digest != None && |evaluators| > 0
    && (forall i :: 0 <= i < |evaluators| ==> SoundEvaluator(evaluators[i]))
    && forall i, j :: 0 <= i < j < |evaluators| ==> Apart(evaluators[i], evaluators[j])
  }

  lemma {:induction false} MetricAt(evaluators: seq<Evaluator>, p: int) returns (k: int, a: int)
    requires 0 <= p < |AllMetrics(evaluators)|
    ensures 0 <= k < |evaluators| && 0 <= a < |evaluators[k].metrics|
    ensures AllMetrics(evaluators)[p] == evaluators[k].metrics[a] && p == |AllMetrics(evaluators[..k])| + a
    decreases |evaluators|
  {
    var n := |evaluators| - 1;
    var before := |AllMetrics(evaluators[..n])|;
    if p < before {
      k, a := MetricAt(evaluators[..n], p);
      assert evaluators[..n][..k] == evaluators[..k];
    } else {
      k, a := n, p - before;
    }
  }

  lemma ApartMeansUnique(evaluators: seq<Evaluator>)
    requires forall i :: 0 <= i < |evaluators| ==> SoundEvaluator(evaluators[i])
    requires forall i, j :: 0 <= i < j < |evaluators| ==> Apart(evaluators[i], evaluators[j])
    ensures Unique(AllMetrics(evaluators))
  {
    forall p, q | 0 <= p < q < |AllMetrics(evaluators)|
      ensures AllMetrics(evaluators)[p] != AllMetrics(evaluators)[q]
    {
      var k, a := MetricAt(evaluators, p);
      var l, b := MetricAt(evaluators, q);
      if k == l {
        assert SoundEvaluator(evaluators[k]);
      } else if k < l {
        assert Apart(evaluators[k], evaluators[l]);
        assert evaluators[k].metrics[a] in evaluators[k].metrics;
      } else {
        assert Apart(evaluators[l], evaluators[k]);
        assert evaluators[l].metrics[b] in evaluators[l].metrics;
      }
    }
  }

  lemma NoSharedMetric(evaluators: seq<Evaluator>, i: int, j: int)
    requires Unique(AllMetrics(evaluators)) && 0 <= i < j < |evaluators|
    ensures forall m :: m in evaluators[i].metrics ==> m !in evaluators[j].metrics
  {
    hide Unique, AllMetrics;
    forall m | m in evaluators[i].metrics
      ensures m !in evaluators[j].metrics
    {
      if m in evaluators[j].metrics {
        MetricOwner(evaluators, i, j, m);
      }
    }
  }

  lemma KeysDiffer(e: Evaluator, f: Evaluator)
    requires e.ref.kind == f.ref.kind
    ensures EvaluatorKey(e) != EvaluatorKey(f) <==> e.ref.name != f.ref.name || e.ref.revision != f.ref.revision
  {
    assert EvaluatorKey(e)[1] == Text(e.ref.name) && EvaluatorKey(e)[2] == Num(e.ref.revision);
    assert EvaluatorKey(f)[1] == Text(f.ref.name) && EvaluatorKey(f)[2] == Num(f.ref.revision);
  }

  /** The plans a run accepts: a pinned target, and pinned evaluators of which each declares metrics
      and no two share a name and revision or a metric, nor one declares a metric twice. */
  lemma PlanAccepted(target: Ref, evaluators: seq<Evaluator>)
    ensures ValidPlan(target, evaluators) <==> SoundPlan(target, evaluators)
  {
    hide Unique, AllMetrics, EvaluatorKey;
    if ValidPlan(target, evaluators) {
      forall i | 0 <= i < |evaluators|
        ensures SoundEvaluator(evaluators[i])
      {
        OwnMetricsOnce(evaluators, i);
      }
      forall i, j | 0 <= i < j < |evaluators|
        ensures Apart(evaluators[i], evaluators[j])
      {
        NoSharedMetric(evaluators, i, j);
        KeysDiffer(evaluators[i], evaluators[j]);
      }
    }
    if SoundPlan(target, evaluators) {
      ApartMeansUnique(evaluators);
      forall i, j | 0 <= i < j < |evaluators|
        ensures EvaluatorKey(evaluators[i]) != EvaluatorKey(evaluators[j])
      {
        assert Apart(evaluators[i], evaluators[j]);
        KeysDiffer(evaluators[i], evaluators[j]);
      }
    }
  }

  lemma OwnMetricsOnce(evaluators: seq<Evaluator>, i: int)
    requires Unique(AllMetrics(evaluators)) && 0 <= i < |evaluators|
    ensures Unique(evaluators[i].metrics)
    ensures forall a, b :: 0 <= a < b < |evaluators[i].metrics| ==> evaluators[i].metrics[a] != evaluators[i].metrics[b]
  {
    hide AllMetrics;
    if !Unique(evaluators[i].metrics) {
      RepeatedMetric(evaluators, i);
    }
  }

  lemma PlanRejectedIff(runId: string, d: Dataset, target: Ref, evaluators: seq<Evaluator>, b: Behaviour,
                        mode: ExecutionMode)
    ensures RunOf(runId, d, target, evaluators, b, mode) == Err(PlanRejected)
            <==> !SoundPlan(target, SortBy(evaluators, EvaluatorKey))
  {
    hide ValidPlan, SoundPlan, AllValid, Results, Summaries, Created, SortBy;
    PlanAccepted(target, SortBy(evaluators, EvaluatorKey));
  }

  lemma RecordedReferences(evaluators: seq<Evaluator>, refs: seq<Ref>)
    requires
      var ordered := SortBy(evaluators, EvaluatorKey);
      |refs| == |ordered| && forall i :: 0 <= i < |refs| ==> refs[i] == ordered[i].ref
    ensures forall r :: r in refs <==> exists e :: e in evaluators && r == e.ref
  {
    hide SortBy;
    var ordered := SortBy(evaluators, EvaluatorKey);
    SortMembers(evaluators, EvaluatorKey);
    forall e | e in evaluators
      ensures e.ref in refs
    {
      var i :| 0 <= i < |ordered| && ordered[i] == e;
      assert refs[i] == e.ref;
    }
    forall r | r in refs
      ensures exists e :: e in evaluators && r == e.ref
    {
      var i :| 0 <= i < |refs| && refs[i] == r;
      assert ordered[i] in ordered;
    }
  }

  /** A run is refused for its plan exactly when the plan, its evaluators put in order, is not sound;
      a stored one records who ran what, the evaluators' references, and a case for each of the
      dataset's, under its identity and in its order. */
  lemma RunRecords(runId: string, d: Dataset, target: Ref, evaluators: seq<Evaluator>, b: Behaviour,
                   mode: ExecutionMode)
    requires ValidDataset(d)
    ensures
      match RunOf(runId, d, target, evaluators, b, mode)
      case Err(e) => e == PlanRejected <==> !SoundPlan(target, SortBy(evaluators, EvaluatorKey))
      case Ok(run) =>
        && SoundPlan(target, SortBy(evaluators, EvaluatorKey))
        && run.runId == runId && run.dataset == d.ref && run.target == target && run.mode == mode
        && |run.evaluators| == |evaluators|
        && (forall r :: r in run.evaluators <==> exists e :: e in evaluators && r == e.ref)
        && |run.cases| == |d.cases|
        && (forall i :: 0 <= i < |d.cases| ==>
              run.cases[i] == CaseOf(SortBy(evaluators, EvaluatorKey), b, d.cases[i].caseId))
  {
    hide ValidPlan, SoundPlan, CaseOf, AllValid, Summaries, ValidDataset, SortBy, NoFailures;
    PlanRejectedIff(runId, d, target, evaluators, b, mode);
    if RunOf(runId, d, target, evaluators, b, mode).Ok? {
      RunCases(runId, d, target, evaluators, b, mode);
      RecordedReferences(evaluators, RunOf(runId, d, target, evaluators, b, mode).value.evaluators);
    }
  }
}
