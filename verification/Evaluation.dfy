/** Datasets, per-case evidence and coverage-aware aggregates. Numbers are exact reals. */
module Evaluation {
  import opened Common
  import opened Ordering

  datatype ArtifactKind = DatasetArtifact | TargetArtifact | EvaluatorArtifact

  datatype Ref = Ref(kind: ArtifactKind, name: string, revision: int, digest: Option<string>)

  function KindName(kind: ArtifactKind): string {
    match kind
    case DatasetArtifact => "dataset"
    case TargetArtifact => "target"
    case EvaluatorArtifact => "evaluator"
  }

  function LogicalKey(ref: Ref): Key {
    [Text(KindName(ref.kind)), Text(ref.name), Num(ref.revision)]
  }

  /** What one evaluator metric found on one case. */
  datatype Score = Scored(value: real) | Skipped | Errored

  datatype Observation = Observation(metric: string, evaluator: Ref, score: Score)

  datatype CaseStatus = CaseCompleted | TargetFailed | CompletedWithErrors

  datatype FailureCode = EvaluatorException | InvalidEvaluatorOutput

  datatype Failure = Failure(evaluator: Ref, code: FailureCode)

  datatype CaseResult = CaseResult(
    caseId: string, status: CaseStatus, observations: seq<Observation>, failures: seq<Failure>)

  datatype EvaluationCase = EvaluationCase(caseId: string, slices: seq<string>)

  datatype Dataset = Dataset(ref: Ref, cases: seq<EvaluationCase>)

  datatype ExecutionMode = OfflineFixture | OfflineMock | Live

  datatype Aggregate = Aggregate(attempted: int, scored: int, skipped: int, errors: int, mean: Option<real>)

  datatype Summary = Summary(metric: string, evaluator: Ref, tally: Aggregate)

  datatype RunResult = RunResult(
    runId: string, dataset: Ref, target: Ref, evaluators: seq<Ref>,
    cases: seq<CaseResult>, metrics: seq<Summary>, mode: ExecutionMode, completed: bool)

  /** What a dataset version guarantees of its cases: some, in strictly ascending identity. */
  ghost predicate ValidDataset(d: Dataset) {
    && d.cases != []
    && forall i, j :: 0 <= i < j < |d.cases| ==> TextLess(d.cases[i].caseId, d.cases[j].caseId)
  }

  predicate Unique<T(==)>(xs: seq<T>) {
    forall i, j :: 0 <= i < j < |xs| ==> xs[i] != xs[j]
  }

  /** Names are unique exactly when there are as many different ones as names. */
  lemma {:induction false} NamesSize(names: seq<string>)
    ensures |set s | s in names| <= |names|
    ensures Unique(names) <==> |set s | s in names| == |names|
    decreases |names|
  {
    if names != [] {
      var rest := names[1..];
      NamesSize(rest);
      assert (set s | s in names) == (set s | s in rest) + {names[0]};
      UniqueCons(names);
    }
  }

  lemma UniqueCons(names: seq<string>)
    requires names != []
    ensures Unique(names) <==> Unique(names[1..]) && names[0] !in names[1..]
  {
    if Unique(names) {
      forall i, j | 0 <= i < j < |names[1..]|
        ensures names[1..][i] != names[1..][j]
      {
        assert names[i + 1] != names[j + 1];
      }
    } else if names[0] !in names[1..] {
      var i, j :| 0 <= i < j < |names| && names[i] == names[j];
      assert names[j] == names[1..][j - 1];
      assert names[1..][i - 1] == names[1..][j - 1];
    }
  }

  // ---------------------------------------------------------------- tallies

  function Scores(outcomes: seq<Score>): (values: seq<real>)
    ensures |values| <= |outcomes|
    decreases |outcomes|
  {
    if outcomes == [] then []
    else
      var n := |outcomes| - 1;
      Scores(outcomes[..n]) + (if outcomes[n].Scored? then [outcomes[n].value] else [])
  }

  function CountSkipped(outcomes: seq<Score>): nat
    decreases |outcomes|
  {
    if outcomes == [] then 0
    else
      var n := |outcomes| - 1;
      CountSkipped(outcomes[..n]) + (if outcomes[n].Skipped? then 1 else 0)
  }

  function CountErrors(outcomes: seq<Score>): nat
    decreases |outcomes|
  {
    if outcomes == [] then 0
    else
      var n := |outcomes| - 1;
      CountErrors(outcomes[..n]) + (if outcomes[n].Errored? then 1 else 0)
  }

  function Sum(values: seq<real>): real
    decreases |values|
  {
    if values == [] then 0.0 else Sum(values[..|values| - 1]) + values[|values| - 1]
  }

  function Mean(values: seq<real>): Option<real> {
    if values == [] then None else Some(Sum(values) / |values| as real)
  }

  function Tally(outcomes: seq<Score>): Aggregate {
    Aggregate(|outcomes|, |Scores(outcomes)|, CountSkipped(outcomes), CountErrors(outcomes), Mean(Scores(outcomes)))
  }

  /** The validator of every stored aggregate accepts a tally of at least one case. */
  predicate ValidAggregate(a: Aggregate) {
    && 1 <= a.attempted && 0 <= a.scored && 0 <= a.skipped && 0 <= a.errors
    && a.attempted == a.scored + a.skipped + a.errors
    && (a.scored == 0 <==> a.mean.None?)
  }

  lemma {:induction false} TallyCounts(outcomes: seq<Score>)
    ensures |outcomes| == |Scores(outcomes)| + CountSkipped(outcomes) + CountErrors(outcomes)
    decreases |outcomes|
  {
    if outcomes != [] {
      TallyCounts(outcomes[..|outcomes| - 1]);
    }
  }

  lemma TallyValid(outcomes: seq<Score>)
    requires outcomes != []
    ensures ValidAggregate(Tally(outcomes))
  {
    TallyCounts(outcomes);
  }

  lemma {:induction false} NoErrorsCounted(outcomes: seq<Score>)
    ensures CountErrors(outcomes) == 0 <==> forall i :: 0 <= i < |outcomes| ==> !outcomes[i].Errored?
    decreases |outcomes|
  {
    if outcomes != [] {
      var n := |outcomes| - 1;
      NoErrorsCounted(outcomes[..n]);
      assert outcomes == outcomes[..n] + [outcomes[n]];
    }
  }

  // ---------------------------------------------------------------- one metric on one case

  /** The first observation of a metric decides; none at all is an error. */
  function FirstScore(observations: seq<Observation>, metric: string): Score {
    if observations == [] then Errored
    else if observations[0].metric == metric then observations[0].score
    else FirstScore(observations[1..], metric)
  }

  /** The comparison's reading of a case: by metric name alone. */
  function CaseValue(c: CaseResult, metric: string): Score {
    if c.status.TargetFailed? then Errored else FirstScore(c.observations, metric)
  }

  function CaseValues(cases: seq<CaseResult>, metric: string): (r: seq<Score>)
    ensures |r| == |cases|
    ensures forall i :: 0 <= i < |r| ==> r[i] == CaseValue(cases[i], metric)
  {
    seq(|cases|, i requires 0 <= i < |cases| => CaseValue(cases[i], metric))
  }
}
