/** Laws of a release decision: swapping the two runs mirrors it, each gate accounts for every
    case of its scope once, and the aggregate delta is the mean of the case deltas. */
module Duality {
  import opened Common
  import opened Ordering
  import opened Evaluation
  import opened Comparison
  import opened Decisions

  // ---------------------------------------------------------------- swapping the two runs

  function Negated(d: Option<real>): Option<real> {
    if d.None? then None else Some(0.0 - d.value)
  }

  function SwapAggregate(a: AggregateComparison): AggregateComparison {
    a.(baseline := a.candidate, candidate := a.baseline, delta := Negated(a.delta))
  }

  function SwapChange(c: Change): Change {
    match c
    case NewlyPassing => NewlyFailing
    case NewlyFailing => NewlyPassing
    case _ => c
  }

  function SwapCase(c: CaseComparison): CaseComparison {
    c.(baseline := c.candidate, candidate := c.baseline, delta := Negated(c.delta),
       baselinePassed := c.candidatePassed, candidatePassed := c.baselinePassed, change := SwapChange(c.change))
  }

  function SwapInputs(x: Inputs): Inputs {
    Inputs(x.dataset, x.candidate, x.baseline)
  }

  function SwapSpec(spec: Spec): Spec
    requires spec.baseline.Some?
  {
    spec.(baseline := Some(spec.candidate), candidate := spec.baseline.value)
  }

  lemma AggregateSwaps(x: Inputs, evaluator: Ref, metric: string, slice: Option<string>)
    requires Aligned(x)
    ensures AggregateFor(SwapInputs(x), evaluator, metric, slice)
         == SwapAggregate(AggregateFor(x, evaluator, metric, slice))
  {
    hide SameCases, Tally, InScope;
  }

  lemma {:induction false} AggregatesSwap(x: Inputs, metrics: seq<string>, slices: seq<Option<string>>)
    requires Aligned(x) && SameEvaluators(x, metrics)
    ensures AllMeasured(x.baseline, metrics) && AllMeasured(x.candidate, metrics)
    ensures Aggregates(SwapInputs(x), metrics, slices) == Mapped(Aggregates(x, metrics, slices), SwapAggregate)
    decreases |metrics|
  {
    hide SameCases, AggregateFor, SwapAggregate;
    if metrics != [] {
      var n := |metrics| - 1;
      AggregatesSwap(x, metrics[..n], slices);
      var e := EvaluatorOf(x.baseline.metrics, metrics[n]);
      forall i | 0 <= i < |slices|
        ensures MetricAggregates(SwapInputs(x), metrics[n], slices)[i]
             == SwapAggregate(MetricAggregates(x, metrics[n], slices)[i])
      {
        AggregateSwaps(x, e, metrics[n], slices[i]);
      }
      assert MetricAggregates(SwapInputs(x), metrics[n], slices)
          == Mapped(MetricAggregates(x, metrics[n], slices), SwapAggregate);
      MappedConcat(Aggregates(x, metrics[..n], slices), MetricAggregates(x, metrics[n], slices), SwapAggregate);
    }
  }

  lemma {:induction false} LookupSwaps(aggregates: seq<AggregateComparison>, metric: string, slice: Option<string>)
    ensures
      var found := Lookup(aggregates, metric, slice);
      Lookup(Mapped(aggregates, SwapAggregate), metric, slice)
        == if found.None? then None else Some(SwapAggregate(found.value))
    decreases |aggregates|
  {
    if aggregates != [] {
      var n := |aggregates| - 1;
      LookupSwaps(aggregates[..n], metric, slice);
      assert Mapped(aggregates, SwapAggregate)[..n] == Mapped(aggregates[..n], SwapAggregate);
    }
  }

  lemma StoredMatchSwaps(metrics: seq<Summary>, aggregates: seq<AggregateComparison>, candidate: bool)
    ensures StoredMatch(metrics, Mapped(aggregates, SwapAggregate), !candidate)
            <==> StoredMatch(metrics, aggregates, candidate)
  {
    hide Lookup, Mapped;
    forall i | 0 <= i < |metrics|
      ensures
        var a := Lookup(aggregates, metrics[i].metric, None);
        var b := Lookup(Mapped(aggregates, SwapAggregate), metrics[i].metric, None);
        (a.Some? <==> b.Some?) && (a.Some? ==> b.value == SwapAggregate(a.value))
    {
      LookupSwaps(aggregates, metrics[i].metric, None);
    }
  }

  lemma CompareCaseSwaps(c: EvaluationCase, g: Gate, baseline: Score, candidate: Score)
    ensures CompareCase(c, g, candidate, baseline) == SwapCase(CompareCase(c, g, baseline, candidate))
  {
    hide Passes;
  }

  lemma GateCasesSwap(x: Inputs, g: Gate)
    requires Aligned(x)
    ensures GateCases(SwapInputs(x), g) == Mapped(GateCases(x, g), SwapCase)
  {
    hide SameCases, CompareCase, SwapCase;
    var selected := InScope(x.dataset.cases, g.slice);
    ScopePresent(x.dataset.cases, g.slice, x.baseline.cases);
    ScopePresent(x.dataset.cases, g.slice, x.candidate.cases);
    forall i | 0 <= i < |selected|
      ensures GateCases(SwapInputs(x), g)[i] == SwapCase(GateCases(x, g)[i])
    {
      CompareCaseSwaps(selected[i], g, ScopedValues(selected, x.baseline.cases, g.metric)[i],
                       ScopedValues(selected, x.candidate.cases, g.metric)[i]);
    }
  }

  lemma {:induction false} AllCasesSwap(x: Inputs, gates: seq<Gate>)
    requires Aligned(x)
    ensures AllGateCases(SwapInputs(x), gates) == Mapped(AllGateCases(x, gates), SwapCase)
    decreases |gates|
  {
    hide SameCases, GateCases, SwapCase;
    if gates != [] {
      var n := |gates| - 1;
      AllCasesSwap(x, gates[..n]);
      GateCasesSwap(x, gates[n]);
      MappedConcat(AllGateCases(x, gates[..n]), GateCases(x, gates[n]), SwapCase);
    }
  }

  /** A gate seen from the other side: the same gate, the mirrored aggregate, the same coverage. */
  predicate MirroredGate(g: GateResult, h: GateResult) {
    h.gate == g.gate && h.aggregate == SwapAggregate(g.aggregate) && h.coveragePassed == g.coveragePassed
  }

  function MirrorGate(g: GateResult): GateResult {
    GateResultOf(g.gate, SwapAggregate(g.aggregate))
  }

  lemma GatesSwap(gates: seq<Gate>, aggregates: seq<AggregateComparison>)
    requires GatesKnown(gates, aggregates)
    ensures GatesKnown(gates, Mapped(aggregates, SwapAggregate))
    ensures GateResults(gates, Mapped(aggregates, SwapAggregate)) == Mapped(GateResults(gates, aggregates), MirrorGate)
  {
    hide Lookup, GateResultOf, SwapAggregate;
    forall i | 0 <= i < |gates|
      ensures
        var a := Lookup(aggregates, gates[i].metric, gates[i].slice);
        Lookup(Mapped(aggregates, SwapAggregate), gates[i].metric, gates[i].slice) == Some(SwapAggregate(a.value))
    {
      LookupSwaps(aggregates, gates[i].metric, gates[i].slice);
    }
    forall i | 0 <= i < |gates|
      ensures GateResults(gates, Mapped(aggregates, SwapAggregate))[i] == MirrorGate(GateResults(gates, aggregates)[i])
    {
      GateOfResult(gates[i], Lookup(aggregates, gates[i].metric, gates[i].slice).value);
    }
  }

  lemma GateOfResult(g: Gate, a: AggregateComparison)
    ensures GateResultOf(g, a).gate == g && GateResultOf(g, a).aggregate == a
    ensures GateResultOf(g, a).coveragePassed == CoveragePasses(a)
  {
  }

  lemma GatesKnownSwaps(gates: seq<Gate>, aggregates: seq<AggregateComparison>)
    ensures GatesKnown(gates, Mapped(aggregates, SwapAggregate)) <==> GatesKnown(gates, aggregates)
  {
    hide Lookup, Mapped;
    forall i | 0 <= i < |gates|
      ensures Lookup(Mapped(aggregates, SwapAggregate), gates[i].metric, gates[i].slice).Some?
              <==> Lookup(aggregates, gates[i].metric, gates[i].slice).Some?
    {
      LookupSwaps(aggregates, gates[i].metric, gates[i].slice);
    }
  }

  /** Decision `e` is decision `d` with the two runs exchanged. */
  predicate Mirrored(d: Decision, e: Decision) {
    && e.aggregates == Mapped(d.aggregates, SwapAggregate)
    && e.cases == Mapped(d.cases, SwapCase)
    && |e.gates| == |d.gates|
    && (forall i :: 0 <= i < |d.gates| ==> MirroredGate(d.gates[i], e.gates[i]))
    && e.baseline == d.candidate && e.candidate == d.baseline
  }

  lemma SwapKeepsKeys(aggregates: seq<AggregateComparison>, gates: seq<GateResult>, cases: seq<CaseComparison>)
    ensures KeepsKeys(aggregates, SwapAggregate, AggregateKey)
    ensures KeepsKeys(gates, MirrorGate, GateKey)
    ensures KeepsKeys(cases, SwapCase, ComparisonKey)
  {
    forall i | 0 <= i < |gates|
      ensures GateKey(MirrorGate(gates[i])) == GateKey(gates[i])
    {
      GateOfResult(gates[i].gate, SwapAggregate(gates[i].aggregate));
    }
  }

  /** Each result of a decision is the gate's own verdict on its aggregate. */
  predicate OwnVerdict(g: GateResult) {
    g == GateResultOf(g.gate, g.aggregate)
  }

  lemma DecidedMirrors(spec: Spec, x: Inputs, aggregates: seq<AggregateComparison>)
    requires Aligned(x) && GatesKnown(spec.gates, aggregates) && spec.baseline.Some?
    ensures GatesKnown(spec.gates, Mapped(aggregates, SwapAggregate))
    ensures
      var mapped := Mapped(aggregates, SwapAggregate);
      Mirrored(
        Decided(spec, x, aggregates, GateResults(spec.gates, aggregates), AllGateCases(x, spec.gates)),
        Decided(SwapSpec(spec), SwapInputs(x), mapped, GateResults(spec.gates, mapped),
                AllGateCases(SwapInputs(x), spec.gates)))
  {
    hide SameCases, GateResultOf, SwapCase, SwapAggregate, GateCases, GatesKnown, AllGateCases, SortBy, GateResults;
    var gates, cases := GateResults(spec.gates, aggregates), AllGateCases(x, spec.gates);
    GatesSwap(spec.gates, aggregates);
    AllCasesSwap(x, spec.gates);
    SwapKeepsKeys(aggregates, gates, cases);
    SortMapped(aggregates, SwapAggregate, AggregateKey);
    SortMapped(gates, MirrorGate, GateKey);
    SortMapped(cases, SwapCase, ComparisonKey);
    OwnVerdicts(spec.gates, aggregates);
    var sorted := SortBy(gates, GateKey);
    forall i | 0 <= i < |sorted|
      ensures MirroredGate(sorted[i], MirrorGate(sorted[i]))
    {
      assert sorted[i] in multiset(sorted);
      assert sorted[i] in multiset(gates);
      MirrorOfVerdict(sorted[i]);
    }
  }

  lemma OwnVerdicts(gates: seq<Gate>, aggregates: seq<AggregateComparison>)
    requires GatesKnown(gates, aggregates)
    ensures forall g :: g in GateResults(gates, aggregates) ==> OwnVerdict(g)
  {
    var results := GateResults(gates, aggregates);
    forall g | g in results
      ensures OwnVerdict(g)
    {
      var i :| 0 <= i < |results| && results[i] == g;
      GateOfResult(gates[i], Lookup(aggregates, gates[i].metric, gates[i].slice).value);
    }
  }

  lemma MirrorOfVerdict(g: GateResult)
    requires OwnVerdict(g)
    ensures MirroredGate(g, MirrorGate(g))
  {
    GateOfResult(g.gate, g.aggregate);
    GateOfResult(g.gate, SwapAggregate(g.aggregate));
  }

  lemma InputsSwap(spec: Spec, x: Inputs)
    requires spec.baseline.Some?
    ensures InputError(SwapSpec(spec), SwapInputs(x)) == InputError(spec, x)
    ensures InputError(spec, x).None? ==> Aligned(x) && MetricSet(x.baseline) == MetricSet(x.candidate)
  {
    hide SameCases, MetricSet, RefMatches, Unique;
  }

  /** Duality: comparing the runs the other way round is refused for the same reason, or decides
      the mirror image: every delta negated, newly passing and newly failing exchanged, the same
      coverage verdict on every gate. */
  lemma ComparisonDuality(spec: Spec, x: Inputs)
    requires spec.baseline.Some?
    ensures
      match Compare(spec, x)
      case Err(e) => Compare(SwapSpec(spec), SwapInputs(x)) == Err(e)
      case Ok(d) =>
        var other := Compare(SwapSpec(spec), SwapInputs(x));
        other.Ok? && Mirrored(d, other.value)
  {
    hide InputError, SortedTexts, Slices, MetricSet, SameCases, Aggregates, StoredMatch, GatesKnown, GateResults,
      AllGateCases, Decided, Mirrored, AllMeasured;
    InputsSwap(spec, x);
    if InputError(spec, x).None? {
      SortedMeasured(x);
      var metrics, slices := SortedTexts(MetricSet(x.baseline)), Slices(x.dataset);
      EvaluatorsSwap(x, metrics);
      if SameEvaluators(x, metrics) {
        hide SameEvaluators;
        AggregatesSwap(x, metrics, slices);
        var aggregates := Aggregates(x, metrics, slices);
        StoredMatchSwaps(x.baseline.metrics, aggregates, false);
        StoredMatchSwaps(x.candidate.metrics, aggregates, true);
        GatesKnownSwaps(spec.gates, aggregates);
        if GatesKnown(spec.gates, aggregates) {
          DecidedMirrors(spec, x, aggregates);
        }
      }
    }
  }

  lemma EvaluatorsSwap(x: Inputs, metrics: seq<string>)
    ensures SameEvaluators(SwapInputs(x), metrics) <==> SameEvaluators(x, metrics)
  {
    hide EvaluatorOf, Measures;
  }

  // ---------------------------------------------------------------- the five changes

  predicate OfGate(c: CaseComparison, metric: string, slice: Option<string>) {
    c.metric == metric && c.slice == slice
  }

  /** How many comparisons of a gate carry this change. */
  function CountChange(cases: seq<CaseComparison>, metric: string, slice: Option<string>, change: Change): nat
    decreases |cases|
  {
    if cases == [] then 0
    else
      var n := |cases| - 1;
      CountChange(cases[..n], metric, slice, change)
      + (if OfGate(cases[n], metric, slice) && cases[n].change == change then 1 else 0)
  }

  lemma {:induction false} CountConcat(a: seq<CaseComparison>, b: seq<CaseComparison>, metric: string,
                                       slice: Option<string>, change: Change)
    ensures CountChange(a + b, metric, slice, change)
         == CountChange(a, metric, slice, change) + CountChange(b, metric, slice, change)
    decreases |b|
  {
    if b == [] {
      assert a + b == a;
    } else {
      var n := |b| - 1;
      CountConcat(a, b[..n], metric, slice, change);
      assert (a + b)[..|a + b| - 1] == a + b[..n];
    }
  }

  lemma CountRemoved(b: seq<CaseComparison>, i: int, metric: string, slice: Option<string>, change: Change)
    requires 0 <= i < |b|
    ensures CountChange(b, metric, slice, change)
         == CountChange(b[..i] + b[i + 1..], metric, slice, change) + CountChange([b[i]], metric, slice, change)
  {
    hide CountChange;
    assert b == b[..i] + ([b[i]] + b[i + 1..]);
    CountConcat(b[..i], [b[i]] + b[i + 1..], metric, slice, change);
    CountConcat([b[i]], b[i + 1..], metric, slice, change);
    CountConcat(b[..i], b[i + 1..], metric, slice, change);
  }

  /** Counting does not depend on the order of the cases. */
  lemma {:induction false} CountPermutation(a: seq<CaseComparison>, b: seq<CaseComparison>, metric: string,
                                            slice: Option<string>, change: Change)
    requires multiset(a) == multiset(b)
    ensures CountChange(a, metric, slice, change) == CountChange(b, metric, slice, change)
    decreases |a|
  {
    hide CountChange;
    if a == [] {
      assert |multiset(b)| == 0;
    } else {
      assert a[0] in multiset(b);
      var i :| 0 <= i < |b| && b[i] == a[0];
      RemovedOne(a, 0);
      RemovedOne(b, i);
      CountRemoved(a, 0, metric, slice, change);
      CountRemoved(b, i, metric, slice, change);
      CountPermutation(a[..0] + a[1..], b[..i] + b[i + 1..], metric, slice, change);
    }
  }

  predicate UniqueGates(gates: seq<Gate>) {
    forall i, j :: 0 <= i < j < |gates| ==> gates[i].metric != gates[j].metric || gates[i].slice != gates[j].slice
  }

  lemma {:induction false} CountNone(cases: seq<CaseComparison>, metric: string, slice: Option<string>, change: Change)
    requires forall i :: 0 <= i < |cases| ==> !OfGate(cases[i], metric, slice)
    ensures CountChange(cases, metric, slice, change) == 0
    decreases |cases|
  {
    if cases != [] {
      CountNone(cases[..|cases| - 1], metric, slice, change);
    }
  }

  lemma GateCasesOf(x: Inputs, g: Gate, i: int)
    requires Aligned(x) && 0 <= i < |GateCases(x, g)|
    ensures OfGate(GateCases(x, g)[i], g.metric, g.slice)
    ensures GateCases(x, g)[i].caseId == InScope(x.dataset.cases, g.slice)[i].caseId
  {
    hide SameCases;
  }

  lemma {:induction false} CountOfGate(x: Inputs, gates: seq<Gate>, k: int, change: Change)
    requires Aligned(x) && UniqueGates(gates) && 0 <= k < |gates|
    ensures CountChange(AllGateCases(x, gates), gates[k].metric, gates[k].slice, change)
         == CountChange(GateCases(x, gates[k]), gates[k].metric, gates[k].slice, change)
    decreases |gates|
  {
    hide SameCases, GateCases, CountChange;
    var n := |gates| - 1;
    var g := gates[k];
    CountConcat(AllGateCases(x, gates[..n]), GateCases(x, gates[n]), g.metric, g.slice, change);
    if k < n {
      CountOfGate(x, gates[..n], k, change);
      forall i | 0 <= i < |GateCases(x, gates[n])|
        ensures !OfGate(GateCases(x, gates[n])[i], g.metric, g.slice)
      {
        GateCasesOf(x, gates[n], i);
      }
      CountNone(GateCases(x, gates[n]), g.metric, g.slice, change);
    } else {
      OtherGates(x, gates[..n], g, change);
    }
  }

  lemma {:induction false} OtherGates(x: Inputs, gates: seq<Gate>, g: Gate, change: Change)
    requires Aligned(x)
    requires forall i :: 0 <= i < |gates| ==> gates[i].metric != g.metric || gates[i].slice != g.slice
    ensures CountChange(AllGateCases(x, gates), g.metric, g.slice, change) == 0
    decreases |gates|
  {
    hide SameCases, GateCases;
    if gates != [] {
      var n := |gates| - 1;
      OtherGates(x, gates[..n], g, change);
      CountConcat(AllGateCases(x, gates[..n]), GateCases(x, gates[n]), g.metric, g.slice, change);
      forall i | 0 <= i < |GateCases(x, gates[n])|
        ensures !OfGate(GateCases(x, gates[n])[i], g.metric, g.slice)
      {
        GateCasesOf(x, gates[n], i);
      }
      CountNone(GateCases(x, gates[n]), g.metric, g.slice, change);
    }
  }

  lemma {:induction false} FiveChanges(cases: seq<CaseComparison>, metric: string, slice: Option<string>)
    requires forall i :: 0 <= i < |cases| ==> OfGate(cases[i], metric, slice)
    ensures CountChange(cases, metric, slice, NewlyPassing) + CountChange(cases, metric, slice, NewlyFailing)
          + CountChange(cases, metric, slice, UnchangedPassing) + CountChange(cases, metric, slice, UnchangedFailing)
          + CountChange(cases, metric, slice, Incomparable) == |cases|
    decreases |cases|
  {
    if cases != [] {
      FiveChanges(cases[..|cases| - 1], metric, slice);
    }
  }

  lemma DecisionCases(spec: Spec, x: Inputs)
    requires Compare(spec, x).Ok?
    ensures Aligned(x) && multiset(Compare(spec, x).value.cases) == multiset(AllGateCases(x, spec.gates))
  {
    hide SameCases, Aggregates, StoredMatch, GatesKnown, GateResults, AllGateCases, SameEvaluators, MetricSet, Slices,
      SortedTexts, AllMeasured, Unique, RefMatches;
  }

  /** Conservation: in every decision the five change counts of a gate add up to the number of
      cases in the gate's scope. */
  lemma ChangesPartitionScope(spec: Spec, x: Inputs, k: int)
    requires Compare(spec, x).Ok? && UniqueGates(spec.gates) && 0 <= k < |spec.gates|
    ensures
      var cases := Compare(spec, x).value.cases;
      var metric, slice := spec.gates[k].metric, spec.gates[k].slice;
      CountChange(cases, metric, slice, NewlyPassing) + CountChange(cases, metric, slice, NewlyFailing)
      + CountChange(cases, metric, slice, UnchangedPassing) + CountChange(cases, metric, slice, UnchangedFailing)
      + CountChange(cases, metric, slice, Incomparable) == |InScope(x.dataset.cases, slice)|
  {
    hide Compare, CountChange, AllGateCases, GateCases, SameCases, UniqueGates;
    DecisionCases(spec, x);
    var cases := Compare(spec, x).value.cases;
    var g := spec.gates[k];
    forall change: Change
      ensures CountChange(cases, g.metric, g.slice, change) == CountChange(GateCases(x, g), g.metric, g.slice, change)
    {
      CountPermutation(cases, AllGateCases(x, spec.gates), g.metric, g.slice, change);
      CountOfGate(x, spec.gates, k, change);
    }
    forall i | 0 <= i < |GateCases(x, g)|
      ensures OfGate(GateCases(x, g)[i], g.metric, g.slice)
    {
      GateCasesOf(x, g, i);
    }
    FiveChanges(GateCases(x, g), g.metric, g.slice);
  }

  // ---------------------------------------------------------------- what passes, and what changed

  predicate Comparable(b: Score, c: Score) {
    b.Scored? && c.Scored?
  }

  /** A value against a gate's threshold, in plain inequalities. */
  predicate Meets(value: real, direction: Direction, threshold: real) {
    match direction
    case HigherIsBetter => value >= threshold - 0.000000000001
    case LowerIsBetter => value <= threshold + 0.000000000001
  }

  /** A change against the regression a gate allows. */
  predicate Tolerated(change: real, direction: Direction, allowed: real) {
    match direction
    case HigherIsBetter => change >= -allowed - 0.000000000001
    case LowerIsBetter => change <= allowed + 0.000000000001
  }

  lemma PassesMeets(value: real, direction: Direction, boundary: real)
    ensures Passes(value, direction, boundary) <==> Meets(value, direction, boundary)
    ensures RegressionPasses(value, direction, boundary) <==> Tolerated(value, direction, boundary)
  {
  }

  /** Cases scored on both sides that pass on the candidate side. */
  function CountPassing(baseline: seq<Score>, candidate: seq<Score>, g: Gate): nat
    requires |baseline| == |candidate|
    decreases |baseline|
  {
    if baseline == [] then 0
    else
      var n := |baseline| - 1;
      CountPassing(baseline[..n], candidate[..n], g)
      + (if Comparable(baseline[n], candidate[n]) && Meets(candidate[n].value, g.direction, g.threshold) then 1 else 0)
  }

  function Compared(selected: seq<EvaluationCase>, g: Gate, b: seq<Score>, c: seq<Score>): (r: seq<CaseComparison>)
    requires |b| == |selected| && |c| == |selected|
    ensures |r| == |selected|
    ensures forall i :: 0 <= i < |r| ==> r[i] == CompareCase(selected[i], g, b[i], c[i])
  {
    seq(|selected|, i requires 0 <= i < |selected| => CompareCase(selected[i], g, b[i], c[i]))
  }

  function One(counts: bool): int {
    if counts then 1 else 0
  }

  lemma CaseBalance(c: EvaluationCase, g: Gate, b: Score, d: Score)
    ensures
      var r := CompareCase(c, g, b, d);
      && OfGate(r, g.metric, g.slice)
      && One(r.change == NewlyPassing) - One(r.change == NewlyFailing)
           == One(Comparable(b, d) && Meets(d.value, g.direction, g.threshold))
              - One(Comparable(d, b) && Meets(b.value, g.direction, g.threshold))
  {
    hide Passes, Meets;
    if Comparable(b, d) {
      PassesMeets(b.value, g.direction, g.threshold);
      PassesMeets(d.value, g.direction, g.threshold);
    }
  }

  /** Newly passing less newly failing is the change in the number of passing cases. */
  lemma {:induction false} PassBalance(selected: seq<EvaluationCase>, g: Gate, b: seq<Score>, c: seq<Score>)
    requires |b| == |selected| && |c| == |selected|
    ensures
      var cases := Compared(selected, g, b, c);
      CountChange(cases, g.metric, g.slice, NewlyPassing) - CountChange(cases, g.metric, g.slice, NewlyFailing)
        == CountPassing(b, c, g) - CountPassing(c, b, g)
    decreases |selected|
  {
    hide CompareCase, Meets, OfGate, Comparable;
    if selected != [] {
      var n := |selected| - 1;
      CaseBalance(selected[n], g, b[n], c[n]);
      PassBalance(selected[..n], g, b[..n], c[..n]);
      assert Compared(selected, g, b, c)[..n] == Compared(selected[..n], g, b[..n], c[..n]);
    }
  }

  lemma GateCasesCompared(x: Inputs, g: Gate)
    requires Aligned(x)
    ensures Present(InScope(x.dataset.cases, g.slice), x.baseline.cases)
    ensures Present(InScope(x.dataset.cases, g.slice), x.candidate.cases)
    ensures
      var selected := InScope(x.dataset.cases, g.slice);
      GateCases(x, g) == Compared(selected, g, ScopedValues(selected, x.baseline.cases, g.metric),
                                  ScopedValues(selected, x.candidate.cases, g.metric))
  {
    hide SameCases, CompareCase, InScope;
    ScopePresent(x.dataset.cases, g.slice, x.baseline.cases);
    ScopePresent(x.dataset.cases, g.slice, x.candidate.cases);
  }

  /** In every decision, for every gate: newly passing less newly failing is the number of cases
      passing in the candidate less those passing in the baseline, among the comparable ones. */
  lemma DecisionPassBalance(spec: Spec, x: Inputs, k: int)
    requires Compare(spec, x).Ok? && UniqueGates(spec.gates) && 0 <= k < |spec.gates|
    ensures Present(InScope(x.dataset.cases, spec.gates[k].slice), x.baseline.cases)
    ensures Present(InScope(x.dataset.cases, spec.gates[k].slice), x.candidate.cases)
    ensures
      var cases := Compare(spec, x).value.cases;
      var g := spec.gates[k];
      var selected := InScope(x.dataset.cases, g.slice);
      var b := ScopedValues(selected, x.baseline.cases, g.metric);
      var c := ScopedValues(selected, x.candidate.cases, g.metric);
      CountChange(cases, g.metric, g.slice, NewlyPassing) - CountChange(cases, g.metric, g.slice, NewlyFailing)
        == CountPassing(b, c, g) - CountPassing(c, b, g)
  {
    hide Compare, CountChange, AllGateCases, GateCases, SameCases, UniqueGates, CountPassing, InScope;
    DecisionCases(spec, x);
    var cases := Compare(spec, x).value.cases;
    var g := spec.gates[k];
    forall change: Change
      ensures CountChange(cases, g.metric, g.slice, change) == CountChange(GateCases(x, g), g.metric, g.slice, change)
    {
      CountPermutation(cases, AllGateCases(x, spec.gates), g.metric, g.slice, change);
      CountOfGate(x, spec.gates, k, change);
    }
    GateCasesCompared(x, g);
    var selected := InScope(x.dataset.cases, g.slice);
    PassBalance(selected, g, ScopedValues(selected, x.baseline.cases, g.metric),
                ScopedValues(selected, x.candidate.cases, g.metric));
  }

  // ---------------------------------------------------------------- the verdict

  /** The three checks of a gate on an aggregate, in counts and inequalities: nothing errored, some
      value scored, as many scored and as many skipped on both sides; the candidate's mean meets the
      threshold; and its change from the baseline's mean is tolerated. */
  predicate Satisfied(g: Gate, a: AggregateComparison) {
    && a.baseline.errors == 0 && a.candidate.errors == 0
    && a.baseline.scored > 0 && a.baseline.scored == a.candidate.scored
    && a.baseline.skipped == a.candidate.skipped
    && a.candidate.mean.Some? && Meets(a.candidate.mean.value, g.direction, g.threshold)
    && a.baseline.mean.Some?
    && Tolerated(a.candidate.mean.value - a.baseline.mean.value, g.direction, g.allowedRegression)
  }

  lemma PassedIffSatisfied(g: Gate, a: AggregateComparison)
    requires a.delta == Minus(a.candidate.mean, a.baseline.mean)
    ensures GateResultOf(g, a).passed <==> Satisfied(g, a)
  {
    hide Passes, RegressionPasses, Meets, Tolerated;
    if a.candidate.mean.Some? {
      PassesMeets(a.candidate.mean.value, g.direction, g.threshold);
    }
    if a.delta.Some? {
      PassesMeets(a.delta.value, g.direction, g.allowedRegression);
    }
  }

  lemma DecisionParts(spec: Spec, x: Inputs)
    requires Compare(spec, x).Ok?
    ensures Aligned(x) && AllMeasured(x.baseline, SortedTexts(MetricSet(x.baseline)))
    ensures
      var aggregates := Aggregates(x, SortedTexts(MetricSet(x.baseline)), Slices(x.dataset));
      && GatesKnown(spec.gates, aggregates)
      && Compare(spec, x).value
           == Decided(spec, x, aggregates, GateResults(spec.gates, aggregates), AllGateCases(x, spec.gates))
  {
    hide SameCases, Aggregates, StoredMatch, GatesKnown, GateResults, AllGateCases, SameEvaluators, MetricSet, Slices,
      SortedTexts, AllMeasured, Unique, RefMatches, Decided;
    SortedMeasured(x);
  }

  /** A gate is satisfied by the aggregate of its own metric and scope. */
  predicate GateMet(x: Inputs, g: Gate)
    requires Aligned(x)
  {
    && Measures(x.baseline, g.metric)
    && Satisfied(g, AggregateFor(x, EvaluatorOf(x.baseline.metrics, g.metric), g.metric, g.slice))
  }

  lemma DeltaOfMeans(x: Inputs, evaluator: Ref, metric: string, slice: Option<string>)
    requires Aligned(x)
    ensures var a := AggregateFor(x, evaluator, metric, slice); a.delta == Minus(a.candidate.mean, a.baseline.mean)
  {
  }

  lemma LookedUpGate(x: Inputs, metrics: seq<string>, slices: seq<Option<string>>, g: Gate)
    requires Aligned(x) && AllMeasured(x.baseline, metrics)
    requires Lookup(Aggregates(x, metrics, slices), g.metric, g.slice).Some?
    ensures GateResultOf(g, Lookup(Aggregates(x, metrics, slices), g.metric, g.slice).value).passed <==> GateMet(x, g)
  {
    hide Aligned, Satisfied, GateResultOf, AggregateFor, Lookup, Aggregates, AllMeasured;
    LookupExact(x, metrics, slices, g.metric, g.slice);
    DeltaOfMeans(x, EvaluatorOf(x.baseline.metrics, g.metric), g.metric, g.slice);
    PassedIffSatisfied(g, Lookup(Aggregates(x, metrics, slices), g.metric, g.slice).value);
  }

  /** The release passes if and only if every gate of the policy is satisfied by the aggregate of
      its own metric and scope, recomputed from the evidence of both runs. */
  lemma ReleasePassesIff(spec: Spec, x: Inputs)
    requires Compare(spec, x).Ok?
    ensures Aligned(x)
    ensures Compare(spec, x).value.passed <==> forall k :: 0 <= k < |spec.gates| ==> GateMet(x, spec.gates[k])
  {
    hide Compare, SameCases, GateMet, GateResultOf, Lookup, Aggregates, AllMeasured, MetricSet, Slices, SortedTexts;
    DecisionParts(spec, x);
    var metrics, slices := SortedTexts(MetricSet(x.baseline)), Slices(x.dataset);
    var aggregates := Aggregates(x, metrics, slices);
    var results := GateResults(spec.gates, aggregates);
    forall k | 0 <= k < |spec.gates|
      ensures results[k].passed <==> GateMet(x, spec.gates[k])
    {
      LookedUpGate(x, metrics, slices, spec.gates[k]);
    }
    PassedSorted(results);
  }

  lemma PassedSorted(results: seq<GateResult>)
    ensures AllPassed(SortBy(results, GateKey)) <==> AllPassed(results)
  {
    var sorted := SortBy(results, GateKey);
    SortMembers(results, GateKey);
    if AllPassed(results) {
      forall i | 0 <= i < |sorted| ensures sorted[i].passed {
        assert sorted[i] in sorted;
        assert sorted[i] in results;
      }
    }
    if AllPassed(sorted) {
      forall i | 0 <= i < |results| ensures results[i].passed {
        assert results[i] in results;
        assert results[i] in sorted;
      }
    }
  }

  // ---------------------------------------------------------------- deltas

  predicate AllScored(outcomes: seq<Score>) {
    forall i :: 0 <= i < |outcomes| ==> outcomes[i].Scored?
  }

  function Deltas(b: seq<Score>, c: seq<Score>): (r: seq<real>)
    requires |b| == |c| && AllScored(b) && AllScored(c)
    ensures |r| == |b| && forall i :: 0 <= i < |r| ==> r[i] == c[i].value - b[i].value
  {
    seq(|b|, i requires 0 <= i < |b| => c[i].value - b[i].value)
  }

  lemma {:induction false} ScoresOfScored(outcomes: seq<Score>)
    requires AllScored(outcomes)
    ensures |Scores(outcomes)| == |outcomes|
    ensures forall i :: 0 <= i < |outcomes| ==> Scores(outcomes)[i] == outcomes[i].value
    decreases |outcomes|
  {
    if outcomes != [] {
      ScoresOfScored(outcomes[..|outcomes| - 1]);
    }
  }

  lemma {:induction false} SumDifference(a: seq<real>, b: seq<real>, d: seq<real>)
    requires |a| == |b| == |d| && forall i :: 0 <= i < |d| ==> d[i] == b[i] - a[i]
    ensures Sum(d) == Sum(b) - Sum(a)
    decreases |d|
  {
    if d != [] {
      var n := |d| - 1;
      SumDifference(a[..n], b[..n], d[..n]);
    }
  }

  lemma QuotientDifference(p: real, q: real, n: real)
    requires n > 0.0
    ensures p / n - q / n == (p - q) / n
  {
  }

  /** When every case in scope is scored on both sides, the aggregate delta is the mean of the
      case deltas. */
  lemma AggregateDeltaIsMeanDelta(x: Inputs, evaluator: Ref, metric: string, slice: Option<string>)
    requires ValidDataset(x.dataset) && Aligned(x) && KnownSlice(x.dataset, slice)
    requires Present(InScope(x.dataset.cases, slice), x.baseline.cases)
    requires Present(InScope(x.dataset.cases, slice), x.candidate.cases)
    requires AllScored(ScopedValues(InScope(x.dataset.cases, slice), x.baseline.cases, metric))
    requires AllScored(ScopedValues(InScope(x.dataset.cases, slice), x.candidate.cases, metric))
    ensures
      var selected := InScope(x.dataset.cases, slice);
      var deltas := Deltas(ScopedValues(selected, x.baseline.cases, metric),
                           ScopedValues(selected, x.candidate.cases, metric));
      deltas != [] && AggregateFor(x, evaluator, metric, slice).delta == Some(Sum(deltas) / |deltas| as real)
  {
    hide SameCases, InScope, Find, CaseValue, Sum;
    KnownScopeNotEmpty(x.dataset, slice);
    var selected := InScope(x.dataset.cases, slice);
    var b := ScopedValues(selected, x.baseline.cases, metric);
    var c := ScopedValues(selected, x.candidate.cases, metric);
    ScoresOfScored(b);
    ScoresOfScored(c);
    SumDifference(Scores(b), Scores(c), Deltas(b, c));
    QuotientDifference(Sum(Scores(c)), Sum(Scores(b)), |selected| as real);
  }

  /** So it is for every aggregate of every decision. */
  lemma DecisionDeltas(spec: Spec, x: Inputs, a: AggregateComparison)
    requires ValidDataset(x.dataset) && Compare(spec, x).Ok? && a in Compare(spec, x).value.aggregates
    ensures Present(InScope(x.dataset.cases, a.slice), x.baseline.cases)
    ensures Present(InScope(x.dataset.cases, a.slice), x.candidate.cases)
    ensures
      var selected := InScope(x.dataset.cases, a.slice);
      var b := ScopedValues(selected, x.baseline.cases, a.metric);
      var c := ScopedValues(selected, x.candidate.cases, a.metric);
      AllScored(b) && AllScored(c) ==>
        Deltas(b, c) != [] && a.delta == Some(Sum(Deltas(b, c)) / |Deltas(b, c)| as real)
  {
    hide Compare, SameCases, ValidDataset, InScope, Aggregates, AggregateFor, MetricSet, SortedTexts, Slices,
      AllMeasured, AllScored, Sum, KnownSlice;
    DecisionParts(spec, x);
    var metrics, slices := SortedTexts(MetricSet(x.baseline)), Slices(x.dataset);
    SortMembers(Aggregates(x, metrics, slices), AggregateKey);
    AggregateSource(x, metrics, slices, a);
    SlicesKnown(x.dataset, a.slice);
    ScopePresent(x.dataset.cases, a.slice, x.baseline.cases);
    ScopePresent(x.dataset.cases, a.slice, x.candidate.cases);
    var selected := InScope(x.dataset.cases, a.slice);
    if AllScored(ScopedValues(selected, x.baseline.cases, a.metric))
       && AllScored(ScopedValues(selected, x.candidate.cases, a.metric)) {
      AggregateDeltaIsMeanDelta(x, EvaluatorOf(x.baseline.metrics, a.metric), a.metric, a.slice);
    }
  }
}
