/** The figures a dashboard shows, by what they are of the samples: counts of floats, extremes, sums
    and quotients, without the functions that compute them. */
module Reports {
  import opened Common
  import opened Evaluation
  import opened Comparison
  import opened Dashboard
  import CaseListing

  // ---------------------------------------------------------------- counting samples

  /** The positions whose value does not exceed a bound. */
  function UpTo(values: seq<real>, bound: real): set<int> {
    set i | 0 <= i < |values| && values[i] <= bound
  }

  lemma {:induction false} CountUpToIs(values: seq<real>, bound: real)
    ensures CountAtMost(values, bound) == |UpTo(values, bound)|
    decreases |values|
  {
    if values != [] {
      var n := |values| - 1;
      CountUpToIs(values[..n], bound);
      assert UpTo(values, bound) == UpTo(values[..n], bound) + (if values[n] <= bound then {n} else {});
    }
  }

  /** A sample which at least `num` of every `den` samples do not exceed, and the least such. */
  ghost predicate IsQuantile(v: real, values: seq<real>, num: int, den: int) {
    && v in values
    && den * |UpTo(values, v)| >= num * |values|
    && forall w :: w < v ==> den * |UpTo(values, w)| < num * |values|
  }

  lemma CountAgainstCeiling(count: int, num: int, den: int, n: int)
    requires 0 < num <= den && 1 <= n
    ensures Ceiling(num, den, n) <= count ==> den * count >= num * n
    ensures count < Ceiling(num, den, n) ==> den * count < num * n
  {
    hide Ceiling;
    RankInRange(num, den, n);
    var need := Ceiling(num, den, n);
    if need <= count {
      TimesMonotone(den, need, count);
    } else {
      TimesMonotone(den, count, need - 1);
    }
  }

  lemma TimesMonotone(den: int, a: int, b: int)
    requires 0 < den && a <= b
    ensures den * a <= den * b
  {
  }

  lemma NearestRankReports(values: seq<real>, num: int, den: int)
    requires values != [] && 0 < num <= den
    ensures SortedSamples(values) != [] && IsQuantile(NearestRank(SortedSamples(values), num, den), values, num, den)
  {
    hide SortedSamples, NearestRank, CountAtMost, Ceiling, UpTo;
    NearestRankIsQuantile(values, num, den, 0.0);
    var v := NearestRank(SortedSamples(values), num, den);
    CountUpToIs(values, v);
    CountAgainstCeiling(|UpTo(values, v)|, num, den, |values|);
    forall w: real | w < v
      ensures den * |UpTo(values, w)| < num * |values|
    {
      NearestRankIsQuantile(values, num, den, w);
      CountUpToIs(values, w);
      CountAgainstCeiling(|UpTo(values, w)|, num, den, |values|);
    }
  }

  // ---------------------------------------------------------------- the reported statistics

  predicate Least(v: real, values: seq<real>) {
    v in values && forall i :: 0 <= i < |values| ==> v <= values[i]
  }

  predicate Greatest(v: real, values: seq<real>) {
    v in values && forall i :: 0 <= i < |values| ==> values[i] <= v
  }

  /** The mean: the sum of the floats rounded, divided by their number, and rounded. */
  function MeanOf(rd: real -> real, floats: seq<real>): real
    requires floats != []
  {
    rd(rd(Sum(floats)) / |floats| as real)
  }

  /** Fixed statistics of some floats. */
  ghost predicate Describes(s: Statistics, rd: real -> real, floats: seq<real>)
    requires floats != []
  {
    && Least(s.minimum, floats) && Greatest(s.maximum, floats)
    && IsQuantile(s.p50, floats, 1, 2) && IsQuantile(s.p95, floats, 19, 20)
    && s.mean == MeanOf(rd, floats)
  }

  lemma {:induction false} SumInserted(x: real, s: seq<real>)
    ensures Sum([x] + s) == x + Sum(s)
    decreases |s|
  {
    if s == [] {
      assert ([x] + s)[..0] == [];
    } else {
      var n := |s| - 1;
      SumInserted(x, s[..n]);
      assert ([x] + s)[..|s|] == [x] + s[..n];
    }
  }

  lemma SumHead(s: seq<real>)
    requires s != []
    ensures Sum(s) == s[0] + Sum(s[1..])
  {
    hide Sum;
    assert s == [s[0]] + s[1..];
    SumInserted(s[0], s[1..]);
  }

  lemma {:induction false} InsertSum(x: real, s: seq<real>)
    ensures Sum(InsertReal(x, s)) == x + Sum(s)
    decreases |s|
  {
    hide Sum;
    if s == [] || x <= s[0] {
      SumInserted(x, s);
    } else {
      InsertSum(x, s[1..]);
      SumHead(s);
      SumInserted(s[0], InsertReal(x, s[1..]));
    }
  }

  lemma {:induction false} SortedSum(values: seq<real>)
    ensures Sum(SortedSamples(values)) == Sum(values)
    decreases |values|
  {
    hide Sum;
    if values != [] {
      SortedSum(values[1..]);
      InsertSum(values[0], SortedSamples(values[1..]));
      SumHead(values);
    }
  }

  lemma SameMembers(values: seq<real>, v: real)
    ensures v in SortedSamples(values) <==> v in values
  {
    hide SortedSamples;
    assert v in SortedSamples(values) <==> v in multiset(SortedSamples(values));
    assert v in values <==> v in multiset(values);
  }

  lemma Extremes(values: seq<real>)
    requires values != []
    ensures
      var ordered := SortedSamples(values);
      |ordered| == |values| && Least(ordered[0], values) && Greatest(ordered[|ordered| - 1], values)
  {
    hide SortedSamples;
    OrderedSize(values);
    OrderedSorted(values);
    var ordered := SortedSamples(values);
    SameMembers(values, ordered[0]);
    SameMembers(values, ordered[|ordered| - 1]);
    forall i | 0 <= i < |values|
      ensures ordered[0] <= values[i] <= ordered[|ordered| - 1]
    {
      SameMembers(values, values[i]);
      var j :| 0 <= j < |ordered| && ordered[j] == values[i];
    }
  }

  lemma ObservedDescribes(rd: real -> real, floats: seq<real>)
    requires floats != []
    ensures SortedSamples(floats) != [] && Describes(Observed(rd, SortedSamples(floats)), rd, floats)
  {
    hide SortedSamples, NearestRank, IsQuantile, Least, Greatest, Sum;
    Extremes(floats);
    NearestRankReports(floats, 1, 2);
    NearestRankReports(floats, 19, 20);
    SortedSum(floats);
  }

  /** What a summary shows: the number of samples; nothing else when there are none, or fewer than
      the size it must not reveal; the statistics of the samples as floats otherwise. */
  ghost predicate Shows(q: QuantileSummary, rd: real -> real, samples: seq<real>, suppressBelow: Option<int>) {
    && q.sampleCount == |samples|
    && (q.suppressed <==> samples != [] && suppressBelow.Some? && |samples| < suppressBelow.value)
    && (q.statistics.None? <==> samples == [] || q.suppressed)
    && (q.statistics.Some? ==> Describes(q.statistics.value, rd, Floats(rd, samples)))
  }

  predicate Outside(v: real, values: seq<real>) {
    (forall i :: 0 <= i < |values| ==> v < values[i]) || (forall i :: 0 <= i < |values| ==> values[i] < v)
  }

  /** Statistics would be shown, and their mean is outside the samples. */
  predicate MeanOutside(rd: real -> real, samples: seq<real>, suppressBelow: Option<int>) {
    && samples != [] && !(suppressBelow.Some? && |samples| < suppressBelow.value)
    && Outside(MeanOf(rd, Floats(rd, samples)), Floats(rd, samples))
  }

  lemma OutsideExtremes(v: real, values: seq<real>, low: real, high: real)
    requires values != [] && Least(low, values) && Greatest(high, values)
    ensures Outside(v, values) <==> v < low || high < v
  {
    var i :| 0 <= i < |values| && values[i] == low;
    var j :| 0 <= j < |values| && values[j] == high;
  }

  /** Every summary that is accepted shows its samples; a summary is refused exactly when it would
      show statistics whose mean is less than every float or greater than every float. */
  lemma QuantilesShow(rd: real -> real, samples: seq<real>, suppressBelow: Option<int>)
    ensures
      match Quantiles(rd, samples, suppressBelow)
      case Some(q) => Shows(q, rd, samples, suppressBelow) && !MeanOutside(rd, samples, suppressBelow)
      case None => MeanOutside(rd, samples, suppressBelow)
  {
    hide SortedSamples, Observed, Describes, Floats, Sum, Least, Greatest, Outside, ValidSummary;
    var floats := Floats(rd, samples);
    RefusedIffMeanOutside(rd, samples, suppressBelow);
    if samples != [] {
      ObservedDescribes(rd, floats);
      Extremes(floats);
      SortedSum(floats);
      var ordered := SortedSamples(floats);
      OutsideExtremes(MeanOf(rd, floats), floats, ordered[0], ordered[|ordered| - 1]);
    }
  }

  // ---------------------------------------------------------------- what is measured

  // Each list of values is fixed by what it holds of no case, of one case, and of cases in a row.

  lemma ValueOfOne(score: Score)
    ensures Scores([]) == [] && Scores([score]) == if score.Scored? then [score.value] else []
  {
    assert [score][..0] == [];
  }

  lemma {:induction false} ValuesInARow(a: seq<Score>, b: seq<Score>)
    ensures Scores(a + b) == Scores(a) + Scores(b)
    decreases |b|
  {
    if b == [] {
      assert a + b == a;
    } else {
      ValuesInARow(a, b[..|b| - 1]);
      assert (a + b)[..|a + b| - 1] == a + b[..|b| - 1];
    }
  }

  lemma DeltaOfOne(c: CaseComparison)
    ensures CaseDeltas([]) == [] && CaseDeltas([c]) == if c.delta.Some? then [c.delta.value] else []
  {
    assert [c][..0] == [];
  }

  lemma {:induction false} DeltasInARow(a: seq<CaseComparison>, b: seq<CaseComparison>)
    ensures CaseDeltas(a + b) == CaseDeltas(a) + CaseDeltas(b)
    decreases |b|
  {
    if b == [] {
      assert a + b == a;
    } else {
      DeltasInARow(a, b[..|b| - 1]);
      assert (a + b)[..|a + b| - 1] == a + b[..|b| - 1];
    }
  }

  /** A target failure may have a latency and never a usage; a response has both, and its total is
      what it took in and what it put out. */
  lemma MeasuredOfOne(c: Invocation)
    ensures Latencies([]) == [] && forall unit :: Usage([], unit) == []
    ensures
      match c
      case TargetFailure(latency) =>
        && Latencies([c]) == (match latency case Some(took) => [took] case None => [])
        && forall unit :: Usage([c], unit) == []
      case NoTarget => Latencies([c]) == [] && forall unit :: Usage([c], unit) == []
      case Response(took, input, output) =>
        && Latencies([c]) == [took]
        && Usage([c], InputUnit) == [input as real]
        && Usage([c], OutputUnit) == [output as real]
        && Usage([c], TotalUnit) == [(input + output) as real]
  {
    assert [c][..0] == [];
  }

  lemma MeasuredInARow(a: seq<Invocation>, b: seq<Invocation>, unit: Unit)
    ensures Latencies(a + b) == Latencies(a) + Latencies(b)
    ensures Usage(a + b, unit) == Usage(a, unit) + Usage(b, unit)
  {
    hide Latencies, Usage;
    LatenciesInARow(a, b);
    UsageInARow(a, b, unit);
  }

  lemma {:induction false} LatenciesInARow(a: seq<Invocation>, b: seq<Invocation>)
    ensures Latencies(a + b) == Latencies(a) + Latencies(b)
    decreases |b|
  {
    if b == [] {
      assert a + b == a;
    } else {
      LatenciesInARow(a, b[..|b| - 1]);
      assert (a + b)[..|a + b| - 1] == a + b[..|b| - 1];
    }
  }

  lemma {:induction false} UsageInARow(a: seq<Invocation>, b: seq<Invocation>, unit: Unit)
    ensures Usage(a + b, unit) == Usage(a, unit) + Usage(b, unit)
    decreases |b|
  {
    hide UnitsOf;
    if b == [] {
      assert a + b == a;
    } else {
      UsageInARow(a, b[..|b| - 1], unit);
      assert (a + b)[..|a + b| - 1] == a + b[..|b| - 1];
    }
  }

  /** The cases whose target failed. */
  function FailedAt(cases: seq<Invocation>): set<int> {
    set i | 0 <= i < |cases| && cases[i].TargetFailure?
  }

  lemma {:induction false} FailuresCounted(cases: seq<Invocation>)
    ensures CountTargetFailures(cases) == |FailedAt(cases)|
    decreases |cases|
  {
    if cases != [] {
      var n := |cases| - 1;
      FailuresCounted(cases[..n]);
      assert FailedAt(cases) == FailedAt(cases[..n]) + (if cases[n].TargetFailure? then {n} else {});
    }
  }

  function IncomparableAt(cases: seq<CaseComparison>): set<int> {
    set i | 0 <= i < |cases| && cases[i].change == Incomparable
  }

  lemma {:induction false} IncomparableCounted(cases: seq<CaseComparison>)
    ensures CountIncomparable(cases) == |IncomparableAt(cases)|
    decreases |cases|
  {
    if cases != [] {
      var n := |cases| - 1;
      IncomparableCounted(cases[..n]);
      if cases[n].change == Incomparable {
        assert IncomparableAt(cases) == IncomparableAt(cases[..n]) + {n};
      } else {
        assert IncomparableAt(cases) == IncomparableAt(cases[..n]);
      }
    }
  }

  /** A measurement shows its values, suppressed below twenty, and counts the cases without one. */
  ghost predicate ShowsMeasured(m: Measurement, rd: real -> real, values: seq<real>, cases: seq<Invocation>) {
    && m.attempted == |cases| && m.measured == |values| && m.unavailable == |cases| - |values|
    && m.targetFailures == |FailedAt(cases)|
    && Shows(m.statistics, rd, values, Some(20))
  }

  lemma MeasuredShows(rd: real -> real, values: seq<real>, cases: seq<Invocation>)
    ensures
      match MeasureValues(rd, values, cases)
      case Some(m) => ShowsMeasured(m, rd, values, cases) && !MeanOutside(rd, values, Some(20))
      case None => MeanOutside(rd, values, Some(20))
  {
    hide Quantiles, Shows, MeanOutside, FailedAt;
    QuantilesShow(rd, values, Some(20));
    FailuresCounted(cases);
  }

  /** The operational figures of a run: each shows exactly its own values, and all of them are
      refused exactly when one would show a mean outside its values. */
  lemma RunShows(rd: real -> real, cases: seq<Invocation>)
    ensures
      match MeasurementsOf(rd, cases)
      case Some(o) =>
        && ShowsMeasured(o.latency, rd, Latencies(cases), cases)
        && ShowsMeasured(o.inputUnits, rd, Usage(cases, InputUnit), cases)
        && ShowsMeasured(o.outputUnits, rd, Usage(cases, OutputUnit), cases)
        && ShowsMeasured(o.totalUnits, rd, Usage(cases, TotalUnit), cases)
      case None =>
        || MeanOutside(rd, Latencies(cases), Some(20)) || MeanOutside(rd, Usage(cases, InputUnit), Some(20))
        || MeanOutside(rd, Usage(cases, OutputUnit), Some(20)) || MeanOutside(rd, Usage(cases, TotalUnit), Some(20))
  {
    hide MeasureValues, ShowsMeasured, Latencies, Usage, MeanOutside;
    MeasuredShows(rd, Latencies(cases), cases);
    MeasuredShows(rd, Usage(cases, InputUnit), cases);
    MeasuredShows(rd, Usage(cases, OutputUnit), cases);
    MeasuredShows(rd, Usage(cases, TotalUnit), cases);
  }

  /** The evidence of a gate is that of its own metric and scope among a decision's cases. */
  lemma EvidenceOfGate(cases: seq<CaseComparison>, metric: string, gateSlice: Option<string>, c: CaseComparison)
    ensures c in GateEvidence(cases, metric, gateSlice) <==> c in cases && c.metric == metric && c.slice == gateSlice
  {
    CaseListing.MatchingMembers(cases, CaseListing.CaseFilter(Some(metric), gateSlice, None, None), None);
  }

  /** The delta distribution of a gate's cases counts them all and shows the deltas there are. */
  lemma DeltasShow(rd: real -> real, cases: seq<CaseComparison>)
    ensures
      match DeltasOf(rd, cases)
      case Some(d) =>
        && d.attempted == |cases| && d.compared == |CaseDeltas(cases)| && d.incomparable == |cases| - d.compared
        && Shows(d.statistics, rd, CaseDeltas(cases), None)
      case None => MeanOutside(rd, CaseDeltas(cases), None)
  {
    hide Quantiles, Shows, MeanOutside, CaseDeltas;
    QuantilesShow(rd, CaseDeltas(cases), None);
  }
}
