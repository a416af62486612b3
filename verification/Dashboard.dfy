/** Statistics of a release decision: nearest-rank quantiles, a rounded mean and coverage counts,
    and when their validators accept them. */
module Dashboard {
  import opened Common
  import opened Ordering
  import opened Rounding
  import opened Evaluation
  import opened Comparison
  import opened Duality
  import opened CaseListing

  const MIN_AGGREGATE_SIZE: int := 20

  /** Fixed statistics; None where they are omitted. */
  datatype Statistics = Statistics(minimum: real, p50: real, p95: real, maximum: real, mean: real)

  datatype QuantileSummary = QuantileSummary(sampleCount: int, suppressed: bool, statistics: Option<Statistics>)

  /** The validator of a summary. */
  predicate ValidSummary(q: QuantileSummary) {
    if q.sampleCount == 0 then !q.suppressed && q.statistics.None?
    else if q.suppressed then q.statistics.None?
    else
      q.statistics.Some? &&
      var s := q.statistics.value;
      s.minimum <= s.p50 <= s.p95 <= s.maximum && s.minimum <= s.mean <= s.maximum
  }

  // ---------------------------------------------------------------- samples in order

  predicate SortedReals(s: seq<real>) {
    forall i, j :: 0 <= i < j < |s| ==> s[i] <= s[j]
  }

  function InsertReal(x: real, s: seq<real>): (r: seq<real>)
    ensures multiset(r) == multiset{x} + multiset(s)
    decreases |s|
  {
    if s == [] || x <= s[0] then [x] + s
    else
      assert s == [s[0]] + s[1..];
      [s[0]] + InsertReal(x, s[1..])
  }

  function SortedSamples(samples: seq<real>): (r: seq<real>)
    ensures multiset(r) == multiset(samples)
    decreases |samples|
  {
    if samples == [] then []
    else
      assert samples == [samples[0]] + samples[1..];
      InsertReal(samples[0], SortedSamples(samples[1..]))
  }

  lemma {:induction false} InsertSorted(x: real, s: seq<real>)
    requires SortedReals(s)
    ensures SortedReals(InsertReal(x, s))
    decreases |s|
  {
    if s != [] && s[0] < x {
      var rest := InsertReal(x, s[1..]);
      InsertSorted(x, s[1..]);
      forall i | 0 <= i < |rest|
        ensures s[0] <= rest[i]
      {
        assert rest[i] in multiset(rest);
        assert rest[i] == x || rest[i] in s[1..];
      }
    }
  }

  lemma {:induction false} OrderedSorted(samples: seq<real>)
    ensures SortedReals(SortedSamples(samples))
    decreases |samples|
  {
    if samples != [] {
      OrderedSorted(samples[1..]);
      InsertSorted(samples[0], SortedSamples(samples[1..]));
    }
  }

  lemma OrderedSize(samples: seq<real>)
    ensures |SortedSamples(samples)| == |samples|
  {
    assert |multiset(SortedSamples(samples))| == |SortedSamples(samples)|;
    assert |multiset(samples)| == |samples|;
  }

  lemma LeastFirst(a: seq<real>, x: real)
    requires SortedReals(a) && x in a
    ensures a != [] && a[0] <= x
  {
  }

  lemma SameFirst(a: seq<real>, b: seq<real>)
    requires SortedReals(a) && SortedReals(b) && multiset(a) == multiset(b) && a != []
    ensures b != [] && a[0] == b[0]
  {
    hide SortedReals;
    assert a[0] in multiset(b);
    LeastFirst(b, a[0]);
    assert b[0] in multiset(a);
    LeastFirst(a, b[0]);
  }

  lemma RestOfSorted(a: seq<real>)
    requires SortedReals(a) && a != []
    ensures SortedReals(a[1..]) && a == [a[0]] + a[1..]
    ensures multiset(a[1..]) == multiset(a) - multiset{a[0]}
  {
    RemovedOne(a, 0);
    assert a[..0] + a[1..] == a[1..];
  }

  /** A multiset of samples has one sorted listing. */
  lemma {:induction false} SortedUnique(a: seq<real>, b: seq<real>)
    requires SortedReals(a) && SortedReals(b) && multiset(a) == multiset(b)
    ensures a == b
    decreases |a|
  {
    hide SortedReals;
    if a == [] {
      assert |multiset(b)| == 0;
    } else {
      SameFirst(a, b);
      RestOfSorted(a);
      RestOfSorted(b);
      SortedUnique(a[1..], b[1..]);
    }
  }

  // ---------------------------------------------------------------- nearest rank

  /** The smallest whole number not below `num * n / den`. */
  function Ceiling(num: int, den: int, n: int): int
    requires 0 < den
  {
    (num * n + den - 1) / den
  }

  function RankIndex(num: int, den: int, n: int): int
    requires 0 < den
  {
    Max(0, Ceiling(num, den, n) - 1)
  }

  lemma RankInRange(num: int, den: int, n: int)
    requires 0 < num <= den && 1 <= n
    ensures 1 <= Ceiling(num, den, n) <= n
    ensures 0 <= RankIndex(num, den, n) < n
    ensures den * (Ceiling(num, den, n) - 1) < num * n <= den * Ceiling(num, den, n)
  {
    ProductBounds(num, den, n);
    CeilingBounds(num * n, den);
    var q := Ceiling(num, den, n);
    CancelLess(den, q - 1, n);
    CancelLess(den, 0, q);
  }

  lemma ProductBounds(num: int, den: int, n: int)
    requires 0 < num <= den && 1 <= n
    ensures 1 <= num * n <= den * n
  {
  }

  lemma CeilingBounds(p: int, den: int)
    requires 0 < den
    ensures var q := (p + den - 1) / den; den * (q - 1) < p <= den * q
  {
  }

  lemma CancelLess(den: int, a: int, b: int)
    requires 0 < den && den * a < den * b
    ensures a < b
  {
  }

  function NearestRank(ordered: seq<real>, num: int, den: int): real
    requires ordered != [] && 0 < num <= den
  {
    RankInRange(num, den, |ordered|);
    ordered[RankIndex(num, den, |ordered|)]
  }

  /** How many samples do not exceed a value. */
  function CountAtMost(samples: seq<real>, v: real): nat
    decreases |samples|
  {
    if samples == [] then 0
    else
      var n := |samples| - 1;
      CountAtMost(samples[..n], v) + (if samples[n] <= v then 1 else 0)
  }

  lemma {:induction false} CountSplit(a: seq<real>, b: seq<real>, v: real)
    ensures CountAtMost(a + b, v) == CountAtMost(a, v) + CountAtMost(b, v)
    decreases |b|
  {
    if b == [] {
      assert a + b == a;
    } else {
      CountSplit(a, b[..|b| - 1], v);
      assert (a + b)[..|a + b| - 1] == a + b[..|b| - 1];
    }
  }

  lemma {:induction false} CountWithin(a: seq<real>, v: real)
    requires forall i :: 0 <= i < |a| ==> a[i] <= v
    ensures CountAtMost(a, v) == |a|
    decreases |a|
  {
    if a != [] {
      CountWithin(a[..|a| - 1], v);
    }
  }

  lemma {:induction false} CountAbove(a: seq<real>, v: real)
    requires forall i :: 0 <= i < |a| ==> v < a[i]
    ensures CountAtMost(a, v) == 0
    decreases |a|
  {
    if a != [] {
      CountAbove(a[..|a| - 1], v);
    }
  }

  lemma {:induction false} CountBounded(a: seq<real>, v: real)
    ensures CountAtMost(a, v) <= |a|
    decreases |a|
  {
    if a != [] {
      CountBounded(a[..|a| - 1], v);
    }
  }

  lemma RemovedCount(b: seq<real>, i: int, v: real)
    requires 0 <= i < |b|
    ensures CountAtMost(b, v) == CountAtMost(b[..i] + b[i + 1..], v) + CountAtMost([b[i]], v)
  {
    hide CountAtMost;
    assert b == b[..i] + ([b[i]] + b[i + 1..]);
    CountSplit(b[..i], [b[i]] + b[i + 1..], v);
    CountSplit([b[i]], b[i + 1..], v);
    CountSplit(b[..i], b[i + 1..], v);
  }

  lemma {:induction false} CountPermuted(a: seq<real>, b: seq<real>, v: real)
    requires multiset(a) == multiset(b)
    ensures CountAtMost(a, v) == CountAtMost(b, v)
    decreases |a|
  {
    hide CountAtMost;
    if a == [] {
      assert |multiset(b)| == 0;
    } else {
      assert a[0] in multiset(b);
      var i :| 0 <= i < |b| && b[i] == a[0];
      RemovedOne(a, 0);
      RemovedOne(b, i);
      RemovedCount(a, 0, v);
      RemovedCount(b, i, v);
      CountPermuted(a[..0] + a[1..], b[..i] + b[i + 1..], v);
    }
  }

  lemma CountUpTo(ordered: seq<real>, i: int)
    requires SortedReals(ordered) && 0 <= i < |ordered|
    ensures i + 1 <= CountAtMost(ordered, ordered[i])
  {
    hide CountAtMost;
    var low, high := ordered[..i + 1], ordered[i + 1..];
    assert ordered == low + high;
    CountSplit(low, high, ordered[i]);
    CountWithin(low, ordered[i]);
  }

  lemma CountBelow(ordered: seq<real>, i: int, w: real)
    requires SortedReals(ordered) && 0 <= i < |ordered| && w < ordered[i]
    ensures CountAtMost(ordered, w) <= i
  {
    hide CountAtMost;
    var below, rest := ordered[..i], ordered[i..];
    assert ordered == below + rest;
    CountSplit(below, rest, w);
    CountBounded(below, w);
    forall j | 0 <= j < |rest|
      ensures w < rest[j]
    {
      assert rest[j] == ordered[i + j];
    }
    CountAbove(rest, w);
  }

  /** What a nearest-rank quantile is: a sample that at least ceil(p*n) samples do not exceed, and
      the least such: fewer than ceil(p*n) samples do not exceed any smaller value. */
  lemma NearestRankIsQuantile(samples: seq<real>, num: int, den: int, w: real)
    requires samples != [] && 0 < num <= den
    ensures SortedSamples(samples) != []
    ensures
      var v := NearestRank(SortedSamples(samples), num, den);
      var need := Ceiling(num, den, |samples|);
      && v in samples
      && need <= CountAtMost(samples, v)
      && (w < v ==> CountAtMost(samples, w) < need)
  {
    hide SortedSamples, CountAtMost, Ceiling;
    OrderedSize(samples);
    var ordered := SortedSamples(samples);
    var i := RankIndex(num, den, |samples|);
    RankInRange(num, den, |samples|);
    OrderedSorted(samples);
    CountUpTo(ordered, i);
    if w < ordered[i] {
      CountBelow(ordered, i, w);
    }
    CountPermuted(samples, ordered, ordered[i]);
    CountPermuted(samples, ordered, w);
    assert ordered[i] in multiset(ordered);
    assert ordered[i] in multiset(samples);
  }

  // ---------------------------------------------------------------- the summary

  /** The conversion of every sample to a float. */
  function Floats(rd: real -> real, samples: seq<real>): (r: seq<real>)
    ensures |r| == |samples| && forall i :: 0 <= i < |r| ==> r[i] == rd(samples[i])
  {
    seq(|samples|, i requires 0 <= i < |samples| => rd(samples[i]))
  }

  /** The exact sum is rounded once, and so is the quotient. */
  function RoundedMean(rd: real -> real, sum: real, n: int): real
    requires 1 <= n
  {
    rd(rd(sum) / n as real)
  }

  predicate Suppressed(n: int, suppressBelow: Option<int>) {
    suppressBelow.Some? && n < suppressBelow.value
  }

  function Observed(rd: real -> real, ordered: seq<real>): Statistics
    requires ordered != []
  {
    Statistics(
      ordered[0], NearestRank(ordered, 1, 2), NearestRank(ordered, 19, 20), ordered[|ordered| - 1],
      RoundedMean(rd, Sum(ordered), |ordered|))
  }

  function Summarized(rd: real -> real, samples: seq<real>, suppressBelow: Option<int>): QuantileSummary {
    var ordered := SortedSamples(Floats(rd, samples));
    OrderedSize(Floats(rd, samples));
    if samples == [] then QuantileSummary(0, false, None)
    else if Suppressed(|samples|, suppressBelow) then QuantileSummary(|samples|, true, None)
    else QuantileSummary(|samples|, false, Some(Observed(rd, ordered)))
  }

  /** None is the error its validator raises. */
  function Quantiles(rd: real -> real, samples: seq<real>, suppressBelow: Option<int>): Option<QuantileSummary> {
    var q := Summarized(rd, samples, suppressBelow);
    if ValidSummary(q) then Some(q) else None
  }

  lemma RanksSortedSamples(n: int)
    requires 1 <= n
    ensures 0 <= RankIndex(1, 2, n) <= RankIndex(19, 20, n) < n
  {
    RankInRange(1, 2, n);
    RankInRange(19, 20, n);
  }

  lemma {:induction false} SumBounds(values: seq<real>, low: real, high: real)
    requires forall i :: 0 <= i < |values| ==> low <= values[i] <= high
    ensures Enlarged(low, |values|) <= Sum(values) <= Enlarged(high, |values|)
    decreases |values|
  {
    if values != [] {
      var n := |values| - 1;
      SumBounds(values[..n], low, high);
      OneMore(n, low);
      OneMore(n, high);
    }
  }

  lemma OneMore(n: int, v: real)
    ensures Enlarged(v, n + 1) == Enlarged(v, n) + v
  {
    assert (n + 1) as real == n as real + 1.0;
  }

  lemma QuantilesInOrder(ordered: seq<real>)
    requires SortedReals(ordered) && ordered != []
    ensures ordered[0] <= NearestRank(ordered, 1, 2) <= NearestRank(ordered, 19, 20) <= ordered[|ordered| - 1]
  {
    hide RankIndex;
    RanksSortedSamples(|ordered|);
  }

  /** The quantiles are always in order: a summary is refused exactly when it shows a mean outside
      the range of its samples. An accepted one counts its samples. */
  lemma RefusedIffMeanOutside(rd: real -> real, samples: seq<real>, suppressBelow: Option<int>)
    ensures
      var ordered := SortedSamples(Floats(rd, samples));
      |ordered| == |samples|
      && (Quantiles(rd, samples, suppressBelow).None? <==>
            samples != [] && !Suppressed(|samples|, suppressBelow)
            && !(ordered[0] <= RoundedMean(rd, Sum(ordered), |samples|) <= ordered[|samples| - 1]))
    ensures Quantiles(rd, samples, suppressBelow).Some?
            ==> Quantiles(rd, samples, suppressBelow).value.sampleCount == |samples|
  {
    hide SortedSamples, Sum, NearestRank, SortedReals, Floats, RoundedMean;
    OrderedSize(Floats(rd, samples));
    OrderedSorted(Floats(rd, samples));
    if samples != [] {
      QuantilesInOrder(SortedSamples(Floats(rd, samples)));
    }
  }

  lemma MeanMonotone(rd: real -> real, a: real, b: real, n: int)
    requires Rounds(rd) && 1 <= n && a <= b
    ensures RoundedMean(rd, a, n) <= RoundedMean(rd, b, n)
  {
    assert rd(a) <= rd(b);
    ReducedMonotone(rd(a), rd(b), n);
  }

  /** A summary is accepted when n times its least sample does not average below it, and n times
      its greatest not above: the sample in between cannot do worse. */
  lemma AcceptedByExtremes(rd: real -> real, samples: seq<real>, suppressBelow: Option<int>)
    requires Rounds(rd) && samples != []
    requires
      var ordered := SortedSamples(Floats(rd, samples));
      var n := |samples|;
      |ordered| == n
      && ordered[0] <= RoundedMean(rd, Enlarged(ordered[0], n), n)
      && RoundedMean(rd, Enlarged(ordered[n - 1], n), n) <= ordered[n - 1]
    ensures Quantiles(rd, samples, suppressBelow).Some?
  {
    hide SortedSamples, Sum, Floats, RoundedMean, Quantiles, Enlarged;
    var ordered, n := SortedSamples(Floats(rd, samples)), |samples|;
    OrderedSorted(Floats(rd, samples));
    RefusedIffMeanOutside(rd, samples, suppressBelow);
    SumBounds(ordered, ordered[0], ordered[n - 1]);
    MeanMonotone(rd, Enlarged(ordered[0], n), Sum(ordered), n);
    MeanMonotone(rd, Sum(ordered), Enlarged(ordered[n - 1], n), n);
  }

  function Constant(v: real, n: nat): (r: seq<real>)
    ensures |r| == n && forall i :: 0 <= i < n ==> r[i] == v
  {
    seq(n, i requires 0 <= i < n => v)
  }

  lemma ConstantSum(rd: real -> real, v: real, n: nat)
    requires 1 <= n && rd(v) == v
    ensures
      var ordered := SortedSamples(Floats(rd, Constant(v, n)));
      |ordered| == n && ordered[0] == v && ordered[n - 1] == v && Sum(ordered) == Enlarged(v, n)
  {
    hide SortedSamples, Sum;
    var floats := Floats(rd, Constant(v, n));
    var ordered := SortedSamples(floats);
    OrderedSize(floats);
    forall i | 0 <= i < n
      ensures ordered[i] == v
    {
      assert ordered[i] in multiset(floats);
    }
    SumBounds(ordered, v, v);
  }

  /** n equal samples are accepted exactly when they average to the sample. */
  lemma EqualSamples(rd: real -> real, v: real, n: nat, suppressBelow: Option<int>)
    requires Rounds(rd) && rd(v) == v && 1 <= n && !Suppressed(n, suppressBelow)
    ensures Quantiles(rd, Constant(v, n), suppressBelow).Some? <==> RoundedMean(rd, Enlarged(v, n), n) == v
  {
    hide SortedSamples, Sum, Floats, RoundedMean, Quantiles, Enlarged;
    RefusedIffMeanOutside(rd, Constant(v, n), suppressBelow);
    ConstantSum(rd, v, n);
  }

  ghost predicate AllAccepted(rd: real -> real, n: nat, suppressBelow: Option<int>) {
    forall samples :: |samples| == n ==> Quantiles(rd, samples, suppressBelow).Some?
  }

  ghost predicate OwnAverages(rd: real -> real, n: nat)
    requires 1 <= n
  {
    forall v :: rd(v) == v ==> RoundedMean(rd, Enlarged(v, n), n) == v
  }

  lemma SizeRefused(rd: real -> real, n: nat, suppressBelow: Option<int>, v: real)
    requires Rounds(rd) && rd(v) == v && 1 <= n && !Suppressed(n, suppressBelow)
    requires AllAccepted(rd, n, suppressBelow)
    ensures RoundedMean(rd, Enlarged(v, n), n) == v
  {
    EqualSamples(rd, v, n, suppressBelow);
  }

  lemma OwnAverage(rd: real -> real, samples: seq<real>, v: real)
    requires Rounds(rd) && samples != [] && OwnAverages(rd, |samples|)
    requires v in multiset(Floats(rd, samples))
    ensures RoundedMean(rd, Enlarged(v, |samples|), |samples|) == v
  {
    hide RoundedMean, Enlarged;
    var i :| 0 <= i < |samples| && Floats(rd, samples)[i] == v;
    Twice(rd, samples[i]);
  }

  lemma Twice(rd: real -> real, x: real)
    requires Rounds(rd)
    ensures rd(rd(x)) == rd(x)
  {
  }

  lemma SizeAccepted(rd: real -> real, samples: seq<real>, suppressBelow: Option<int>)
    requires Rounds(rd) && samples != [] && OwnAverages(rd, |samples|)
    ensures Quantiles(rd, samples, suppressBelow).Some?
  {
    hide SortedSamples, RoundedMean, Quantiles, Enlarged, Rounds, OwnAverages;
    var floats := Floats(rd, samples);
    var ordered := SortedSamples(floats);
    OrderedSize(floats);
    OwnAverage(rd, samples, ordered[0]);
    OwnAverage(rd, samples, ordered[|samples| - 1]);
    AcceptedByExtremes(rd, samples, suppressBelow);
  }

  /** Under any rounding, every sample of size n is accepted if and only if every float averages to
      itself when it is taken n times. */
  lemma AcceptedIffOwnAverages(rd: real -> real, n: nat, suppressBelow: Option<int>)
    requires Rounds(rd) && 1 <= n && !Suppressed(n, suppressBelow)
    ensures AllAccepted(rd, n, suppressBelow) <==> OwnAverages(rd, n)
  {
    hide Quantiles, RoundedMean, Enlarged, Rounds;
    if AllAccepted(rd, n, suppressBelow) {
      forall v: real | rd(v) == v
        ensures RoundedMean(rd, Enlarged(v, n), n) == v
      {
        SizeRefused(rd, n, suppressBelow, v);
      }
    }
    if OwnAverages(rd, n) {
      forall samples: seq<real> | |samples| == n
        ensures Quantiles(rd, samples, suppressBelow).Some?
      {
        SizeAccepted(rd, samples, suppressBelow);
      }
    }
  }

  lemma MeanInPlace(n: int, v: real)
    requires 1 <= n
    ensures RoundedMean(Binary64, Enlarged(v, n), n) == EqualMean(1074, n, v)
  {
    hide Round, Enlarged;
  }

  /** With binary64, every sample of a size is accepted if and only if the size is a power of two:
      for any other, some equal samples between 0 and 1 are refused. */
  lemma AcceptedIffPowerOfTwo(n: nat, suppressBelow: Option<int>)
    requires 1 <= n <= LOW && !Suppressed(n, suppressBelow)
    ensures AllAccepted(Binary64, n, suppressBelow) <==> PowerOfTwo(n)
    ensures !PowerOfTwo(n) ==>
              exists v :: 0.0 < v < 1.0 && Quantiles(Binary64, Constant(v, n), suppressBelow).None?
  {
    hide Quantiles, RoundedMean, EqualMean, Round, PowerOfTwo, Enlarged;
    Binary64Rounds();
    AcceptedIffOwnAverages(Binary64, n, suppressBelow);
    if PowerOfTwo(n) {
      forall v: real | Binary64(v) == v
        ensures RoundedMean(Binary64, Enlarged(v, n), n) == v
      {
        PowerOfTwoKept(1074, n, v);
        MeanInPlace(n, v);
      }
    } else {
      var v := OtherwiseLost(1074, n);
      MeanInPlace(n, v);
      assert Binary64(v) == v;
      EqualSamples(Binary64, v, n, suppressBelow);
    }
  }

  /** Three cases that all score 0.7 are refused: their mean is one place below 0.7. */
  lemma SevenTenthsRefused()
    ensures Quantiles(Binary64, [0.7, 0.7, 0.7], None).None?
  {
    hide Quantiles, RoundedMean, Round, EqualMean, Reduced, Units, Enlarged;
    var m := 6305039478318694;
    var v := Reduced(m as real, HIGH);
    RoundFraction(0.7, m);
    ThreeTimes(m);
    EqualMeanScaled(1074, 3, m);
    MeanInPlace(3, v);
    Restored(m as real, HIGH);
    Restored(6305039478318693.0, HIGH);
    Binary64Rounds();
    EqualSamples(Binary64, v, 3, None);
    RoundedSamplesAlike(Binary64, [0.7, 0.7, 0.7], Constant(v, 3), None);
  }

  lemma ThreeTimes(m: int)
    requires m == 6305039478318694
    ensures Units((3 * m) as real) == 18915118434956080.0
    ensures LOW as real <= Reduced(Units((3 * m) as real), 3)
    ensures Units(Reduced(Units((3 * m) as real), 3)) == 6305039478318693.0
  {
    var y := 4728779608739020.5;
    assert y.Floor == 4728779608739020;
    UnitsBelow(y);
    assert Units(9457559217478041.0) == 2.0 * Units(y);
    assert Units(18915118434956082.0) == 2.0 * Units(9457559217478041.0);
    var q := Reduced(18915118434956080.0, 3);
    assert q.Floor == 6305039478318693;
    UnitsBelow(q);
  }

  /** Only the floats of the samples matter. */
  lemma RoundedSamplesAlike(rd: real -> real, a: seq<real>, b: seq<real>, suppressBelow: Option<int>)
    requires |a| == |b| && forall i :: 0 <= i < |a| ==> rd(a[i]) == rd(b[i])
    ensures Quantiles(rd, a, suppressBelow) == Quantiles(rd, b, suppressBelow)
  {
    hide SortedSamples, Observed;
    assert Floats(rd, a) == Floats(rd, b);
  }

  lemma WithoutFirst(a: seq<real>, b: seq<real>) returns (i: int)
    requires multiset(a) == multiset(b) && a != []
    ensures 0 <= i < |b| && b[i] == a[0] && multiset(a[..0] + a[1..]) == multiset(b[..i] + b[i + 1..])
  {
    assert a[0] in multiset(b);
    i :| 0 <= i < |b| && b[i] == a[0];
    RemovedOne(a, 0);
    RemovedOne(b, i);
  }

  lemma {:induction false} FloatsPermuted(rd: real -> real, a: seq<real>, b: seq<real>)
    requires multiset(a) == multiset(b)
    ensures multiset(Floats(rd, a)) == multiset(Floats(rd, b))
    decreases |a|
  {
    hide Floats;
    if a == [] {
      assert |multiset(b)| == 0;
    } else {
      var i := WithoutFirst(a, b);
      FloatsPermuted(rd, a[..0] + a[1..], b[..i] + b[i + 1..]);
      FloatsWithout(rd, a, 0);
      FloatsWithout(rd, b, i);
    }
  }

  lemma FloatsWithout(rd: real -> real, a: seq<real>, i: int)
    requires 0 <= i < |a|
    ensures multiset(Floats(rd, a)) == multiset(Floats(rd, a[..i] + a[i + 1..])) + multiset{rd(a[i])}
  {
    var floats := Floats(rd, a);
    assert Floats(rd, a[..i] + a[i + 1..]) == floats[..i] + floats[i + 1..];
    RemovedOne(floats, i);
    assert multiset{floats[i]} <= multiset(floats);
  }

  /** The order of the samples makes no difference. */
  lemma QuantilesOfPermutation(rd: real -> real, a: seq<real>, b: seq<real>, suppressBelow: Option<int>)
    requires multiset(a) == multiset(b)
    ensures Quantiles(rd, a, suppressBelow) == Quantiles(rd, b, suppressBelow)
  {
    hide SortedSamples, Observed, Floats;
    assert |multiset(a)| == |a| && |multiset(b)| == |b|;
    FloatsPermuted(rd, a, b);
    OrderedSorted(Floats(rd, a));
    OrderedSorted(Floats(rd, b));
    SortedUnique(SortedSamples(Floats(rd, a)), SortedSamples(Floats(rd, b)));
  }

  // ---------------------------------------------------------------- the rank in floats

  function CeilingOf(x: real): int {
    -((-x).Floor)
  }

  lemma NinetyFive()
    ensures Binary64(0.95) == 8556839292003942.0 / HIGH as real
  {
    RoundFraction(0.95, 8556839292003942);
  }

  lemma ProductNear(n: int, k: int)
    requires 1 <= n <= 0x4000_0000_0000 && 20 * (k - 1) < 19 * n <= 20 * k
    ensures (32 * (k - 1) + 1) as real / 32.0 <= 8556839292003942.0 / HIGH as real * n as real <= k as real
  {
    var c := 8556839292003942.0 / HIGH as real;
    assert c * HIGH as real == 8556839292003942.0;
    assert c * n as real * HIGH as real == 8556839292003942.0 * n as real;
  }

  lemma BetweenDyadics(x: real, k: int)
    requires 1 <= k <= 0x4000_0000_0000 && (32 * (k - 1) + 1) as real / 32.0 <= x <= k as real
    ensures CeilingOf(Binary64(x)) == k
  {
    hide Round;
    RoundDyadic(1074, 0, k);
    RoundDyadic(1074, 5, 32 * (k - 1) + 1);
    assert Pow2(5) == 32;
    RoundMonotone(1074, x, k as real);
    RoundMonotone(1074, (32 * (k - 1) + 1) as real / 32.0, x);
  }

  lemma FloatRank(n: int)
    requires 1 <= n <= 0x4000_0000_0000
    ensures CeilingOf(Binary64(Binary64(0.95) * n as real)) == Ceiling(19, 20, n)
  {
    hide Binary64, CeilingOf, Ceiling;
    RankInRange(19, 20, n);
    NinetyFive();
    ProductNear(n, Ceiling(19, 20, n));
    BetweenDyadics(8556839292003942.0 / HIGH as real * n as real, Ceiling(19, 20, n));
  }

  /** The ranks computed in binary64, from the floats of 0.5 and 0.95, are the exact ones. */
  lemma FloatRanksExact(n: int)
    requires 1 <= n <= 0x4000_0000_0000
    ensures CeilingOf(Binary64(Binary64(0.5) * n as real)) == Ceiling(1, 2, n)
    ensures CeilingOf(Binary64(Binary64(0.95) * n as real)) == Ceiling(19, 20, n)
  {
    hide Binary64, CeilingOf, Ceiling;
    HalfFloats(1);
    HalfFloats(n);
    FloatRank(n);
  }

  lemma HalfFloats(n: int)
    requires 1 <= n < HIGH
    ensures Binary64(n as real / 2.0) == n as real / 2.0
    ensures Binary64(0.5 * n as real) == n as real / 2.0
    ensures CeilingOf(n as real / 2.0) == Ceiling(1, 2, n)
  {
    hide Round;
    assert Pow2(1) == 2 * Pow2(0) && Pow2(0) == 1;
    RoundDyadic(1074, 1, n);
    assert 0.5 * n as real == n as real / 2.0;
    HalfCeiling(n);
  }

  lemma HalfCeiling(n: int)
    ensures CeilingOf(n as real / 2.0) == (n + 1) / 2
  {
    assert (-(n as real / 2.0)).Floor == (-n) / 2;
  }

  // ---------------------------------------------------------------- score and delta distributions

  datatype ScoreValues = ScoreValues(
    attempted: int, scored: int, skipped: int, errors: int, statistics: QuantileSummary)

  datatype Deltas = Deltas(attempted: int, compared: int, incomparable: int, statistics: QuantileSummary)

  predicate ValidScoreValues(v: ScoreValues) {
    && ValidSummary(v.statistics)
    && v.attempted == v.scored + v.skipped + v.errors && v.statistics.sampleCount == v.scored
    && 0 <= v.scored && 0 <= v.skipped && 0 <= v.errors
  }

  predicate ValidDeltas(d: Deltas) {
    && ValidSummary(d.statistics)
    && d.attempted == d.compared + d.incomparable && d.statistics.sampleCount == d.compared
    && 0 <= d.compared && 0 <= d.incomparable
  }

  /** One side of a gate, counted in one pass: an error exactly when the statistics of the scored
      values are refused, else the same coverage as its aggregate with those statistics. */
  method CountScoreValues(rd: real -> real, values: seq<Score>) returns (r: Option<ScoreValues>)
    ensures r.Some? <==> Quantiles(rd, Scores(values), None).Some?
    ensures r.Some? ==>
              var tally := Tally(values);
              && ValidScoreValues(r.value)
              && r.value.attempted == tally.attempted && r.value.scored == tally.scored
              && r.value.skipped == tally.skipped && r.value.errors == tally.errors
              && Some(r.value.statistics) == Quantiles(rd, Scores(values), None)
  {
    hide Quantiles, ValidSummary, Mean;
    var scored: seq<real>, skipped, errors, i := [], 0, 0, 0;
    while i < |values|
      invariant 0 <= i <= |values|
      invariant scored == Scores(values[..i])
      invariant skipped == CountSkipped(values[..i])
      invariant errors == CountErrors(values[..i])
    {
      assert values[..i + 1][..i] == values[..i];
      match values[i] {
        case Scored(value) => scored := scored + [value];
        case Skipped => skipped := skipped + 1;
        case Errored => errors := errors + 1;
      }
      i := i + 1;
    }
    assert values[..i] == values;
    TallyCounts(values);
    Accepted(rd, scored, None);
    match Quantiles(rd, scored, None) {
      case None => r := None;
      case Some(statistics) => r := Some(ScoreValues(|values|, |scored|, skipped, errors, statistics));
    }
  }

  lemma Accepted(rd: real -> real, samples: seq<real>, suppressBelow: Option<int>)
    ensures
      var q := Quantiles(rd, samples, suppressBelow);
      q.Some? ==> ValidSummary(q.value) && q.value.sampleCount == |samples|
  {
    hide Observed, ValidSummary;
  }

  function CaseDeltas(cases: seq<CaseComparison>): (r: seq<real>)
    ensures |r| <= |cases|
    decreases |cases|
  {
    if cases == [] then []
    else
      var n := |cases| - 1;
      CaseDeltas(cases[..n]) + (if cases[n].delta.Some? then [cases[n].delta.value] else [])
  }

  /** The deltas of the comparable cases; each is stored as the float of the difference. */
  function DeltasOf(rd: real -> real, cases: seq<CaseComparison>): Option<Deltas> {
    var deltas := CaseDeltas(cases);
    match Quantiles(rd, deltas, None)
    case None => None
    case Some(statistics) => Some(Deltas(|cases|, |deltas|, |cases| - |deltas|, statistics))
  }

  function CountIncomparable(cases: seq<CaseComparison>): nat
    decreases |cases|
  {
    if cases == [] then 0
    else
      var n := |cases| - 1;
      CountIncomparable(cases[..n]) + (if cases[n].change.Incomparable? then 1 else 0)
  }

  /** The validator of a case comparison: a delta exactly for comparable cases. */
  predicate DeltaFits(c: CaseComparison) {
    c.delta.None? <==> c.change.Incomparable?
  }

  lemma CompareCaseFits(c: EvaluationCase, g: Gate, baseline: Score, candidate: Score)
    ensures DeltaFits(CompareCase(c, g, baseline, candidate))
  {
    hide Passes;
  }

  lemma {:induction false} DeltasCounted(cases: seq<CaseComparison>)
    requires forall i :: 0 <= i < |cases| ==> DeltaFits(cases[i])
    ensures |cases| - |CaseDeltas(cases)| == CountIncomparable(cases)
    decreases |cases|
  {
    if cases != [] {
      DeltasCounted(cases[..|cases| - 1]);
    }
  }

  /** Every comparison of every decision carries a delta exactly when both sides were scored. */
  lemma DecisionDeltasFit(spec: Spec, x: Inputs, c: CaseComparison)
    requires Compare(spec, x).Ok? && c in Compare(spec, x).value.cases
    ensures DeltaFits(c)
  {
    hide Compare, SameCases, AllGateCases, GateCases, DeltaFits, CompareCase, InScope;
    DecisionCases(spec, x);
    assert c in multiset(Compare(spec, x).value.cases);
    assert c in multiset(AllGateCases(x, spec.gates));
    var k, i := CaseSource(x, spec.gates, c);
    GateCaseAt(x, spec.gates[k], i);
    var g := spec.gates[k];
    var selected := InScope(x.dataset.cases, g.slice);
    CompareCaseFits(selected[i], g, ScopedValues(selected, x.baseline.cases, g.metric)[i],
                    ScopedValues(selected, x.candidate.cases, g.metric)[i]);
  }

  /** The cases of one gate among the cases of a decision. */
  function GateEvidence(cases: seq<CaseComparison>, metric: string, gateSlice: Option<string>): seq<CaseComparison> {
    Matching(cases, CaseFilter(Some(metric), gateSlice, None, None), None)
  }

  /** For every gate of every decision, an accepted delta distribution meets its validator and its
      incomparable count is the number of comparisons marked incomparable; a refused one is refused
      for the mean of its deltas. */
  lemma DeltasValid(rd: real -> real, spec: Spec, x: Inputs, metric: string, gateSlice: Option<string>)
    requires Compare(spec, x).Ok?
    ensures
      var cases := GateEvidence(Compare(spec, x).value.cases, metric, gateSlice);
      var deltas := DeltasOf(rd, cases);
      && (deltas.Some? ==> ValidDeltas(deltas.value) && deltas.value.attempted == |cases|
                           && deltas.value.incomparable == CountIncomparable(cases))
      && (deltas.None? <==> Quantiles(rd, CaseDeltas(cases), None).None?)
  {
    hide Compare, Quantiles, ValidSummary, DeltaFits, Matches;
    var cases := GateEvidence(Compare(spec, x).value.cases, metric, gateSlice);
    MatchingMembers(Compare(spec, x).value.cases, CaseFilter(Some(metric), gateSlice, None, None), None);
    forall i | 0 <= i < |cases|
      ensures DeltaFits(cases[i])
    {
      DecisionDeltasFit(spec, x, cases[i]);
    }
    DeltasCounted(cases);
    Accepted(rd, CaseDeltas(cases), None);
  }

  // ---------------------------------------------------------------- operational measurements

  /** What a stored case says of its invocation: a target failure with or without a latency, no
      target at all, or a response with its latency and usage. */
  datatype Invocation =
    | TargetFailure(failureLatency: Option<real>)
    | NoTarget
    | Response(latency: real, inputUnits: int, outputUnits: int)

  datatype Measurement = Measurement(
    attempted: int, measured: int, unavailable: int, targetFailures: int, statistics: QuantileSummary)

  datatype Operational = Operational(
    latency: Measurement, inputUnits: Measurement, outputUnits: Measurement, totalUnits: Measurement)

  predicate ValidMeasurement(m: Measurement) {
    && ValidSummary(m.statistics)
    && m.attempted == m.measured + m.unavailable && m.targetFailures <= m.attempted
    && m.statistics.sampleCount == m.measured
    && 0 <= m.measured && 0 <= m.unavailable && 0 <= m.targetFailures
  }

  function Latencies(cases: seq<Invocation>): seq<real>
    decreases |cases|
  {
    if cases == [] then []
    else
      var n := |cases| - 1;
      Latencies(cases[..n]) +
      match cases[n]
      case TargetFailure(latency) => if latency.Some? then [latency.value] else []
      case NoTarget => []
      case Response(latency, _, _) => [latency]
  }

  datatype Unit = InputUnit | OutputUnit | TotalUnit

  function UnitsOf(c: Invocation, unit: Unit): real
    requires c.Response?
  {
    match unit
    case InputUnit => c.inputUnits as real
    case OutputUnit => c.outputUnits as real
    case TotalUnit => (c.inputUnits + c.outputUnits) as real
  }

  function Usage(cases: seq<Invocation>, unit: Unit): seq<real>
    decreases |cases|
  {
    if cases == [] then []
    else
      var n := |cases| - 1;
      Usage(cases[..n], unit) + (if cases[n].Response? then [UnitsOf(cases[n], unit)] else [])
  }

  function CountTargetFailures(cases: seq<Invocation>): nat
    decreases |cases|
  {
    if cases == [] then 0
    else CountTargetFailures(cases[..|cases| - 1]) + (if cases[|cases| - 1].TargetFailure? then 1 else 0)
  }

  function Measured(
    rd: real -> real, values: seq<real>, attempted: int, unavailable: int, failures: int): Option<Measurement>
  {
    match Quantiles(rd, values, Some(MIN_AGGREGATE_SIZE))
    case None => None
    case Some(statistics) => Some(Measurement(attempted, |values|, unavailable, failures, statistics))
  }

  /** The measurement of exactly the available values, the rest counted as unavailable. */
  function MeasureValues(rd: real -> real, values: seq<real>, cases: seq<Invocation>): Option<Measurement> {
    Measured(rd, values, |cases|, |cases| - |values|, CountTargetFailures(cases))
  }

  function Together(latency: Option<Measurement>, input: Option<Measurement>, output: Option<Measurement>,
                    total: Option<Measurement>): Option<Operational> {
    if latency.Some? && input.Some? && output.Some? && total.Some?
    then Some(Operational(latency.value, input.value, output.value, total.value))
    else None
  }

  function MeasurementsOf(rd: real -> real, cases: seq<Invocation>): Option<Operational> {
    Together(
      MeasureValues(rd, Latencies(cases), cases), MeasureValues(rd, Usage(cases, InputUnit), cases),
      MeasureValues(rd, Usage(cases, OutputUnit), cases), MeasureValues(rd, Usage(cases, TotalUnit), cases))
  }

  lemma {:induction false} Available(cases: seq<Invocation>, unit: Unit)
    ensures |Usage(cases, unit)| <= |cases| && |Latencies(cases)| <= |cases|
    ensures CountTargetFailures(cases) <= |cases|
    decreases |cases|
  {
    if cases != [] {
      Available(cases[..|cases| - 1], unit);
    }
  }

  lemma MeasuredValid(rd: real -> real, values: seq<real>, cases: seq<Invocation>)
    requires |values| <= |cases|
    ensures
      var m := MeasureValues(rd, values, cases);
      && (m.Some? ==> ValidMeasurement(m.value))
      && (m.Some? <==> Quantiles(rd, values, Some(MIN_AGGREGATE_SIZE)).Some?)
  {
    hide Quantiles, ValidSummary;
    Available(cases, InputUnit);
    Accepted(rd, values, Some(MIN_AGGREGATE_SIZE));
  }

  lemma UsageValid(rd: real -> real, cases: seq<Invocation>, unit: Unit)
    ensures
      var m := MeasureValues(rd, Usage(cases, unit), cases);
      m.Some? ==> ValidMeasurement(m.value)
  {
    hide MeasureValues, ValidMeasurement, Usage, Quantiles;
    Available(cases, unit);
    MeasuredValid(rd, Usage(cases, unit), cases);
  }

  lemma LatencyValid(rd: real -> real, cases: seq<Invocation>)
    ensures
      var m := MeasureValues(rd, Latencies(cases), cases);
      m.Some? ==> ValidMeasurement(m.value)
  {
    hide MeasureValues, ValidMeasurement, Latencies, Quantiles;
    Available(cases, InputUnit);
    MeasuredValid(rd, Latencies(cases), cases);
  }

  lemma MeasurementsValid(rd: real -> real, cases: seq<Invocation>)
    ensures
      var r := MeasurementsOf(rd, cases);
      r.Some? ==>
        && ValidMeasurement(r.value.latency) && ValidMeasurement(r.value.inputUnits)
        && ValidMeasurement(r.value.outputUnits) && ValidMeasurement(r.value.totalUnits)
  {
    hide MeasureValues, ValidMeasurement, Latencies, Usage;
    LatencyValid(rd, cases);
    UsageValid(rd, cases, InputUnit);
    UsageValid(rd, cases, OutputUnit);
    UsageValid(rd, cases, TotalUnit);
  }

  lemma MeasurementsJoin(rd: real -> real, cases: seq<Invocation>)
    ensures
      var n, failures := |cases|, CountTargetFailures(cases);
      MeasurementsOf(rd, cases) == Together(
        Measured(rd, Latencies(cases), n, n - |Latencies(cases)|, failures),
        Measured(rd, Usage(cases, InputUnit), n, n - |Usage(cases, InputUnit)|, failures),
        Measured(rd, Usage(cases, OutputUnit), n, n - |Usage(cases, OutputUnit)|, failures),
        Measured(rd, Usage(cases, TotalUnit), n, n - |Usage(cases, TotalUnit)|, failures))
  {
    hide Measured, Latencies, Usage, CountTargetFailures, Together;
  }

  /** Latency and usage of a run, in one pass over its cases: each measurement is of exactly the
      available values and meets its validator, unless one of them is refused. */
  method MeasureRun(rd: real -> real, cases: seq<Invocation>) returns (r: Option<Operational>)
    ensures r == MeasurementsOf(rd, cases)
    ensures r.Some? ==>
              && ValidMeasurement(r.value.latency) && ValidMeasurement(r.value.inputUnits)
              && ValidMeasurement(r.value.outputUnits) && ValidMeasurement(r.value.totalUnits)
  {
    hide MeasurementsOf, Together, Measured, ValidMeasurement;
    var latency: seq<real>, input: seq<real>, output: seq<real>, total: seq<real> := [], [], [], [];
    var failures, latencyUnavailable, usageUnavailable, i := 0, 0, 0, 0;
    while i < |cases|
      invariant 0 <= i <= |cases|
      invariant latency == Latencies(cases[..i])
      invariant input == Usage(cases[..i], InputUnit)
      invariant output == Usage(cases[..i], OutputUnit)
      invariant total == Usage(cases[..i], TotalUnit)
      invariant failures == CountTargetFailures(cases[..i])
      invariant latencyUnavailable == i - |latency|
      invariant usageUnavailable == i - |input| && |input| == |output| == |total|
    {
      assert cases[..i + 1][..i] == cases[..i];
      match cases[i] {
        case TargetFailure(failureLatency) =>
          failures := failures + 1;
          usageUnavailable := usageUnavailable + 1;
          if failureLatency.None? {
            latencyUnavailable := latencyUnavailable + 1;
          } else {
            latency := latency + [failureLatency.value];
          }
        case NoTarget =>
          latencyUnavailable := latencyUnavailable + 1;
          usageUnavailable := usageUnavailable + 1;
        case Response(took, inputUnits, outputUnits) =>
          latency := latency + [took];
          input := input + [inputUnits as real];
          output := output + [outputUnits as real];
          total := total + [(inputUnits + outputUnits) as real];
      }
      i := i + 1;
    }
    assert cases[..i] == cases;
    MeasurementsValid(rd, cases);
    var latencyMeasured := Measured(rd, latency, |cases|, latencyUnavailable, failures);
    var inputMeasured := Measured(rd, input, |cases|, usageUnavailable, failures);
    var outputMeasured := Measured(rd, output, |cases|, usageUnavailable, failures);
    var totalMeasured := Measured(rd, total, |cases|, usageUnavailable, failures);
    MeasurementsJoin(rd, cases);
    r := Together(latencyMeasured, inputMeasured, outputMeasured, totalMeasured);
  }

  // ---------------------------------------------------------------- what small runs give away

  predicate SameKind(a: Invocation, b: Invocation) {
    match a
    case TargetFailure(latency) => b.TargetFailure? && (latency.Some? <==> b.failureLatency.Some?)
    case NoTarget => b.NoTarget?
    case Response(_, _, _) => b.Response?
  }

  /** The same outcomes, case by case, with any latencies and usage. */
  predicate SameShape(a: seq<Invocation>, b: seq<Invocation>) {
    |a| == |b| && forall i :: 0 <= i < |a| ==> SameKind(a[i], b[i])
  }

  lemma {:induction false} ShapeCounts(a: seq<Invocation>, b: seq<Invocation>, unit: Unit)
    requires SameShape(a, b)
    ensures |Latencies(a)| == |Latencies(b)| && |Usage(a, unit)| == |Usage(b, unit)|
    ensures CountTargetFailures(a) == CountTargetFailures(b)
    decreases |a|
  {
    if a != [] {
      var n := |a| - 1;
      assert SameKind(a[n], b[n]);
      ShapeCounts(a[..n], b[..n], unit);
    }
  }

  lemma SmallAlike(rd: real -> real, v: seq<real>, w: seq<real>)
    requires |v| == |w| < MIN_AGGREGATE_SIZE
    ensures Quantiles(rd, v, Some(MIN_AGGREGATE_SIZE)) == Quantiles(rd, w, Some(MIN_AGGREGATE_SIZE)) != None
  {
    hide SortedSamples;
  }

  /** With fewer than twenty measurements of a kind, a run's dashboard says nothing of their values:
      any other run with the same outcomes shows the same. */
  lemma SmallRunsLookAlike(rd: real -> real, a: seq<Invocation>, b: seq<Invocation>, unit: Unit)
    requires SameShape(a, b)
    ensures |Latencies(a)| < MIN_AGGREGATE_SIZE ==>
              MeasureValues(rd, Latencies(a), a) == MeasureValues(rd, Latencies(b), b) != None
    ensures |Usage(a, unit)| < MIN_AGGREGATE_SIZE ==>
              MeasureValues(rd, Usage(a, unit), a) == MeasureValues(rd, Usage(b, unit), b) != None
  {
    hide Quantiles, Latencies, Usage, CountTargetFailures;
    ShapeCounts(a, b, unit);
    if |Latencies(a)| < MIN_AGGREGATE_SIZE {
      SmallAlike(rd, Latencies(a), Latencies(b));
    }
    if |Usage(a, unit)| < MIN_AGGREGATE_SIZE {
      SmallAlike(rd, Usage(a, unit), Usage(b, unit));
    }
  }
}
