/** The case comparisons of one stored decision: their canonical order, and their pages under the
    listing's filters. */
module CaseListing {
  import opened Common
  import opened Ordering
  import opened Evaluation
  import opened Comparison
  import opened Duality
  import opened Pagination

  // ---------------------------------------------------------------- where a comparison comes from

  lemma GateCaseAt(x: Inputs, g: Gate, i: int)
    requires Aligned(x) && 0 <= i < |GateCases(x, g)|
    ensures
      var selected := InScope(x.dataset.cases, g.slice);
      && Present(selected, x.baseline.cases) && Present(selected, x.candidate.cases)
      && GateCases(x, g)[i] == CompareCase(selected[i], g, ScopedValues(selected, x.baseline.cases, g.metric)[i],
                                           ScopedValues(selected, x.candidate.cases, g.metric)[i])
  {
    hide SameCases, CompareCase, InScope;
    GateCasesCompared(x, g);
  }

  lemma {:induction false} CaseSource(x: Inputs, gates: seq<Gate>, c: CaseComparison) returns (k: int, i: int)
    requires Aligned(x) && c in AllGateCases(x, gates)
    ensures 0 <= k < |gates| && 0 <= i < |GateCases(x, gates[k])| && c == GateCases(x, gates[k])[i]
    decreases |gates|
  {
    hide SameCases, GateCases;
    var n := |gates| - 1;
    if c in AllGateCases(x, gates[..n]) {
      k, i := CaseSource(x, gates[..n], c);
    } else {
      k := n;
      i :| 0 <= i < |GateCases(x, gates[n])| && c == GateCases(x, gates[n])[i];
    }
  }

  // ---------------------------------------------------------------- canonical order

  /** Slice labels are never empty, so the text of a scope tells it apart from the whole dataset. */
  predicate NamedSlices(gates: seq<Gate>) {
    forall i :: 0 <= i < |gates| ==> gates[i].slice != Some("")
  }

  predicate IdsAscend(cases: seq<EvaluationCase>) {
    forall i, j :: 0 <= i < j < |cases| ==> TextLess(cases[i].caseId, cases[j].caseId)
  }

  lemma {:induction false} ScopeAscends(cases: seq<EvaluationCase>, slice: Option<string>)
    requires IdsAscend(cases)
    ensures IdsAscend(InScope(cases, slice))
    decreases |cases|
  {
    if cases == [] {
      assert InScope([], slice) == [];
    } else {
      hide InScope, TextLess, InSlice;
      var n := |cases| - 1;
      ScopeAscends(cases[..n], slice);
      ScopeLast(cases, slice);
      var init := InScope(cases[..n], slice);
      forall i | 0 <= i < |init|
        ensures TextLess(init[i].caseId, cases[n].caseId)
      {
        assert init[i] in cases[..n];
      }
    }
  }

  lemma GateCaseKey(x: Inputs, g: Gate, i: int)
    requires Aligned(x) && 0 <= i < |GateCases(x, g)|
    ensures ComparisonKey(GateCases(x, g)[i])
         == [Text(g.metric), Text(SliceText(g.slice)), Text(InScope(x.dataset.cases, g.slice)[i].caseId)]
  {
    hide SameCases, InScope;
    GateCaseAt(x, g, i);
  }

  lemma GateCasesDistinct(x: Inputs, g: Gate)
    requires Aligned(x) && IdsAscend(x.dataset.cases)
    ensures DistinctBy(GateCases(x, g), ComparisonKey)
  {
    hide SameCases, InScope, GateCases, TextLess;
    var selected := InScope(x.dataset.cases, g.slice);
    ScopeAscends(x.dataset.cases, g.slice);
    forall i, j | 0 <= i < j < |GateCases(x, g)|
      ensures ComparisonKey(GateCases(x, g)[i]) != ComparisonKey(GateCases(x, g)[j])
    {
      GateCaseKey(x, g, i);
      GateCaseKey(x, g, j);
      TextTotal(selected[i].caseId, selected[j].caseId);
    }
  }

  lemma KeysOfGatesDiffer(x: Inputs, gates: seq<Gate>, k: int, i: int, l: int, j: int)
    requires Aligned(x) && UniqueGates(gates) && NamedSlices(gates)
    requires 0 <= k < l < |gates|
    requires 0 <= i < |GateCases(x, gates[k])| && 0 <= j < |GateCases(x, gates[l])|
    ensures ComparisonKey(GateCases(x, gates[k])[i]) != ComparisonKey(GateCases(x, gates[l])[j])
  {
    hide SameCases, InScope, GateCases;
    GateCaseKey(x, gates[k], i);
    GateCaseKey(x, gates[l], j);
  }

  lemma {:induction false} AllCasesDistinct(x: Inputs, gates: seq<Gate>, upTo: nat)
    requires Aligned(x) && IdsAscend(x.dataset.cases) && UniqueGates(gates) && NamedSlices(gates)
    requires upTo <= |gates|
    ensures DistinctBy(AllGateCases(x, gates[..upTo]), ComparisonKey)
    decreases upTo
  {
    hide SameCases, InScope, GateCases, ComparisonKey, UniqueGates, NamedSlices, IdsAscend;
    if upTo > 0 {
      var n := upTo - 1;
      assert gates[..upTo][..n] == gates[..n];
      AllCasesDistinct(x, gates, n);
      GateCasesDistinct(x, gates[n]);
      var init, last := AllGateCases(x, gates[..n]), GateCases(x, gates[n]);
      forall i, j | 0 <= i < |init| && 0 <= j < |last|
        ensures ComparisonKey(init[i]) != ComparisonKey(last[j])
      {
        var k, p := CaseSource(x, gates[..n], init[i]);
        KeysOfGatesDiffer(x, gates, k, p, n, j);
      }
      DistinctJoin(init, last);
      assert AllGateCases(x, gates[..upTo]) == init + last;
    }
  }

  lemma DistinctJoin(a: seq<CaseComparison>, b: seq<CaseComparison>)
    requires DistinctBy(a, ComparisonKey) && DistinctBy(b, ComparisonKey)
    requires forall i, j :: 0 <= i < |a| && 0 <= j < |b| ==> ComparisonKey(a[i]) != ComparisonKey(b[j])
    ensures DistinctBy(a + b, ComparisonKey)
  {
    hide ComparisonKey;
    var c := a + b;
    forall i, j | 0 <= i < j < |c|
      ensures ComparisonKey(c[i]) != ComparisonKey(c[j])
    {
      if j >= |a| && i >= |a| {
        assert c[i] == b[i - |a|] && c[j] == b[j - |a|];
      }
    }
  }

  lemma SortedDecisionCases(spec: Spec, x: Inputs)
    requires Compare(spec, x).Ok?
    ensures Aligned(x) && Compare(spec, x).value.cases == SortBy(AllGateCases(x, spec.gates), ComparisonKey)
  {
    hide Compare, SameCases, AllGateCases, SortBy, Aggregates, GateResults, GatesKnown, SortedTexts, MetricSet, Slices,
      AllMeasured;
    DecisionParts(spec, x);
  }

  /** The cases of every decision are in strict (metric, slice, case) order, each once. */
  lemma DecisionCasesAscend(spec: Spec, x: Inputs)
    requires ValidDataset(x.dataset) && UniqueGates(spec.gates) && NamedSlices(spec.gates)
    requires Compare(spec, x).Ok?
    ensures StrictlyBy(Compare(spec, x).value.cases, ComparisonKey)
  {
    assert IdsAscend(x.dataset.cases);
    hide Compare, SameCases, AllGateCases, SortBy, ComparisonKey, UniqueGates, NamedSlices, ValidDataset, IdsAscend;
    SortedDecisionCases(spec, x);
    assert spec.gates[..|spec.gates|] == spec.gates;
    AllCasesDistinct(x, spec.gates, |spec.gates|);
    SortStrict(AllGateCases(x, spec.gates), ComparisonKey);
  }

  // ---------------------------------------------------------------- filtered pages

  /** The listing's filters; the scope of the gate is always compared, the others when given. */
  datatype CaseFilter = CaseFilter(
    metric: Option<string>, gateSlice: Option<string>, caseSlice: Option<string>, change: Option<Change>)

  predicate Matches(c: CaseComparison, f: CaseFilter) {
    && (f.metric.None? || c.metric == f.metric.value)
    && c.slice == f.gateSlice
    && (f.caseSlice.None? || f.caseSlice.value in c.slices)
    && (f.change.None? || c.change == f.change.value)
  }

  /** The matching comparisons past the cursor, in stored order. */
  function Matching(cases: seq<CaseComparison>, f: CaseFilter, after: Option<Key>): seq<CaseComparison> {
    if cases == [] then []
    else
      (if Matches(cases[0], f) && (after.None? || KeyLess(after.value, ComparisonKey(cases[0])))
       then [cases[0]] else [])
      + Matching(cases[1..], f, after)
  }

  datatype CasePage = CasePage(items: seq<CaseComparison>, next: Option<Key>)

  function ListCases(cases: seq<CaseComparison>, f: CaseFilter, after: Option<Key>, limit: int): CasePage
    requires 1 <= limit
  {
    var matching := Matching(cases, f, after);
    var records := if limit < |matching| then matching[..limit] else matching;
    CasePage(records, if limit < |matching| then Some(ComparisonKey(records[limit - 1])) else None)
  }

  /** The keys of everything that matches. */
  function MatchingKeys(cases: seq<CaseComparison>, f: CaseFilter): seq<Key> {
    Mapped(Matching(cases, f, None), ComparisonKey)
  }

  lemma {:induction false} MatchingMembers(cases: seq<CaseComparison>, f: CaseFilter, after: Option<Key>)
    ensures forall c :: c in Matching(cases, f, after) <==>
              c in cases && Matches(c, f) && (after.None? || KeyLess(after.value, ComparisonKey(c)))
    decreases |cases|
  {
    hide KeyLess, ComparisonKey, Matches;
    if cases != [] {
      MatchingMembers(cases[1..], f, after);
      assert cases == [cases[0]] + cases[1..];
    }
  }

  /** What a page may show of a decision: the comparisons of the given gate scope, of the metric, the
      slice and the change asked for, past the cursor. */
  lemma ShownCase(cases: seq<CaseComparison>, f: CaseFilter, after: Option<Key>, c: CaseComparison)
    ensures c in Matching(cases, f, after) <==>
              && c in cases && c.slice == f.gateSlice
              && (match f.metric case Some(metric) => metric == c.metric case None => true)
              && (match f.caseSlice case Some(name) => name in c.slices case None => true)
              && (match f.change case Some(change) => change == c.change case None => true)
              && (match after
                  case Some(k) => KeyLess(k, [Text(c.metric), Text(SliceText(c.slice)), Text(c.caseId)])
                  case None => true)
  {
    hide KeyLess;
    MatchingMembers(cases, f, after);
  }

  lemma {:induction false} MatchingAscends(cases: seq<CaseComparison>, f: CaseFilter)
    requires StrictlyBy(cases, ComparisonKey)
    ensures Ascending(MatchingKeys(cases, f))
    decreases |cases|
  {
    hide KeyLess, ComparisonKey, Matches;
    if cases != [] {
      MatchingAscends(cases[1..], f);
      MatchingMembers(cases[1..], f, None);
      var rest := Matching(cases[1..], f, None);
      forall i | 0 <= i < |rest|
        ensures KeyLess(ComparisonKey(cases[0]), ComparisonKey(rest[i]))
      {
        assert rest[i] in cases[1..];
      }
    }
  }

  lemma {:induction false} MatchingIsFiltered(cases: seq<CaseComparison>, f: CaseFilter, after: Option<Key>)
    ensures Mapped(Matching(cases, f, after), ComparisonKey) == Filtered(MatchingKeys(cases, f), after)
    decreases |cases|
  {
    hide KeyLess, ComparisonKey, Matches;
    if cases != [] {
      MatchingIsFiltered(cases[1..], f, after);
      var rest := Matching(cases[1..], f, after);
      if Matches(cases[0], f) {
        MappedCons(cases[0], Matching(cases[1..], f, None), ComparisonKey);
        MappedCons(cases[0], rest, ComparisonKey);
        var keys := MatchingKeys(cases, f);
        assert keys[0] == ComparisonKey(cases[0]) && keys[1..] == MatchingKeys(cases[1..], f);
      } else {
        assert Matching(cases, f, after) == rest;
        assert Matching(cases, f, None) == Matching(cases[1..], f, None);
      }
    }
  }

  function KeySet(keys: seq<Key>): set<Key> {
    set k | k in keys
  }

  /** A page of a decision's cases is the page of its matching keys. */
  lemma CasePageIsPage(cases: seq<CaseComparison>, f: CaseFilter, after: Option<Key>, limit: int)
    requires StrictlyBy(cases, ComparisonKey) && 1 <= limit
    ensures
      var p := ListCases(cases, f, after, limit);
      Page(Mapped(p.items, ComparisonKey), p.next) == PageOf(KeySet(MatchingKeys(cases, f)), after, limit, false)
  {
    hide KeyLess, ComparisonKey, Listed, Window;
    MatchingAscends(cases, f);
    MatchingIsFiltered(cases, f, after);
    StoredRowsPage(MatchingKeys(cases, f), after);
    var matching := Matching(cases, f, after);
    var rows := Mapped(matching, ComparisonKey);
    assert rows == Listed(Window(KeySet(MatchingKeys(cases, f)), after, false), false);
    var p := ListCases(cases, f, after, limit);
    if limit < |matching| {
      assert Mapped(p.items, ComparisonKey) == rows[..limit];
      assert rows[..limit + 1][..limit] == rows[..limit];
    }
  }

  /** The pages of a decision's cases from a cursor on, one for each limit asked for. */
  function CaseWalk(cases: seq<CaseComparison>, f: CaseFilter, after: Option<Key>, limits: seq<int>): seq<CasePage>
    requires forall i :: 0 <= i < |limits| ==> 1 <= limits[i]
    decreases |limits|
  {
    if limits == [] then []
    else
      var p := ListCases(cases, f, after, limits[0]);
      if p.next.None? then [p] else [p] + CaseWalk(cases, f, p.next, limits[1..])
  }

  function KeyPages(pages: seq<CasePage>): seq<Page> {
    if pages == [] then [] else [Page(Mapped(pages[0].items, ComparisonKey), pages[0].next)] + KeyPages(pages[1..])
  }

  function FixedFetches(keys: set<Key>, limits: seq<int>): (r: seq<Fetch>)
    ensures |r| == |limits| && forall i :: 0 <= i < |r| ==> r[i] == Fetch(keys, limits[i])
  {
    seq(|limits|, i requires 0 <= i < |limits| => Fetch(keys, limits[i]))
  }

  lemma {:induction false} CaseWalkIsWalk(cases: seq<CaseComparison>, f: CaseFilter, after: Option<Key>,
                                          limits: seq<int>)
    requires StrictlyBy(cases, ComparisonKey) && forall i :: 0 <= i < |limits| ==> 1 <= limits[i]
    ensures KeyPages(CaseWalk(cases, f, after, limits))
         == Walk(FixedFetches(KeySet(MatchingKeys(cases, f)), limits), after, false)
    decreases |limits|
  {
    hide ListCases, PageOf, ComparisonKey, MatchingKeys, StrictlyBy;
    if limits != [] {
      var keys := KeySet(MatchingKeys(cases, f));
      CasePageIsPage(cases, f, after, limits[0]);
      var p := ListCases(cases, f, after, limits[0]);
      CaseWalkIsWalk(cases, f, p.next, limits[1..]);
      assert FixedFetches(keys, limits)[1..] == FixedFetches(keys, limits[1..]);
      var rest := CaseWalk(cases, f, p.next, limits[1..]);
      assert ([p] + rest)[1..] == rest;
      assert [p][1..] == [];
    }
  }

  /** Following the cursor through the cases of a decision, under any filters and page limits: once
      the limits add up to the matching cases the walk has ended, and its pages together are all of
      them, in the decision's own order. */
  lemma DecisionCaseWalk(spec: Spec, x: Inputs, f: CaseFilter, limits: seq<int>)
    requires ValidDataset(x.dataset) && UniqueGates(spec.gates) && NamedSlices(spec.gates)
    requires Compare(spec, x).Ok? && limits != []
    requires forall i :: 0 <= i < |limits| ==> 1 <= limits[i]
    requires |Matching(Compare(spec, x).value.cases, f, None)|
             <= TotalLimit(FixedFetches(KeySet(MatchingKeys(Compare(spec, x).value.cases, f)), limits))
    ensures
      var cases := Compare(spec, x).value.cases;
      var pages := KeyPages(CaseWalk(cases, f, None, limits));
      Finished(pages) && Items(pages) == MatchingKeys(cases, f)
  {
    hide Compare, ValidDataset, UniqueGates, NamedSlices, Walk, TotalLimit, Listed, Matching, ComparisonKey;
    DecisionCasesAscend(spec, x);
    var cases := Compare(spec, x).value.cases;
    var keys := MatchingKeys(cases, f);
    var all := KeySet(keys);
    CaseWalkIsWalk(cases, f, None, limits);
    MatchingAscends(cases, f);
    assert Window(all, None, false) == all;
    AscendingListed(keys);
    WalkOfFixedTable(FixedFetches(all, limits), all, None, false);
  }

  lemma AscendingListed(keys: seq<Key>)
    requires Ascending(keys)
    ensures Listed(KeySet(keys), false) == keys && |KeySet(keys)| == |keys|
  {
    ListedUnique(KeySet(keys), false, keys);
    ListedStrictly(KeySet(keys), false);
  }
}
