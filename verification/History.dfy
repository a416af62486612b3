/** The lists of runs, decisions and their targets over a store that others keep writing, and
    the dashboard's own checks of the pages it receives. */
module History {
  import opened Common
  import opened Ordering
  import opened Store
  import opened Steps
  import opened Runs
  import opened Pagination

  datatype TargetRef = TargetRef(name: string, revision: int, digest: string)

  function TargetKey(t: TargetRef): Key {
    [Text(t.name), Num(t.revision), Text(t.digest)]
  }

  /** A list and its fixed filter. A run's target and suite are columns its row never changes. */
  datatype List =
    | RunList(runMatches: RunRecord -> bool)
    | DecisionList(decisionMatches: DecisionRecord -> bool)
    | TargetList(runMatches: RunRecord -> bool, target: RunRecord -> TargetRef)
    | PairList(decisionMatches: DecisionRecord -> bool, target: RunRecord -> TargetRef)

  predicate Referenced(t: Tables, d: DecisionRecord) {
    d.baselineRunId in t.runs && d.candidateRunId in t.runs
  }

  function PairKey(t: Tables, d: DecisionRecord, target: RunRecord -> TargetRef): Key
    requires Referenced(t, d)
  {
    TargetKey(target(t.runs[d.baselineRunId])) + TargetKey(target(t.runs[d.candidateRunId]))
  }

  /** The keys of the rows a list would show: (created_at, identity) of rows, or the distinct
      targets of rows. */
  function ListKeys(t: Tables, list: List): set<Key> {
    match list
    case RunList(matches) =>
      set r | r in t.runs && matches(t.runs[r]) :: [Num(t.runs[r].createdAt), Text(r)]
    case DecisionList(matches) =>
      set r | r in t.decisions && matches(t.decisions[r]) :: [Num(t.decisions[r].createdAt), Text(r)]
    case TargetList(matches, target) =>
      set r | r in t.runs && matches(t.runs[r]) :: TargetKey(target(t.runs[r]))
    case PairList(matches, target) =>
      set r | r in t.decisions && matches(t.decisions[r]) && Referenced(t, t.decisions[r])
        :: PairKey(t, t.decisions[r], target)
  }

  /** What a list shows: a run or decision that matches the filter, under its own creation time and
      identifier; or, of the matching rows, the name, revision and digest of the run's target, or of
      the targets of the decision's two runs, baseline first. */
  lemma ShownRow(t: Tables, list: List, k: Key)
    ensures k in ListKeys(t, list) <==>
      match list
      case RunList(matches) =>
        exists r :: r in t.runs && matches(t.runs[r]) && k == [Num(t.runs[r].createdAt), Text(r)]
      case DecisionList(matches) =>
        exists r :: r in t.decisions && matches(t.decisions[r]) && k == [Num(t.decisions[r].createdAt), Text(r)]
      case TargetList(matches, target) =>
        exists r :: r in t.runs && matches(t.runs[r]) && |k| == 3 && IsTarget(k, target(t.runs[r]))
      case PairList(matches, target) =>
        exists r :: && r in t.decisions && matches(t.decisions[r])
                    && t.decisions[r].baselineRunId in t.runs && t.decisions[r].candidateRunId in t.runs
                    && |k| == 6 && IsTarget(k[..3], target(t.runs[t.decisions[r].baselineRunId]))
                    && IsTarget(k[3..], target(t.runs[t.decisions[r].candidateRunId]))
  {
    match list
    case RunList(_) =>
    case DecisionList(_) =>
    case TargetList(matches, target) =>
      forall r | r in t.runs
        ensures k == TargetKey(target(t.runs[r])) <==> |k| == 3 && IsTarget(k, target(t.runs[r]))
      {
      }
    case PairList(matches, target) =>
      forall r | r in t.decisions && Referenced(t, t.decisions[r])
        ensures k == PairKey(t, t.decisions[r], target) <==>
                  && |k| == 6 && IsTarget(k[..3], target(t.runs[t.decisions[r].baselineRunId]))
                  && IsTarget(k[3..], target(t.runs[t.decisions[r].candidateRunId]))
      {
        var a, b := target(t.runs[t.decisions[r].baselineRunId]), target(t.runs[t.decisions[r].candidateRunId]);
        TwoTargets(k, a, b);
      }
  }

  predicate IsTarget(k: Key, target: TargetRef) {
    |k| == 3 && k[0] == Text(target.name) && k[1] == Num(target.revision) && k[2] == Text(target.digest)
  }

  lemma TwoTargets(k: Key, a: TargetRef, b: TargetRef)
    ensures k == TargetKey(a) + TargetKey(b) <==> |k| == 6 && IsTarget(k[..3], a) && IsTarget(k[3..], b)
  {
    if |k| == 6 {
      assert k == k[..3] + k[3..];
      if IsTarget(k[..3], a) && IsTarget(k[3..], b) {
        assert k[..3] == TargetKey(a) && k[3..] == TargetKey(b);
      }
    }
    if k == TargetKey(a) + TargetKey(b) {
      assert k[..3] == TargetKey(a) && k[3..] == TargetKey(b);
    }
  }

  /** Rows are never removed and never change, so a list only grows. */
  lemma ListKeysGrow(t: Tables, t': Tables, list: List)
    requires EvidenceKept(t, t')
    ensures ListKeys(t, list) <= ListKeys(t', list)
  {
    match list
    case RunList(matches) =>
      forall r | r in t.runs && matches(t.runs[r])
        ensures r in t'.runs && matches(t'.runs[r]) && t'.runs[r] == t.runs[r]
      {
      }
    case DecisionList(matches) =>
      forall r | r in t.decisions && matches(t.decisions[r])
        ensures r in t'.decisions && matches(t'.decisions[r]) && t'.decisions[r] == t.decisions[r]
      {
      }
    case TargetList(matches, target) =>
      forall k | k in ListKeys(t, list)
        ensures k in ListKeys(t', list)
      {
        var r :| r in t.runs && matches(t.runs[r]) && TargetKey(target(t.runs[r])) == k;
        assert r in t'.runs && t'.runs[r] == t.runs[r];
      }
    case PairList(matches, target) =>
      forall k | k in ListKeys(t, list)
        ensures k in ListKeys(t', list)
      {
        var r :| r in t.decisions && matches(t.decisions[r]) && Referenced(t, t.decisions[r])
                 && PairKey(t, t.decisions[r], target) == k;
        assert r in t'.decisions && t'.decisions[r] == t.decisions[r];
        assert Referenced(t', t'.decisions[r]) && PairKey(t', t'.decisions[r], target) == k;
      }
  }

  /** One page request: what everyone does before it is served, and its limit. */
  datatype Visit = Visit(events: seq<Event>, limit: int)

  predicate ValidVisits(visits: seq<Visit>) {
    forall i :: 0 <= i < |visits| ==> 1 <= visits[i].limit <= 100
  }

  function Fetches(s: State, visits: seq<Visit>, list: List): (r: seq<Fetch>)
    requires Inv(s) && ValidVisits(visits)
    ensures |r| == |visits| && ValidFetches(r)
    decreases |visits|
  {
    if visits == [] then []
    else
      var served := Run(s, visits[0].events);
      [Fetch(ListKeys(served.t, list), visits[0].limit)] + Fetches(served, visits[1..], list)
  }

  lemma {:induction false} FetchesGrow(s: State, visits: seq<Visit>, list: List)
    requires Inv(s) && ValidVisits(visits)
    ensures Growing(Fetches(s, visits, list))
    ensures forall i :: 0 <= i < |visits| ==> ListKeys(s.t, list) <= Fetches(s, visits, list)[i].keys
    decreases |visits|
  {
    hide Inv, ListKeys, EvidenceKept;
    if visits != [] {
      var served := Run(s, visits[0].events);
      RunEvidenceKept(s, visits[0].events);
      ListKeysGrow(s.t, served.t, list);
      FetchesGrow(served, visits[1..], list);
      var rest := Fetches(served, visits[1..], list);
      var all := Fetches(s, visits, list);
      assert all[1..] == rest;
      assert forall i :: 1 <= i < |all| ==> all[i] == rest[i - 1];
    }
  }

  /** Following the cursor through a list from its first page while anyone writes to the store: a
      walk that comes to its end shows, in one strict order and exactly once, every row that
      matched when it began. */
  lemma WalkShowsEveryRow(s: State, visits: seq<Visit>, list: List, desc: bool, k: Key) returns (at: int)
    requires Inv(s) && ValidVisits(visits) && visits != []
    requires Finished(Walk(Fetches(s, visits, list), None, desc))
    requires k in ListKeys(s.t, list)
    ensures
      var items := Items(Walk(Fetches(s, visits, list), None, desc));
      && StrictlyListed(items, desc)
      && 0 <= at < |items| && items[at] == k
      && forall i :: 0 <= i < |items| && items[i] == k ==> i == at
  {
    hide Inv, ListKeys, Walk, Precedes;
    var fetches := Fetches(s, visits, list);
    FetchesGrow(s, visits, list);
    WalkOrdered(fetches, None, desc);
    WalkComplete(fetches, None, desc, k);
    var items := Items(Walk(fetches, None, desc));
    at :| 0 <= at < |items| && items[at] == k;
    forall i | 0 <= i < |items| && items[i] == k
      ensures i == at
    {
      WalkNeverRepeats(fetches, None, desc, i, at);
    }
  }

  // ---------------------------------------------------------------- the dashboard's checks

  /** An item of a history page: its creation time in microseconds and its identity. */
  datatype HistoryItem = HistoryItem(micros: int, id: string)

  function Ids(items: seq<HistoryItem>): set<string> {
    set i | 0 <= i < |items| :: items[i].id
  }

  predicate NewestFirst(items: seq<HistoryItem>) {
    && |Ids(items)| == |items|
    && forall i :: 0 < i < |items| ==>
         || items[i].micros < items[i - 1].micros
         || (items[i].micros == items[i - 1].micros && TextLess(items[i].id, items[i - 1].id))
  }

  /** The first field that differs decides. */
  function CompareTarget(left: TargetRef, right: TargetRef): int {
    if TextLess(left.name, right.name) then -1
    else if TextLess(right.name, left.name) then 1
    else if left.revision < right.revision then -1
    else if left.revision > right.revision then 1
    else if TextLess(left.digest, right.digest) then -1
    else if TextLess(right.digest, left.digest) then 1
    else 0
  }

  predicate TargetsInOrder(items: seq<TargetRef>) {
    forall i :: 0 < i < |items| ==> CompareTarget(items[i - 1], items[i]) < 0
  }

  datatype TargetPair = TargetPair(baseline: TargetRef, candidate: TargetRef)

  predicate PairsInOrder(items: seq<TargetPair>) {
    forall i :: 0 < i < |items| ==>
      var baseline := CompareTarget(items[i - 1].baseline, items[i].baseline);
      || baseline < 0
      || (baseline == 0 && CompareTarget(items[i - 1].candidate, items[i].candidate) < 0)
  }

  predicate PageShape(p: Page) {
    |p.items| <= 100 && (|p.items| > 0 || p.next.None?)
  }

  /** The client's comparison of targets is the server's order of their columns. */
  lemma CompareTargetIsKeyOrder(left: TargetRef, right: TargetRef)
    ensures CompareTarget(left, right) < 0 <==> KeyLess(TargetKey(left), TargetKey(right))
    ensures CompareTarget(left, right) == 0 <==> left == right
    ensures CompareTarget(left, right) > 0 <==> KeyLess(TargetKey(right), TargetKey(left))
  {
    hide KeyLess, TextLess;
    TextTotal(left.name, right.name);
    TextTotal(left.digest, right.digest);
    TripleOrder(Text(left.name), Num(left.revision), Text(left.digest),
                Text(right.name), Num(right.revision), Text(right.digest));
    TripleOrder(Text(right.name), Num(right.revision), Text(right.digest),
                Text(left.name), Num(left.revision), Text(left.digest));
  }

  lemma {:induction false} PrefixOrder(a: Key, b: Key, x: Key, y: Key)
    requires |a| == |b|
    ensures KeyLess(a + x, b + y) <==> KeyLess(a, b) || (a == b && KeyLess(x, y))
    decreases |a|
  {
    if a == [] {
      assert a + x == x && b + y == y;
    } else {
      PrefixOrder(a[1..], b[1..], x, y);
      assert (a + x)[1..] == a[1..] + x && (b + y)[1..] == b[1..] + y;
      assert a == [a[0]] + a[1..] && b == [b[0]] + b[1..];
      FieldTotal(a[0], b[0]);
    }
  }

  function ItemKey(item: HistoryItem): Key {
    [Num(item.micros), Text(item.id)]
  }

  function ItemOf(k: Key): HistoryItem
    requires |k| == 2 && k[0].Num? && k[1].Text?
  {
    HistoryItem(k[0].n, k[1].s)
  }

  predicate HistoryKeys(keys: set<Key>) {
    && (forall k: Key :: k in keys ==> |k| == 2 && k[0].Num? && k[1].Text?)
    && forall a: Key, b: Key {:trigger a[1], b[1]} :: a in keys && b in keys && a[1] == b[1] ==> a == b
  }

  /** Rows of one list have one creation time for each identity. */
  lemma HistoryListKeys(t: Tables, list: List)
    requires list.RunList? || list.DecisionList?
    ensures HistoryKeys(ListKeys(t, list))
  {
    forall a, b | a in ListKeys(t, list) && b in ListKeys(t, list) && a[1] == b[1]
      ensures a == b
    {
    }
  }

  function ItemsOf(keys: seq<Key>): (r: seq<HistoryItem>)
    requires forall i :: 0 <= i < |keys| ==> |keys[i]| == 2 && keys[i][0].Num? && keys[i][1].Text?
    ensures |r| == |keys| && forall i :: 0 <= i < |r| ==> r[i] == ItemOf(keys[i])
  {
    seq(|keys|, i requires 0 <= i < |keys| => ItemOf(keys[i]))
  }

  lemma {:induction false} UniqueIds(items: seq<HistoryItem>)
    requires forall i, j :: 0 <= i < j < |items| ==> items[i].id != items[j].id
    ensures |Ids(items)| == |items|
    decreases |items|
  {
    if items != [] {
      var n := |items| - 1;
      var init := items[..n];
      UniqueIds(init);
      IdsSnoc(init, items[n]);
      assert init + [items[n]] == items;
    }
  }

  lemma IdsSnoc(init: seq<HistoryItem>, last: HistoryItem)
    ensures Ids(init + [last]) == Ids(init) + {last.id}
  {
    var all := init + [last];
    forall x
      ensures x in Ids(all) <==> x in Ids(init) + {last.id}
    {
      if x in Ids(init) {
        var i :| 0 <= i < |init| && init[i].id == x;
        assert all[i].id == x;
      } else if x == last.id {
        assert all[|init|].id == x;
      }
    }
  }

  lemma SameIdSameKey(keys: set<Key>, a: Key, b: Key)
    requires HistoryKeys(keys) && a in keys && b in keys
    ensures |a| == 2 && |b| == 2 && (a[1] == b[1] ==> a == b)
  {
  }

  /** Every page of a run or decision history that the server can send, newest first, passes the
      dashboard's check, whatever the cursor, the limit and the rows. Identities are compared by
      code point on both sides; the history query names no collation for its identity column, as
      the target group query does, so this speaks of databases whose default order is that one. */
  lemma HistoryPageAccepted(t: Tables, list: List, cursor: Option<Key>, limit: int)
    requires list.RunList? || list.DecisionList?
    requires 1 <= limit <= 100
    ensures
      var p := PageOf(ListKeys(t, list), cursor, limit, true);
      && (forall i :: 0 <= i < |p.items| ==> |p.items[i]| == 2 && p.items[i][0].Num? && p.items[i][1].Text?)
      && PageShape(p) && NewestFirst(ItemsOf(p.items))
  {
    hide ListKeys, PageOf, KeyLess, TextLess, HistoryKeys, Ids;
    var keys := ListKeys(t, list);
    HistoryListKeys(t, list);
    PageIsPrefix(keys, cursor, limit, true);
    var p := PageOf(keys, cursor, limit, true);
    forall i | 0 <= i < |p.items|
      ensures p.items[i] in keys
    {
      assert p.items[i] in p.items;
    }
    var items := ItemsOf(p.items);
    forall i, j | 0 <= i < j < |items|
      ensures items[i].id != items[j].id
    {
      PrecedesTotal(p.items[i], p.items[j], true);
      SameIdSameKey(keys, p.items[i], p.items[j]);
    }
    UniqueIds(items);
    forall i | 0 < i < |items|
      ensures || items[i].micros < items[i - 1].micros
              || (items[i].micros == items[i - 1].micros && TextLess(items[i].id, items[i - 1].id))
    {
      assert Precedes(p.items[i - 1], p.items[i], true);
      assert p.items[i] == ItemKey(items[i]) && p.items[i - 1] == ItemKey(items[i - 1]);
      PairOrder(Num(items[i].micros), Text(items[i].id), Num(items[i - 1].micros), Text(items[i - 1].id));
    }
  }

  /** Every page of target groups passes the client's check: the targets behind the keys are in
      strictly rising order as the client compares them. */
  lemma TargetPageAccepted(t: Tables, list: List, cursor: Option<Key>, limit: int, targets: seq<TargetRef>)
    requires list.TargetList? && 1 <= limit <= 100
    requires
      var p := PageOf(ListKeys(t, list), cursor, limit, false);
      |targets| == |p.items| && forall i :: 0 <= i < |targets| ==> TargetKey(targets[i]) == p.items[i]
    ensures PageShape(PageOf(ListKeys(t, list), cursor, limit, false)) && TargetsInOrder(targets)
  {
    hide ListKeys, PageOf, KeyLess, CompareTarget;
    PageIsPrefix(ListKeys(t, list), cursor, limit, false);
    var p := PageOf(ListKeys(t, list), cursor, limit, false);
    forall i | 0 < i < |targets|
      ensures CompareTarget(targets[i - 1], targets[i]) < 0
    {
      assert Precedes(p.items[i - 1], p.items[i], false);
      CompareTargetIsKeyOrder(targets[i - 1], targets[i]);
    }
  }

  /** And so does every page of directed target pairs. */
  lemma PairPageAccepted(t: Tables, list: List, cursor: Option<Key>, limit: int, pairs: seq<TargetPair>)
    requires list.PairList? && 1 <= limit <= 100
    requires
      var p := PageOf(ListKeys(t, list), cursor, limit, false);
      |pairs| == |p.items| && forall i :: 0 <= i < |pairs| ==>
        TargetKey(pairs[i].baseline) + TargetKey(pairs[i].candidate) == p.items[i]
    ensures PageShape(PageOf(ListKeys(t, list), cursor, limit, false)) && PairsInOrder(pairs)
  {
    hide ListKeys, PageOf, KeyLess, CompareTarget;
    PageIsPrefix(ListKeys(t, list), cursor, limit, false);
    var p := PageOf(ListKeys(t, list), cursor, limit, false);
    forall i | 0 < i < |pairs|
      ensures
        var baseline := CompareTarget(pairs[i - 1].baseline, pairs[i].baseline);
        baseline < 0 || (baseline == 0 && CompareTarget(pairs[i - 1].candidate, pairs[i].candidate) < 0)
    {
      var a, b := pairs[i - 1], pairs[i];
      assert Precedes(p.items[i - 1], p.items[i], false);
      PrefixOrder(TargetKey(a.baseline), TargetKey(b.baseline), TargetKey(a.candidate), TargetKey(b.candidate));
      CompareTargetIsKeyOrder(a.baseline, b.baseline);
      CompareTargetIsKeyOrder(a.candidate, b.candidate);
    }
  }

  // ---------------------------------------------------------------- what the checks accept

  /** Neighbours in order put the whole list in order. */
  lemma {:induction false} ChainStrict(keys: seq<Key>, desc: bool, i: int, j: int)
    requires forall k :: 0 < k < |keys| ==> Precedes(keys[k - 1], keys[k], desc)
    requires 0 <= i < j < |keys|
    ensures Precedes(keys[i], keys[j], desc)
    decreases j - i
  {
    hide Precedes;
    if i < j - 1 {
      ChainStrict(keys, desc, i, j - 1);
      PrecedesTransitive(keys[i], keys[j - 1], keys[j], desc);
    }
  }

  lemma ChainIff(keys: seq<Key>, desc: bool)
    ensures StrictlyListed(keys, desc) <==> forall k :: 0 < k < |keys| ==> Precedes(keys[k - 1], keys[k], desc)
  {
    hide Precedes;
    if forall k :: 0 < k < |keys| ==> Precedes(keys[k - 1], keys[k], desc) {
      forall i, j | 0 <= i < j < |keys|
        ensures Precedes(keys[i], keys[j], desc)
      {
        ChainStrict(keys, desc, i, j);
      }
    }
  }

  function TargetKeys(items: seq<TargetRef>): seq<Key> {
    Mapped(items, TargetKey)
  }

  function PairKeyOf(p: TargetPair): Key {
    TargetKey(p.baseline) + TargetKey(p.candidate)
  }

  function ItemKeys(items: seq<HistoryItem>): seq<Key> {
    Mapped(items, ItemKey)
  }

  /** The dashboard accepts exactly the pages in the server's strict order: targets by their columns,
      pairs by those of the baseline and then of the candidate. */
  lemma OrderChecksIff(targets: seq<TargetRef>, pairs: seq<TargetPair>)
    ensures TargetsInOrder(targets) <==> StrictlyListed(TargetKeys(targets), false)
    ensures PairsInOrder(pairs) <==> StrictlyListed(Mapped(pairs, PairKeyOf), false)
  {
    hide KeyLess, CompareTarget, TargetKey, StrictlyListed;
    forall i | 0 < i < |targets|
      ensures CompareTarget(targets[i - 1], targets[i]) < 0
              <==> Precedes(TargetKeys(targets)[i - 1], TargetKeys(targets)[i], false)
    {
      CompareTargetIsKeyOrder(targets[i - 1], targets[i]);
    }
    ChainIff(TargetKeys(targets), false);
    forall i | 0 < i < |pairs|
      ensures
        var baseline := CompareTarget(pairs[i - 1].baseline, pairs[i].baseline);
        (baseline < 0 || (baseline == 0 && CompareTarget(pairs[i - 1].candidate, pairs[i].candidate) < 0))
        <==> Precedes(Mapped(pairs, PairKeyOf)[i - 1], Mapped(pairs, PairKeyOf)[i], false)
    {
      PairsCompared(pairs[i - 1], pairs[i]);
    }
    ChainIff(Mapped(pairs, PairKeyOf), false);
  }

  lemma PairsCompared(a: TargetPair, b: TargetPair)
    ensures
      var baseline := CompareTarget(a.baseline, b.baseline);
      (baseline < 0 || (baseline == 0 && CompareTarget(a.candidate, b.candidate) < 0))
      <==> KeyLess(PairKeyOf(a), PairKeyOf(b))
  {
    hide KeyLess, CompareTarget;
    PrefixOrder(TargetKey(a.baseline), TargetKey(b.baseline), TargetKey(a.candidate), TargetKey(b.candidate));
    CompareTargetIsKeyOrder(a.baseline, b.baseline);
    CompareTargetIsKeyOrder(a.candidate, b.candidate);
  }

  /** A history page is accepted exactly when no identity repeats and the items are in strict order,
      newest first and within one instant by descending identity. */
  lemma HistoryCheckIff(items: seq<HistoryItem>)
    ensures NewestFirst(items) <==>
              && StrictlyListed(ItemKeys(items), true)
              && forall i, j :: 0 <= i < j < |items| ==> items[i].id != items[j].id
  {
    hide KeyLess, TextLess, Ids, StrictlyListed;
    forall i | 0 < i < |items|
      ensures (|| items[i].micros < items[i - 1].micros
               || (items[i].micros == items[i - 1].micros && TextLess(items[i].id, items[i - 1].id)))
              <==> Precedes(ItemKeys(items)[i - 1], ItemKeys(items)[i], true)
    {
      PairOrder(Num(items[i].micros), Text(items[i].id), Num(items[i - 1].micros), Text(items[i - 1].id));
    }
    ChainIff(ItemKeys(items), true);
    IdsCounted(items);
  }

  lemma {:induction false} IdsCounted(items: seq<HistoryItem>)
    ensures |Ids(items)| <= |items|
    ensures |Ids(items)| == |items| <==> forall i, j :: 0 <= i < j < |items| ==> items[i].id != items[j].id
    decreases |items|
  {
    if items != [] {
      hide Ids;
      var n := |items| - 1;
      IdsCounted(items[..n]);
      IdsSnoc(items[..n], items[n]);
      assert items[..n] + [items[n]] == items;
      IdsHas(items[..n], items[n].id);
      LastIdNew(items);
    }
  }

  lemma IdsHas(items: seq<HistoryItem>, id: string)
    ensures id in Ids(items) <==> exists i :: 0 <= i < |items| && items[i].id == id
  {
  }

  lemma LastIdNew(items: seq<HistoryItem>)
    requires items != []
    ensures
      var n := |items| - 1;
      (forall i, j :: 0 <= i < j < |items| ==> items[i].id != items[j].id) <==>
        && (forall i, j :: 0 <= i < j < |items[..n]| ==> items[..n][i].id != items[..n][j].id)
        && !(exists i :: 0 <= i < |items[..n]| && items[..n][i].id == items[n].id)
  {
    var n := |items| - 1;
    assert forall i :: 0 <= i < n ==> items[..n][i] == items[i];
    if forall i, j :: 0 <= i < j < |items| ==> items[i].id != items[j].id {
      forall i | 0 <= i < n
        ensures items[..n][i].id != items[n].id
      {
        assert items[i].id != items[n].id;
      }
    }
  }

  // ---------------------------------------------------------------- timestamps as text

  predicate Digits(text: string) {
    forall i :: 0 <= i < |text| ==> '0' <= text[i] <= '9'
  }

  function DigitsValue(text: string): int
    requires Digits(text)
    decreases |text|
  {
    if text == [] then 0
    else
      var n := |text| - 1;
      10 * DigitsValue(text[..n]) + (text[n] as int - '0' as int)
  }

  function PadEnd(text: string, width: nat): (r: string)
    requires Digits(text)
    ensures Digits(r) && |r| == Max(width, |text|)
    decreases width - |text|
  {
    if width <= |text| then text else PadEnd(text + "0", width)
  }

  function Pow10(k: nat): (p: int)
    ensures 1 <= p
  {
    if k == 0 then 1 else 10 * Pow10(k - 1)
  }

  /** Microseconds of a timestamp given as whole seconds and the digits of its fraction. */
  function TimestampMicros(seconds: int, fraction: string): int
    requires Digits(fraction) && |fraction| <= 6
  {
    seconds * 1_000_000 + DigitsValue(PadEnd(fraction, 6))
  }

  lemma {:induction false} PaddedValue(text: string, width: nat)
    requires Digits(text) && |text| <= width
    ensures DigitsValue(PadEnd(text, width)) == DigitsValue(text) * Pow10(width - |text|)
    decreases width - |text|
  {
    if |text| < width {
      PaddedValue(text + "0", width);
      assert (text + "0")[..|text|] == text;
      TenTimes(DigitsValue(text), Pow10(width - |text| - 1));
    } else {
      assert Pow10(0) == 1;
    }
  }

  lemma TenTimes(a: int, p: int)
    ensures 10 * a * p == a * (10 * p)
  {
  }

  lemma {:induction false} DigitsBelow(text: string)
    requires Digits(text)
    ensures 0 <= DigitsValue(text) < Pow10(|text|)
    decreases |text|
  {
    if text != [] {
      DigitsBelow(text[..|text| - 1]);
    }
  }

  /** The client reads the full microseconds: `k` fraction digits count units of 10^(6-k)
      microseconds, so whole seconds and then fractions decide between two timestamps. */
  lemma TimestampOrder(s1: int, f1: string, s2: int, f2: string)
    requires Digits(f1) && |f1| <= 6 && Digits(f2) && |f2| <= 6
    ensures TimestampMicros(s1, f1) == s1 * 1_000_000 + DigitsValue(f1) * Pow10(6 - |f1|)
    ensures s1 < s2 ==> TimestampMicros(s1, f1) < TimestampMicros(s2, f2)
    ensures s1 == s2 ==>
      (TimestampMicros(s1, f1) < TimestampMicros(s2, f2)
       <==> DigitsValue(f1) * Pow10(6 - |f1|) < DigitsValue(f2) * Pow10(6 - |f2|))
  {
    hide Pow10, DigitsValue, Digits;
    PaddedValue(f1, 6);
    PaddedValue(f2, 6);
    DigitsBelow(PadEnd(f1, 6));
    DigitsBelow(PadEnd(f2, 6));
    MillionMicros();
  }

  lemma MillionMicros()
    ensures Pow10(6) == 1_000_000
  {
    assert Pow10(2) == 100;
    assert Pow10(3) == 1000;
    assert Pow10(4) == 10_000;
    assert Pow10(5) == 100_000;
  }
}
