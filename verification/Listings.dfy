/** The lists the service pages through, with the filters and sort columns their cursors carry. */
module Listings {
  import opened Common
  import opened Cursor
  import History
  import Ordering

  // ---------------------------------------------------------------- the lists and their cursors

  /** Text that the encoder writes as it is: printable ASCII but for quote and backslash. */
  predicate Plain(text: string) {
    forall i :: 0 <= i < |text| ==> ' ' <= text[i] <= '~' && text[i] != '"' && text[i] != '\\'
  }

  ghost predicate ScalarsSized(c: Codec) {
    && |c.canonical(Null)| <= 4
    && (forall n :: 0 <= n <= MAX_NUMBER ==> |c.canonical(Number(n))| <= 16)
    && (forall t :: Plain(t) ==> |c.canonical(Words(t))| <= |t| + 2)
  }

  ghost predicate ItemsSized(c: Codec) {
    && |c.canonical(List([]))| <= 2
    && (forall xs, x {:trigger c.canonical(List(xs + [x]))} ::
          |c.canonical(List(xs + [x]))| <= |c.canonical(List(xs))| + |c.canonical(x)| + 1)
  }

  ghost predicate FieldsSized(c: Codec) {
    && |c.canonical(Object(map[]))| <= 2
    && (forall m, k, v {:trigger c.canonical(Object(m[k := v]))} :: Plain(k) ==>
          |c.canonical(Object(m[k := v]))| <= |c.canonical(Object(m))| + |k| + 4 + |c.canonical(v)|)
  }

  /** How long the encoder's output gets: quotes, commas, colons and brackets around the parts, and
      a checksum of 64 hexadecimal digits. */
  ghost predicate Sized(c: Codec) {
    && ScalarsSized(c) && ItemsSized(c) && FieldsSized(c)
    && (forall b :: Plain(c.checksum(b)) && |c.checksum(b)| == 64)
  }

  /** Whole numbers past this one are outside the encoder's domain. */
  const MAX_NUMBER: int := 9007199254740991

  datatype Pin = Pin(name: string, revision: int, digest: string)

  /** Everything the service lists page by page, with the filters of each. */
  datatype Listing =
    | Datasets(name: Option<string>)
    | Suites(suiteName: Option<string>)
    | Jobs(kind: Option<string>, status: Option<string>)
    | Runs(datasetName: Option<string>)
    | Decisions(outcome: Option<string>, descending: bool)
    | SuiteRuns(suite: Pin, target: Option<Pin>)
    | SuiteDecisions(suite: Pin, pair: Option<(Pin, Pin)>)
    | SuiteTargets(suite: Pin)
    | SuiteTargetPairs(suite: Pin)
    | DecisionCases(decisionId: string, metric: Option<string>, gateSlice: Option<string>,
                    caseSlice: Option<string>, change: Option<string>)

  function Stream(l: Listing): string {
    match l
    case Datasets(_) => "datasets"
    case Suites(_) => "suites"
    case Jobs(_, _) => "jobs"
    case Runs(_) => "runs"
    case Decisions(_, _) => "release-decisions"
    case SuiteRuns(_, _) => "suite-runs"
    case SuiteDecisions(_, _) => "suite-decisions"
    case SuiteTargets(_) => "suite-targets"
    case SuiteTargetPairs(_) => "suite-target-pairs"
    case DecisionCases(_, _, _, _, _) => "release-decision-cases"
  }

  function OptionalWords(t: Option<string>): Json {
    if t.None? then Null else Words(t.value)
  }

  function PinFilters(m: map<string, Json>, prefix: string, p: Pin): map<string, Json> {
    m[prefix + "_name" := Words(p.name)][prefix + "_revision" := Number(p.revision)]
     [prefix + "_digest" := Words(p.digest)]
  }

  function Filters(l: Listing): map<string, Json> {
    match l
    case Datasets(name) => map[]["name" := OptionalWords(name)]
    case Suites(name) => map[]["name" := OptionalWords(name)]
    case Jobs(kind, status) => map[]["kind" := OptionalWords(kind)]["status" := OptionalWords(status)]
    case Runs(name) => map[]["dataset_name" := OptionalWords(name)]
    case Decisions(outcome, descending) =>
      var m := map[]["status" := OptionalWords(outcome)];
      if descending then m["order" := Words("desc")] else m
    case SuiteRuns(suite, target) =>
      var m := PinFilters(map[], "suite", suite)["order" := Words("desc")];
      if target.None? then m else PinFilters(m, "target", target.value)
    case SuiteDecisions(suite, pair) =>
      var m := PinFilters(map[], "suite", suite)["order" := Words("desc")];
      if pair.None? then m
      else PinFilters(PinFilters(m, "baseline_target", pair.value.0), "candidate_target", pair.value.1)
    case SuiteTargets(suite) => PinFilters(map[], "suite", suite)["order" := Words("identity-asc")]
    case SuiteTargetPairs(suite) => PinFilters(map[], "suite", suite)["order" := Words("identity-asc")]
    case DecisionCases(decisionId, metric, gateSlice, caseSlice, change) =>
      map[]["case_slice" := OptionalWords(caseSlice)]["change" := OptionalWords(change)]
           ["decision_id" := Words(decisionId)]["gate_slice" := OptionalWords(gateSlice)]
           ["metric" := OptionalWords(metric)]
  }

  predicate Short(text: string, limit: int) {
    Plain(text) && |text| <= limit
  }

  predicate OptionallyShort(text: Option<string>, limit: int) {
    text.None? || Short(text.value, limit)
  }

  predicate ValidPin(p: Pin) {
    Short(p.name, 128) && 1 <= p.revision <= MAX_NUMBER && Short(p.digest, 71)
  }

  /** Filters that can match a row: names, identifiers, slices and metrics of at most 128 plain
      characters, digests of 71, and the names of states. */
  predicate ValidListing(l: Listing) {
    match l
    case Datasets(name) => OptionallyShort(name, 128)
    case Suites(name) => OptionallyShort(name, 128)
    case Jobs(kind, status) => OptionallyShort(kind, 32) && OptionallyShort(status, 32)
    case Runs(name) => OptionallyShort(name, 128)
    case Decisions(outcome, _) => OptionallyShort(outcome, 32)
    case SuiteRuns(suite, target) => ValidPin(suite) && (target.None? || ValidPin(target.value))
    case SuiteDecisions(suite, pair) =>
      ValidPin(suite) && (pair.None? || (ValidPin(pair.value.0) && ValidPin(pair.value.1)))
    case SuiteTargets(suite) => ValidPin(suite)
    case SuiteTargetPairs(suite) => ValidPin(suite)
    case DecisionCases(decisionId, metric, gateSlice, caseSlice, change) =>
      && Short(decisionId, 128) && OptionallyShort(metric, 128) && OptionallyShort(gateSlice, 128)
      && OptionallyShort(caseSlice, 128) && OptionallyShort(change, 32)
  }

  /** Where a page of each list ends: the sort columns of its last row. */
  datatype LastRow =
    | Revision(stamp: string, name: string, revision: int)
    | Identity(stamp: string, id: string)
    | Target(pin: Pin)
    | TargetPair(baseline: Pin, candidate: Pin)
    | Comparison(metric: string, slice: string, caseId: string)

  predicate Ends(l: Listing, row: LastRow) {
    match l
    case Datasets(_) => row.Revision?
    case Suites(_) => row.Revision?
    case SuiteTargets(_) => row.Target?
    case SuiteTargetPairs(_) => row.TargetPair?
    case DecisionCases(_, _, _, _, _) => row.Comparison?
    case _ => row.Identity?
  }

  /** A stamp has 32 characters: date, time with microseconds, and offset. */
  predicate ValidRow(row: LastRow) {
    match row
    case Revision(stamp, name, revision) => Short(stamp, 32) && Short(name, 128) && 1 <= revision <= MAX_NUMBER
    case Identity(stamp, id) => Short(stamp, 32) && Short(id, 128)
    case Target(pin) => ValidPin(pin)
    case TargetPair(baseline, candidate) => ValidPin(baseline) && ValidPin(candidate)
    case Comparison(metric, slice, caseId) => Short(metric, 128) && Short(slice, 128) && Short(caseId, 128)
  }

  function PinKey(items: seq<Json>, p: Pin): seq<Json> {
    items + [Words(p.name)] + [Number(p.revision)] + [Words(p.digest)]
  }

  function RowKey(row: LastRow): seq<Json> {
    match row
    case Revision(stamp, name, revision) => [] + [Words(stamp)] + [Words(name)] + [Number(revision)]
    case Identity(stamp, id) => [] + [Words(stamp)] + [Words(id)]
    case Target(pin) => PinKey([], pin)
    case TargetPair(baseline, candidate) => PinKey(PinKey([], baseline), candidate)
    case Comparison(metric, slice, caseId) => [] + [Words(metric)] + [Words(slice)] + [Words(caseId)]
  }

  lemma PlainPrefixes()
    ensures Plain("suite") && Plain("target") && Plain("baseline_target") && Plain("candidate_target")
  {
  }

  lemma PlainOrders()
    ensures Plain("order") && Plain("desc") && Plain("identity-asc")
  {
  }

  lemma PlainFilters()
    ensures Plain("name") && Plain("dataset_name") && Plain("kind") && Plain("status")
  {
  }

  lemma PlainCaseFilters()
    ensures Plain("case_slice") && Plain("change") && Plain("decision_id") && Plain("gate_slice") && Plain("metric")
  {
  }

  lemma PlainDocument()
    ensures Plain("filters") && Plain("key") && Plain("stream") && Plain("version")
    ensures Plain("checksum") && Plain("payload")
  {
  }

  lemma PlainStream(l: Listing)
    ensures Short(Stream(l), 22)
  {
  }

  lemma PlainFields(prefix: string)
    requires Plain(prefix)
    ensures Plain(prefix + "_name") && Plain(prefix + "_revision") && Plain(prefix + "_digest")
  {
  }

  /** What each list asks of a decoded key before it uses it: the number and kinds of its values. */
  predicate Accepts(l: Listing, key: seq<Json>) {
    match l
    case Datasets(_) => |key| == 3 && key[0].Words? && key[1].Words? && key[2].Number?
    case Suites(_) => |key| == 3 && key[0].Words? && key[1].Words? && key[2].Number?
    case SuiteTargets(_) => |key| == 3 && PinShaped(key)
    case SuiteTargetPairs(_) => |key| == 6 && PinShaped(key[..3]) && PinShaped(key[3..])
    case DecisionCases(_, _, _, _, _) => |key| == 3 && key[0].Words? && key[1].Words? && key[2].Words?
    case _ => |key| == 2 && key[0].Words? && key[1].Words?
  }

  predicate PinShaped(key: seq<Json>)
    requires |key| == 3
  {
    key[0].Words? && key[1].Number? && 1 <= key[1].number && key[2].Words?
  }

  lemma WordsSize(c: Codec, text: string, limit: int)
    requires Sized(c) && Short(text, limit)
    ensures |c.canonical(Words(text))| <= limit + 2
  {
    hide Plain, ItemsSized, FieldsSized;
  }

  lemma NumberSize(c: Codec, n: int)
    requires Sized(c) && 0 <= n <= MAX_NUMBER
    ensures |c.canonical(Number(n))| <= 16
  {
    hide Plain, ItemsSized, FieldsSized;
  }

  lemma OptionalSize(c: Codec, text: Option<string>, limit: int)
    requires Sized(c) && OptionallyShort(text, limit) && 2 <= limit
    ensures |c.canonical(OptionalWords(text))| <= limit + 2
  {
    hide Plain, ItemsSized, FieldsSized, Short;
    if text.Some? {
      WordsSize(c, text.value, limit);
    }
  }

  lemma PutSize(c: Codec, m: map<string, Json>, k: string, v: Json)
    requires Sized(c) && Plain(k)
    ensures |c.canonical(Object(m[k := v]))| <= |c.canonical(Object(m))| + |k| + 4 + |c.canonical(v)|
  {
    hide Plain, ScalarsSized, ItemsSized;
  }

  lemma AppendSize(c: Codec, items: seq<Json>, x: Json)
    requires Sized(c)
    ensures |c.canonical(List(items + [x]))| <= |c.canonical(List(items))| + |c.canonical(x)| + 1
  {
    hide Plain, ScalarsSized, FieldsSized;
  }

  lemma EmptySize(c: Codec)
    requires Sized(c)
    ensures |c.canonical(Object(map[]))| <= 2 && |c.canonical(List([]))| <= 2
  {
    hide Plain, ScalarsSized;
  }

  lemma PinFiltersSize(c: Codec, m: map<string, Json>, prefix: string, p: Pin)
    requires Sized(c) && ValidPin(p) && Plain(prefix)
    ensures |c.canonical(Object(PinFilters(m, prefix, p)))| <= |c.canonical(Object(m))| + 3 * |prefix| + 252
  {
    hide Plain, Sized;
    PlainFields(prefix);
    var named := m[prefix + "_name" := Words(p.name)];
    var revised := named[prefix + "_revision" := Number(p.revision)];
    PutSize(c, m, prefix + "_name", Words(p.name));
    WordsSize(c, p.name, 128);
    PutSize(c, named, prefix + "_revision", Number(p.revision));
    NumberSize(c, p.revision);
    PutSize(c, revised, prefix + "_digest", Words(p.digest));
    WordsSize(c, p.digest, 71);
  }

  lemma OrderSize(c: Codec, m: map<string, Json>, order: string)
    requires Sized(c) && Short(order, 12)
    ensures |c.canonical(Object(m["order" := Words(order)]))| <= |c.canonical(Object(m))| + 23
  {
    hide Plain, Sized;
    PlainOrders();
    PutSize(c, m, "order", Words(order));
    WordsSize(c, order, 12);
  }

  lemma OptionalFilterSize(c: Codec, m: map<string, Json>, k: string, v: Option<string>, limit: int)
    requires Sized(c) && Plain(k) && |k| <= 12 && OptionallyShort(v, limit) && 2 <= limit
    ensures |c.canonical(Object(m[k := OptionalWords(v)]))| <= |c.canonical(Object(m))| + limit + 18
  {
    hide Plain, Sized, OptionalWords;
    PutSize(c, m, k, OptionalWords(v));
    OptionalSize(c, v, limit);
  }

  lemma SuiteFiltersSize(c: Codec, suite: Pin, order: string)
    requires Sized(c) && ValidPin(suite) && Short(order, 12)
    ensures |c.canonical(Object(PinFilters(map[], "suite", suite)["order" := Words(order)]))| <= 292
  {
    hide Plain, Sized, PinFilters;
    PlainPrefixes();
    EmptySize(c);
    PinFiltersSize(c, map[], "suite", suite);
    OrderSize(c, PinFilters(map[], "suite", suite), order);
  }

  lemma CaseFiltersSize(c: Codec, l: Listing)
    requires Sized(c) && l.DecisionCases? && ValidListing(l)
    ensures |c.canonical(Object(Filters(l)))| <= 700
  {
    hide Plain, Sized, OptionalWords;
    PlainCaseFilters();
    EmptySize(c);
    var m1: map<string, Json> := map[]["case_slice" := OptionalWords(l.caseSlice)];
    var m2 := m1["change" := OptionalWords(l.change)];
    var m3 := m2["decision_id" := Words(l.decisionId)];
    var m4 := m3["gate_slice" := OptionalWords(l.gateSlice)];
    OptionalFilterSize(c, map[], "case_slice", l.caseSlice, 128);
    OptionalFilterSize(c, m1, "change", l.change, 32);
    PutSize(c, m2, "decision_id", Words(l.decisionId));
    WordsSize(c, l.decisionId, 128);
    OptionalFilterSize(c, m3, "gate_slice", l.gateSlice, 128);
    OptionalFilterSize(c, m4, "metric", l.metric, 128);
  }

  lemma PinnedFiltersSize(c: Codec, l: Listing)
    requires Sized(c) && ValidListing(l)
    requires l.SuiteRuns? || l.SuiteDecisions? || l.SuiteTargets? || l.SuiteTargetPairs?
    ensures |c.canonical(Object(Filters(l)))| <= 889
  {
    hide Plain, Sized, PinFilters, ValidPin;
    PlainPrefixes();
    PlainOrders();
    if l.SuiteTargets? || l.SuiteTargetPairs? {
      SuiteFiltersSize(c, l.suite, "identity-asc");
    } else {
      SuiteFiltersSize(c, l.suite, "desc");
      var m := PinFilters(map[], "suite", l.suite)["order" := Words("desc")];
      if l.SuiteRuns? && l.target.Some? {
        PinFiltersSize(c, m, "target", l.target.value);
      } else if l.SuiteDecisions? && l.pair.Some? {
        PinFiltersSize(c, m, "baseline_target", l.pair.value.0);
        PinFiltersSize(c, PinFilters(m, "baseline_target", l.pair.value.0), "candidate_target", l.pair.value.1);
      }
    }
  }

  lemma PlainFiltersSize(c: Codec, l: Listing)
    requires Sized(c) && ValidListing(l)
    requires l.Datasets? || l.Suites? || l.Jobs? || l.Runs? || l.Decisions?
    ensures |c.canonical(Object(Filters(l)))| <= 200
  {
    hide Plain, Sized, OptionalWords;
    PlainFilters();
    PlainOrders();
    EmptySize(c);
    match l
    case Datasets(name) => OptionalFilterSize(c, map[], "name", name, 128);
    case Suites(name) => OptionalFilterSize(c, map[], "name", name, 128);
    case Jobs(kind, status) =>
      OptionalFilterSize(c, map[], "kind", kind, 32);
      OptionalFilterSize(c, map[]["kind" := OptionalWords(kind)], "status", status, 32);
    case Runs(name) => OptionalFilterSize(c, map[], "dataset_name", name, 128);
    case Decisions(outcome, _) =>
      OptionalFilterSize(c, map[], "status", outcome, 32);
      OrderSize(c, map[]["status" := OptionalWords(outcome)], "desc");
  }

  lemma FiltersSize(c: Codec, l: Listing)
    requires Sized(c) && ValidListing(l)
    ensures |c.canonical(Object(Filters(l)))| <= 889
  {
    hide Sized, ValidListing, Filters;
    if l.DecisionCases? {
      CaseFiltersSize(c, l);
    } else if l.SuiteRuns? || l.SuiteDecisions? || l.SuiteTargets? || l.SuiteTargetPairs? {
      PinnedFiltersSize(c, l);
    } else {
      PlainFiltersSize(c, l);
    }
  }

  lemma PinKeySize(c: Codec, items: seq<Json>, p: Pin)
    requires Sized(c) && ValidPin(p)
    ensures |c.canonical(List(PinKey(items, p)))| <= |c.canonical(List(items))| + 222
  {
    hide Sized, Plain;
    AppendSize(c, items, Words(p.name));
    WordsSize(c, p.name, 128);
    AppendSize(c, items + [Words(p.name)], Number(p.revision));
    NumberSize(c, p.revision);
    AppendSize(c, items + [Words(p.name)] + [Number(p.revision)], Words(p.digest));
    WordsSize(c, p.digest, 71);
  }

  lemma RowKeySize(c: Codec, row: LastRow)
    requires Sized(c) && ValidRow(row)
    ensures |c.canonical(List(RowKey(row)))| <= if row.Revision? || row.Identity? then 185 else 446
  {
    hide Sized, Plain, PinKey, ValidPin;
    EmptySize(c);
    match row
    case Revision(stamp, name, revision) =>
      AppendSize(c, [], Words(stamp));
      WordsSize(c, stamp, 32);
      AppendSize(c, [] + [Words(stamp)], Words(name));
      WordsSize(c, name, 128);
      AppendSize(c, [] + [Words(stamp)] + [Words(name)], Number(revision));
      NumberSize(c, revision);
    case Identity(stamp, id) =>
      AppendSize(c, [], Words(stamp));
      WordsSize(c, stamp, 32);
      AppendSize(c, [] + [Words(stamp)], Words(id));
      WordsSize(c, id, 128);
    case Target(pin) => PinKeySize(c, [], pin);
    case TargetPair(baseline, candidate) =>
      PinKeySize(c, [], baseline);
      PinKeySize(c, PinKey([], baseline), candidate);
    case Comparison(metric, slice, caseId) =>
      AppendSize(c, [], Words(metric));
      WordsSize(c, metric, 128);
      AppendSize(c, [] + [Words(metric)], Words(slice));
      WordsSize(c, slice, 128);
      AppendSize(c, [] + [Words(metric)] + [Words(slice)], Words(caseId));
      WordsSize(c, caseId, 128);
  }

  lemma PayloadSize(c: Codec, stream: string, filters: map<string, Json>, key: seq<Json>)
    requires Sized(c) && Short(stream, 22)
    ensures |c.canonical(Payload(stream, filters, key))|
            <= |c.canonical(Object(filters))| + |c.canonical(List(key))| + 85
  {
    hide Plain, Sized;
    PlainDocument();
    var m1: map<string, Json> := map[]["filters" := Object(filters)];
    var m2 := m1["key" := List(key)];
    var m3 := m2["stream" := Words(stream)];
    EmptySize(c);
    PutSize(c, map[], "filters", Object(filters));
    PutSize(c, m1, "key", List(key));
    PutSize(c, m2, "stream", Words(stream));
    WordsSize(c, stream, 22);
    PutSize(c, m3, "version", Number(1));
    NumberSize(c, 1);
    assert Payload(stream, filters, key) == Object(m3["version" := Number(1)]);
  }

  lemma ChecksumSize(c: Codec, bytes: seq<Byte>)
    requires Sized(c)
    ensures Short(c.checksum(bytes), 64)
  {
    hide Plain, ScalarsSized, ItemsSized, FieldsSized;
  }

  lemma EnvelopeSize(c: Codec, payload: Json)
    requires Sized(c)
    ensures |c.canonical(Envelope(c, payload))| <= |c.canonical(payload)| + 91
  {
    hide Plain, Sized;
    PlainDocument();
    var checksum := Words(c.checksum(c.canonical(payload)));
    ChecksumSize(c, c.canonical(payload));
    EmptySize(c);
    PutSize(c, map[], "checksum", checksum);
    WordsSize(c, c.checksum(c.canonical(payload)), 64);
    PutSize(c, map[]["checksum" := checksum], "payload", payload);
    assert Envelope(c, payload) == Object(map[]["checksum" := checksum]["payload" := payload]);
  }

  /** The document of every cursor that a list hands out fits the length limit of its text. */
  lemma CursorFits(c: Codec, l: Listing, row: LastRow)
    requires Sized(c) && ValidListing(l) && ValidRow(row)
    ensures |c.canonical(Envelope(c, Payload(Stream(l), Filters(l), RowKey(row))))| <= 1536
  {
    hide Sized, ValidListing, ValidRow, Filters, RowKey, Payload, Envelope, Short, Stream;
    PlainStream(l);
    FiltersSize(c, l);
    RowKeySize(c, row);
    PayloadSize(c, Stream(l), Filters(l), RowKey(row));
    EnvelopeSize(c, Payload(Stream(l), Filters(l), RowKey(row)));
  }

  lemma OptionalInjective(a: Option<string>, b: Option<string>)
    requires OptionalWords(a) == OptionalWords(b)
    ensures a == b
  {
  }

  /** A pin can be read back from its filters. */
  predicate HasPin(filters: map<string, Json>, prefix: string, p: Pin) {
    && prefix + "_name" in filters && filters[prefix + "_name"] == Words(p.name)
    && prefix + "_revision" in filters && filters[prefix + "_revision"] == Number(p.revision)
    && prefix + "_digest" in filters && filters[prefix + "_digest"] == Words(p.digest)
  }

  lemma NamesDiffer(prefix: string)
    ensures prefix + "_name" != prefix + "_revision" && prefix + "_name" != prefix + "_digest"
    ensures prefix + "_revision" != prefix + "_digest"
  {
    assert |prefix + "_name"| != |prefix + "_revision"|;
    assert |prefix + "_name"| != |prefix + "_digest"|;
    assert |prefix + "_revision"| != |prefix + "_digest"|;
  }

  lemma PinKept(m: map<string, Json>, prefix: string, p: Pin)
    ensures HasPin(PinFilters(m, prefix, p), prefix, p)
  {
    NamesDiffer(prefix);
  }

  lemma OnePin(filters: map<string, Json>, prefix: string, p: Pin, q: Pin)
    requires HasPin(filters, prefix, p) && HasPin(filters, prefix, q)
    ensures p == q
  {
  }

  lemma FirstDiffers(a: string, b: string, x: string, y: string)
    requires a != [] && b != [] && a[0] != b[0]
    ensures a + x != b + y
  {
    assert (a + x)[0] == a[0] && (b + y)[0] == b[0];
  }

  /** Adding a pin under another prefix keeps one that is there. */
  lemma PinBeside(m: map<string, Json>, prefix: string, p: Pin, other: string, q: Pin)
    requires HasPin(m, prefix, p) && prefix != [] && other != [] && prefix[0] != other[0]
    ensures HasPin(PinFilters(m, other, q), prefix, p)
    ensures PinFilters(m, other, q).Keys == m.Keys + {other + "_name", other + "_revision", other + "_digest"}
  {
    forall x, y
      ensures prefix + x != other + y
    {
      FirstDiffers(prefix, other, x, y);
    }
  }

  predicate SameList(l: Listing, l': Listing) {
    match l
    case Datasets(_) => l'.Datasets?
    case Suites(_) => l'.Suites?
    case Jobs(_, _) => l'.Jobs?
    case Runs(_) => l'.Runs?
    case Decisions(_, _) => l'.Decisions?
    case SuiteRuns(_, _) => l'.SuiteRuns?
    case SuiteDecisions(_, _) => l'.SuiteDecisions?
    case SuiteTargets(_) => l'.SuiteTargets?
    case SuiteTargetPairs(_) => l'.SuiteTargetPairs?
    case DecisionCases(_, _, _, _, _) => l'.DecisionCases?
  }

  function StreamSize(l: Listing): int {
    match l
    case Datasets(_) => 8
    case Suites(_) => 6
    case Jobs(_, _) => 4
    case Runs(_) => 4
    case Decisions(_, _) => 17
    case SuiteRuns(_, _) => 10
    case SuiteDecisions(_, _) => 15
    case SuiteTargets(_) => 13
    case SuiteTargetPairs(_) => 18
    case DecisionCases(_, _, _, _, _) => 22
  }

  lemma StreamShape(l: Listing)
    ensures |Stream(l)| == StreamSize(l)
    ensures Stream(l)[0] == if l.Datasets? then 'd' else if l.Jobs? then 'j'
                            else if l.Runs? || l.Decisions? || l.DecisionCases? then 'r' else 's'
  {
  }

  lemma StreamsDiffer(l: Listing, l': Listing)
    requires Stream(l) == Stream(l')
    ensures SameList(l, l')
  {
    hide Stream;
    StreamShape(l);
    StreamShape(l');
  }

  /** Every filter's name starts with one of these letters. */
  predicate Starting(filters: map<string, Json>, letters: set<char>) {
    forall k :: k in filters ==> k != "" && k[0] in letters
  }

  function SuiteFilters(suite: Pin, order: string): map<string, Json> {
    PinFilters(map[], "suite", suite)["order" := Words(order)]
  }

  lemma SuiteBase(suite: Pin, order: string)
    ensures HasPin(SuiteFilters(suite, order), "suite", suite)
    ensures Starting(SuiteFilters(suite, order), {'s', 'o'})
  {
    PinKept(map[], "suite", suite);
    FirstDiffers("suite", "o", "_name", "rder");
    FirstDiffers("suite", "o", "_revision", "rder");
    FirstDiffers("suite", "o", "_digest", "rder");
    assert "o" + "rder" == "order";
  }

  lemma NoPin(filters: map<string, Json>, letters: set<char>, prefix: string, p: Pin)
    requires Starting(filters, letters) && prefix != "" && prefix[0] !in letters
    ensures !HasPin(filters, prefix, p)
  {
    assert (prefix + "_name")[0] == prefix[0];
  }

  lemma SuiteRunsKeep(suite: Pin, target: Option<Pin>, q: Pin)
    ensures HasPin(Filters(SuiteRuns(suite, target)), "suite", suite)
    ensures HasPin(Filters(SuiteRuns(suite, target)), "target", q) <==> target == Some(q)
  {
    hide HasPin, PinFilters, Starting;
    var base := SuiteFilters(suite, "desc");
    SuiteBase(suite, "desc");
    if target.None? {
      NoPin(base, {'s', 'o'}, "target", q);
    } else {
      var filters := PinFilters(base, "target", target.value);
      PinBeside(base, "suite", suite, "target", target.value);
      PinKept(base, "target", target.value);
      if HasPin(filters, "target", q) {
        OnePin(filters, "target", q, target.value);
      }
    }
  }

  lemma PairKept(base: map<string, Json>, suite: Pin, first: Pin, second: Pin)
    requires HasPin(base, "suite", suite)
    ensures
      var filters := PinFilters(PinFilters(base, "baseline_target", first), "candidate_target", second);
      && HasPin(filters, "suite", suite) && HasPin(filters, "baseline_target", first)
      && HasPin(filters, "candidate_target", second)
  {
    hide HasPin, PinFilters;
    var half := PinFilters(base, "baseline_target", first);
    PinBeside(base, "suite", suite, "baseline_target", first);
    PinKept(base, "baseline_target", first);
    PinBeside(half, "suite", suite, "candidate_target", second);
    PinBeside(half, "baseline_target", first, "candidate_target", second);
    PinKept(half, "candidate_target", second);
  }

  predicate HasPair(filters: map<string, Json>, b: Pin, c: Pin) {
    HasPin(filters, "baseline_target", b) && HasPin(filters, "candidate_target", c)
  }

  lemma SuiteDecisionsKeep(suite: Pin, pair: Option<(Pin, Pin)>, b: Pin, c: Pin)
    ensures HasPin(Filters(SuiteDecisions(suite, pair)), "suite", suite)
    ensures HasPair(Filters(SuiteDecisions(suite, pair)), b, c) <==> pair == Some((b, c))
  {
    hide HasPin, PinFilters, Starting;
    var base := SuiteFilters(suite, "desc");
    SuiteBase(suite, "desc");
    if pair.None? {
      NoPin(base, {'s', 'o'}, "baseline_target", b);
    } else {
      var filters := Filters(SuiteDecisions(suite, pair));
      PairKept(base, suite, pair.value.0, pair.value.1);
      if HasPair(filters, b, c) {
        OnePin(filters, "baseline_target", b, pair.value.0);
        OnePin(filters, "candidate_target", c, pair.value.1);
      }
    }
  }

  lemma SuiteRunsInjective(l: Listing, l': Listing)
    requires l.SuiteRuns? && l'.SuiteRuns? && Filters(l) == Filters(l')
    ensures l == l'
  {
    hide Filters, HasPin;
    var q := if l.target.Some? then l.target.value else l.suite;
    var q' := if l'.target.Some? then l'.target.value else l.suite;
    SuiteRunsKeep(l.suite, l.target, q);
    SuiteRunsKeep(l'.suite, l'.target, q);
    SuiteRunsKeep(l.suite, l.target, q');
    SuiteRunsKeep(l'.suite, l'.target, q');
    OnePin(Filters(l), "suite", l.suite, l'.suite);
  }

  lemma SuiteDecisionsInjective(l: Listing, l': Listing)
    requires l.SuiteDecisions? && l'.SuiteDecisions? && Filters(l) == Filters(l')
    ensures l == l'
  {
    hide Filters, HasPin, HasPair;
    var (b, c) := if l.pair.Some? then l.pair.value else (l.suite, l.suite);
    var (b', c') := if l'.pair.Some? then l'.pair.value else (l.suite, l.suite);
    SuiteDecisionsKeep(l.suite, l.pair, b, c);
    SuiteDecisionsKeep(l'.suite, l'.pair, b, c);
    SuiteDecisionsKeep(l.suite, l.pair, b', c');
    SuiteDecisionsKeep(l'.suite, l'.pair, b', c');
    OnePin(Filters(l), "suite", l.suite, l'.suite);
  }

  lemma CaseNamesDiffer()
    ensures "case_slice" != "change" && "case_slice" != "decision_id" && "case_slice" != "gate_slice"
    ensures "case_slice" != "metric" && "change" != "decision_id" && "change" != "gate_slice" && "change" != "metric"
    ensures "decision_id" != "gate_slice" && "decision_id" != "metric" && "gate_slice" != "metric"
  {
    assert "case_slice"[0] == 'c' && "gate_slice"[0] == 'g' && "change"[0] == 'c' && "metric"[0] == 'm';
    assert |"case_slice"| == 10 && |"change"| == 6 && |"decision_id"| == 11 && |"gate_slice"| == 10 && |"metric"| == 6;
  }

  lemma CaseFiltersInjective(l: Listing, l': Listing)
    requires l.DecisionCases? && l'.DecisionCases? && Filters(l) == Filters(l')
    ensures l == l'
  {
    hide OptionalWords;
    CaseNamesDiffer();
    var f := Filters(l);
    assert f["case_slice"] == OptionalWords(l.caseSlice) == OptionalWords(l'.caseSlice);
    assert f["change"] == OptionalWords(l.change) == OptionalWords(l'.change);
    assert f["decision_id"] == Words(l.decisionId) == Words(l'.decisionId);
    assert f["gate_slice"] == OptionalWords(l.gateSlice) == OptionalWords(l'.gateSlice);
    assert f["metric"] == OptionalWords(l.metric) == OptionalWords(l'.metric);
    OptionalInjective(l.caseSlice, l'.caseSlice);
    OptionalInjective(l.change, l'.change);
    OptionalInjective(l.gateSlice, l'.gateSlice);
    OptionalInjective(l.metric, l'.metric);
  }

  lemma PlainFiltersInjective(l: Listing, l': Listing)
    requires SameList(l, l') && Filters(l) == Filters(l')
    requires l.Datasets? || l.Suites? || l.Jobs? || l.Runs? || l.Decisions?
    ensures l == l'
  {
    hide OptionalWords;
    assert |"kind"| == 4 && |"status"| == 6 && |"order"| == 5;
    var f := Filters(l);
    match l
    case Datasets(name) =>
      assert f["name"] == OptionalWords(l'.name);
      OptionalInjective(name, l'.name);
    case Suites(name) =>
      assert f["name"] == OptionalWords(l'.suiteName);
      OptionalInjective(name, l'.suiteName);
    case Jobs(kind, status) =>
      assert f["kind"] == OptionalWords(l'.kind) && f["status"] == OptionalWords(l'.status);
      OptionalInjective(kind, l'.kind);
      OptionalInjective(status, l'.status);
    case Runs(name) =>
      assert f["dataset_name"] == OptionalWords(l'.datasetName);
      OptionalInjective(name, l'.datasetName);
    case Decisions(outcome, descending) =>
      assert f["status"] == OptionalWords(l'.outcome);
      assert descending <==> "order" in f;
      OptionalInjective(outcome, l'.outcome);
  }

  /** Different lists, or one list under different filters, never share stream and filters. */
  lemma FiltersInjective(l: Listing, l': Listing)
    requires Stream(l) == Stream(l') && Filters(l) == Filters(l')
    ensures l == l'
  {
    hide Stream, Filters, HasPin;
    StreamsDiffer(l, l');
    match l
    case SuiteRuns(_, _) => SuiteRunsInjective(l, l');
    case SuiteDecisions(_, _) => SuiteDecisionsInjective(l, l');
    case SuiteTargets(_) => TargetListInjective(l, l');
    case SuiteTargetPairs(_) => TargetListInjective(l, l');
    case DecisionCases(_, _, _, _, _) => CaseFiltersInjective(l, l');
    case _ => PlainFiltersInjective(l, l');
  }

  lemma TargetListInjective(l: Listing, l': Listing)
    requires SameList(l, l') && Filters(l) == Filters(l') && (l.SuiteTargets? || l.SuiteTargetPairs?)
    ensures l == l'
  {
    hide HasPin, PinFilters, Starting;
    SuiteBase(l.suite, "identity-asc");
    SuiteBase(l'.suite, "identity-asc");
    OnePin(Filters(l), "suite", l.suite, l'.suite);
  }

  lemma RowKeyAccepted(l: Listing, row: LastRow)
    requires Ends(l, row) && ValidRow(row)
    ensures Accepts(l, RowKey(row))
  {
    hide Plain;
  }

  /** Every next cursor of every list decodes to the sort columns of its last row when that list
      is asked to go on under the same filters, and is refused by any other list or filters. */
  lemma NextCursorDecodes(c: Codec, l: Listing, row: LastRow, l': Listing)
    requires Faithful(c) && Sized(c) && ValidListing(l) && Ends(l, row) && ValidRow(row)
    ensures DecodeCursor(c, EncodeCursor(c, Stream(l), Filters(l), RowKey(row)), Stream(l'), Filters(l'))
         == if l == l' then Some(RowKey(row)) else None
    ensures Accepts(l, RowKey(row))
  {
    hide Sized, ValidListing, ValidRow, Filters, RowKey, Payload, Envelope, Stream, DecodeCursor, EncodeCursor;
    hide Accepts, Ends;
    RowKeyAccepted(l, row);
    CursorFits(c, l, row);
    CursorRoundTrip(c, Stream(l), Filters(l), RowKey(row), Stream(l'), Filters(l'));
    if Stream(l) == Stream(l') && Filters(l) == Filters(l') {
      FiltersInjective(l, l');
    }
  }

  // ---------------------------------------------------------------- the columns a cursor carries

  function Column(value: Json): Ordering.Field
    requires value.Words? || value.Number?
  {
    if value.Words? then Ordering.Text(value.text) else Ordering.Num(value.number)
  }

  predicate Scalars(key: seq<Json>) {
    forall i :: 0 <= i < |key| ==> key[i].Words? || key[i].Number?
  }

  /** A decoded key as the tuple its list is sorted by. */
  function Columns(key: seq<Json>): (r: Ordering.Key)
    requires Scalars(key)
    ensures |r| == |key| && forall i :: 0 <= i < |r| ==> r[i] == Column(key[i])
  {
    seq(|key|, i requires 0 <= i < |key| => Column(key[i]))
  }

  function PinTarget(p: Pin): History.TargetRef {
    History.TargetRef(p.name, p.revision, p.digest)
  }

  /** The cursor of each list carries the columns the list is sorted by, in their order: creation time
      and then identity, or name and revision; a target's own columns, those of a baseline before
      those of a candidate; and metric, scope and case of a comparison. */
  lemma CursorCarriesSortKey(row: LastRow)
    ensures Scalars(RowKey(row))
    ensures
      match row
      case Revision(stamp, name, revision) =>
        Columns(RowKey(row)) == [Ordering.Text(stamp), Ordering.Text(name), Ordering.Num(revision)]
      case Identity(stamp, id) => Columns(RowKey(row)) == [Ordering.Text(stamp), Ordering.Text(id)]
      case Target(pin) => Columns(RowKey(row)) == History.TargetKey(PinTarget(pin))
      case TargetPair(baseline, candidate) =>
        Columns(RowKey(row)) == History.TargetKey(PinTarget(baseline)) + History.TargetKey(PinTarget(candidate))
      case Comparison(metric, slice, caseId) =>
        Columns(RowKey(row)) == [Ordering.Text(metric), Ordering.Text(slice), Ordering.Text(caseId)]
  {
    assert |RowKey(row)| <= 6;
  }
}
