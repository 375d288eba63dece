/** What the telemetry stats processor counts: filters, metric batches and log batches. */
module TelemetryCounts {
  import opened Text
  import opened TelemetryKeys

  /** Regular expression matching, pattern first; an invalid pattern matches nothing. */
  type Regex = (string, string) -> bool

  /** Lists are optional because the code distinguishes an absent list from an empty one. */
  datatype LabelFilter = LabelFilter(name: string, values: Option<seq<string>>, valueRegex: string)
  datatype MetricFilter = MetricFilter(
    metricNames: Option<seq<string>>, metricRegex: string, metricTypes: Option<seq<string>>,
    labels: Option<seq<LabelFilter>>)

  datatype MetricGrouping = MetricGrouping(
    groupBy: GroupBy, including: Option<MetricFilter>, excluding: Option<MetricFilter>)

  const PREFIX := "telemetry_stats_"

  /** One datapoint with what decides how it is counted. */
  datatype Point = Point(metric: string, metricType: MetricType, attrs: Attributes)

  /** Simple case folding, exact for comparisons with the ASCII type names. */
  function Fold(c: char): char {
    if 'A' <= c <= 'Z' then c + 'a' - 'A' else if c == '\U{17F}' then 's' else if c == '\U{212A}' then 'k' else c
  }

  predicate EqualFold(a: string, b: string) {
    |a| == |b| && forall i :: 0 <= i < |a| ==> Fold(a[i]) == Fold(b[i])
  }

  // ---------------------------------------------------------------- the filter, declared

  predicate LabelMatches(re: Regex, f: LabelFilter, attrs: Attributes) {
    && Get(attrs, f.name).Some?
    && var value := Get(attrs, f.name).value;
    || (f.values.None? && f.valueRegex == "")
    || (f.values.Some? && value in f.values.value)
    || (f.valueRegex != "" && re(f.valueRegex, value))
  }

  predicate TypeMatches(f: MetricFilter, t: MetricType) {
    f.metricTypes.None? || exists i :: 0 <= i < |f.metricTypes.value| && EqualFold(TypeName(t), f.metricTypes.value[i])
  }

  predicate NameMatches(re: Regex, f: MetricFilter, metric: string) {
    (f.metricNames.Some? && metric in f.metricNames.value) || (f.metricRegex != "" && re(f.metricRegex, metric))
  }

  predicate SomeLabelMatches(re: Regex, f: MetricFilter, attrs: Attributes) {
    f.labels.Some? && exists i :: 0 <= i < |f.labels.value| && LabelMatches(re, f.labels.value[i], attrs)
  }

  predicate TypesOnly(f: MetricFilter) {
    f.metricTypes.Some? && f.metricNames.None? && f.metricRegex == "" && f.labels.None?
  }

  /** The type matches, and so does the name or some label unless the filter lists nothing but types. */
  predicate FilterMatches(re: Regex, f: MetricFilter, p: Point) {
    TypeMatches(f, p.metricType) && (TypesOnly(f) || NameMatches(re, f, p.metric) || SomeLabelMatches(re, f, p.attrs))
  }

  /** The filter as its comment describes it. */
  predicate FilterAsCommented(re: Regex, f: MetricFilter, p: Point) {
    TypeMatches(f, p.metricType) && (NameMatches(re, f, p.metric) || SomeLabelMatches(re, f, p.attrs))
  }

  /** The comment is right except exactly for a datapoint of the right type under a filter that lists only types. */
  lemma CommentHoldsExactlyWhen(re: Regex, f: MetricFilter, p: Point)
    ensures (FilterMatches(re, f, p) <==> FilterAsCommented(re, f, p)) <==>
      !(TypesOnly(f) && TypeMatches(f, p.metricType))
    ensures FilterAsCommented(re, f, p) ==> FilterMatches(re, f, p)
  {
    hide TypeMatches, LabelMatches;
  }

  predicate Included(re: Regex, g: MetricGrouping, p: Point) {
    (g.including.None? || FilterMatches(re, g.including.value, p)) &&
      !(g.excluding.Some? && FilterMatches(re, g.excluding.value, p))
  }

  // ---------------------------------------------------------------- the filter, computed

  method MetricDatapointMatchesFilter(re: Regex, f: MetricFilter, p: Point) returns (r: bool)
    ensures r <==> FilterMatches(re, f, p)
  {
    if f.metricTypes.Some? {
      var types := f.metricTypes.value;
      var found := false;
      var i := 0;
      while i < |types| && !found
        invariant 0 <= i <= |types|
        invariant found <==> exists j :: 0 <= j < i && EqualFold(TypeName(p.metricType), types[j])
      {
        found := EqualFold(TypeName(p.metricType), types[i]);
        i := i + 1;
      }
      if !found {
        return false;
      }
      if f.metricNames.None? && f.metricRegex == "" && f.labels.None? {
        return true;
      }
    }
    if f.metricNames.Some? {
      for i := 0 to |f.metricNames.value|
        invariant p.metric !in f.metricNames.value[..i]
      {
        if p.metric == f.metricNames.value[i] {
          return true;
        }
      }
    }
    if f.metricRegex != "" && re(f.metricRegex, p.metric) {
      return true;
    }
    if f.labels.Some? {
      for i := 0 to |f.labels.value|
        invariant forall j :: 0 <= j < i ==> !LabelMatches(re, f.labels.value[j], p.attrs)
      {
        var matched := MatchLabel(re, f.labels.value[i], p.attrs);
        if matched {
          return true;
        }
      }
    }
    return false;
  }

  method MatchLabel(re: Regex, f: LabelFilter, attrs: Attributes) returns (r: bool)
    ensures r <==> LabelMatches(re, f, attrs)
  {
    var value := Get(attrs, f.name);
    if value.None? {
      return false;
    }
    if f.values.None? && f.valueRegex == "" {
      return true;
    }
    if f.values.Some? {
      for i := 0 to |f.values.value|
        invariant value.value !in f.values.value[..i]
      {
        if value.value == f.values.value[i] {
          return true;
        }
      }
    }
    return f.valueRegex != "" && re(f.valueRegex, value.value);
  }

  // ---------------------------------------------------------------- batches

  datatype Metric = Metric(name: string, metricType: MetricType, points: seq<map<string, Value>>)
  datatype ScopeMetrics = ScopeMetrics(attrs: map<string, Value>, metrics: seq<Metric>)
  datatype ResourceMetrics = ResourceMetrics(attrs: map<string, Value>, scopes: seq<ScopeMetrics>)

  function MetricPoints(r: map<string, Value>, s: map<string, Value>, m: Metric): seq<Point> {
    seq(|m.points|, i requires 0 <= i < |m.points| => Point(m.name, m.metricType, Attributes(r, s, m.points[i])))
  }

  function ScopePoints(r: map<string, Value>, s: map<string, Value>, metrics: seq<Metric>): seq<Point> {
    if metrics == [] then []
    else ScopePoints(r, s, metrics[..|metrics| - 1]) + MetricPoints(r, s, metrics[|metrics| - 1])
  }

  function ResourcePoints(r: map<string, Value>, scopes: seq<ScopeMetrics>): seq<Point> {
    if scopes == [] then []
    else
      var last := scopes[|scopes| - 1];
      ResourcePoints(r, scopes[..|scopes| - 1]) + ScopePoints(r, last.attrs, last.metrics)
  }

  /** The datapoints of a batch, in order. */
  function Points(batch: seq<ResourceMetrics>): seq<Point> {
    if batch == [] then []
    else
      var last := batch[|batch| - 1];
      Points(batch[..|batch| - 1]) + ResourcePoints(last.attrs, last.scopes)
  }

  /** Whether a grouping counts a datapoint. */
  predicate Counts(re: Regex, g: MetricGrouping, p: Point) {
    !HasPrefix(p.metric, PREFIX) && p.metricType != Unsupported && Included(re, g, p)
  }

  function KeyOf(g: MetricGrouping, p: Point): string {
    MetricKey(g.groupBy, p.metric, p.metricType, p.attrs)
  }

  /** The key a pair of grouping and datapoint adds, if any. */
  function Cell(re: Regex, g: MetricGrouping, p: Point): multiset<string> {
    if Counts(re, g, p) then multiset{KeyOf(g, p)} else multiset{}
  }

  function PointKeys(re: Regex, groupings: seq<MetricGrouping>, p: Point): multiset<string> {
    if groupings == [] then multiset{}
    else PointKeys(re, groupings[..|groupings| - 1], p) + Cell(re, groupings[|groupings| - 1], p)
  }

  function Keys(re: Regex, groupings: seq<MetricGrouping>, points: seq<Point>): multiset<string> {
    if points == [] then multiset{}
    else Keys(re, groupings, points[..|points| - 1]) + PointKeys(re, groupings, points[|points| - 1])
  }

  function GroupingKeys(re: Regex, g: MetricGrouping, points: seq<Point>): multiset<string> {
    if points == [] then multiset{}
    else GroupingKeys(re, g, points[..|points| - 1]) + Cell(re, g, points[|points| - 1])
  }

  /** The same pairs taken grouping by grouping, which is the order of the code within one metric. */
  function KeysByGrouping(re: Regex, groupings: seq<MetricGrouping>, points: seq<Point>): multiset<string> {
    if groupings == [] then multiset{}
    else KeysByGrouping(re, groupings[..|groupings| - 1], points) + GroupingKeys(re, groupings[|groupings| - 1], points)
  }

  lemma {:induction false} OrderDoesNotMatter(re: Regex, groupings: seq<MetricGrouping>, points: seq<Point>)
    ensures KeysByGrouping(re, groupings, points) == Keys(re, groupings, points)
    decreases groupings
  {
    if groupings == [] {
      NoGroupings(re, points);
    } else {
      OrderDoesNotMatter(re, groupings[..|groupings| - 1], points);
      LastGrouping(re, groupings, points);
    }
  }

  lemma {:induction false} NoGroupings(re: Regex, points: seq<Point>)
    ensures Keys(re, [], points) == multiset{}
  {
    if points != [] {
      NoGroupings(re, points[..|points| - 1]);
    }
  }

  lemma {:induction false} LastGrouping(re: Regex, groupings: seq<MetricGrouping>, points: seq<Point>)
    requires groupings != []
    ensures Keys(re, groupings, points)
         == Keys(re, groupings[..|groupings| - 1], points) + GroupingKeys(re, groupings[|groupings| - 1], points)
  {
    if points != [] {
      LastGrouping(re, groupings, points[..|points| - 1]);
    }
  }

  lemma {:induction false} KeysConcat(re: Regex, groupings: seq<MetricGrouping>, a: seq<Point>, b: seq<Point>)
    ensures Keys(re, groupings, a + b) == Keys(re, groupings, a) + Keys(re, groupings, b)
  {
    hide PointKeys;
    if b == [] {
      assert a + b == a;
    } else {
      KeysConcat(re, groupings, a, b[..|b| - 1]);
      assert (a + b)[..|a + b| - 1] == a + b[..|b| - 1];
    }
  }

  // ---------------------------------------------------------------- the counters

  /** The counter map holds exactly the multiplicities of `seen`. */
  ghost predicate Represents(counts: map<string, nat>, seen: multiset<string>) {
    forall k :: (k in counts <==> k in seen) && (k in counts ==> counts[k] == seen[k])
  }

  function Bumped(counts: map<string, nat>, key: string): map<string, nat> {
    counts[key := (if key in counts then counts[key] else 0) + 1]
  }

  lemma BumpRepresents(counts: map<string, nat>, seen: multiset<string>, key: string)
    requires Represents(counts, seen)
    ensures Represents(Bumped(counts, key), seen + multiset{key})
  {
  }

  class MetricCounter {
    const re: Regex
    const groupings: seq<MetricGrouping>
    var metricCounts: map<string, nat>
    ghost var seen: multiset<string>   // every key counted so far

    ghost predicate Valid()
      reads this
    {
      Represents(metricCounts, seen)
    }

    constructor (re: Regex, groupings: seq<MetricGrouping>)
      ensures this.re == re && this.groupings == groupings && Valid() && seen == multiset{}
    {
      this.re, this.groupings := re, groupings;
      metricCounts, seen := map[], multiset{};
    }

    method ProcessDatapoint(g: MetricGrouping, p: Point)
      requires Valid() && !HasPrefix(p.metric, PREFIX) && p.metricType != Unsupported
      modifies this
      ensures Valid() && seen == old(seen) + Cell(re, g, p)
    {
      var includes := true;
      if g.including.Some? {
        includes := MetricDatapointMatchesFilter(re, g.including.value, p);
      }
      var excludes := false;
      if g.excluding.Some? {
        excludes := MetricDatapointMatchesFilter(re, g.excluding.value, p);
      }
      if !(includes && !excludes) {
        return;
      }
      var key := GenerateMetricKey(g.groupBy, p.metric, p.metricType, p.attrs);
      BumpRepresents(metricCounts, seen, key);
      metricCounts := metricCounts[key := (if key in metricCounts then metricCounts[key] else 0) + 1];
      seen := seen + multiset{key};
    }

    method ProcessMetricGrouping(g: MetricGrouping, r: map<string, Value>, s: map<string, Value>, m: Metric)
      requires Valid() && !HasPrefix(m.name, PREFIX)
      modifies this
      ensures Valid() && seen == old(seen) + GroupingKeys(re, g, MetricPoints(r, s, m))
    {
      hide Cell, HasPrefix, Represents, GroupingKeys;
      ghost var points := MetricPoints(r, s, m);
      if m.metricType == Unsupported {
        UnsupportedAddsNothing(re, g, points);
        return;
      }
      GroupingStart(re, g, points);
      for i := 0 to |m.points|
        invariant Valid() && seen == old(seen) + GroupingKeys(re, g, points[..i])
      {
        GroupingStep(re, g, points, i);
        ProcessDatapoint(g, Point(m.name, m.metricType, Attributes(r, s, m.points[i])));
      }
      assert points[..|points|] == points;
    }

    method ProcessMetric(r: map<string, Value>, s: map<string, Value>, m: Metric)
      requires Valid()
      modifies this
      ensures Valid() && seen == old(seen) + Keys(re, groupings, MetricPoints(r, s, m))
    {
      ghost var points := MetricPoints(r, s, m);
      if HasPrefix(m.name, PREFIX) {
        OwnMetricsAddNothing(re, groupings, points);
        return;
      }
      for i := 0 to |groupings|
        invariant Valid() && seen == old(seen) + KeysByGrouping(re, groupings[..i], points)
      {
        assert groupings[..i + 1][..i] == groupings[..i];
        ProcessMetricGrouping(groupings[i], r, s, m);
      }
      assert groupings[..|groupings|] == groupings;
      OrderDoesNotMatter(re, groupings, points);
    }

    method ProcessMetrics(batch: seq<ResourceMetrics>)
      requires Valid()
      modifies this
      ensures Valid() && seen == old(seen) + Keys(re, groupings, Points(batch))
    {
      for i := 0 to |batch|
        invariant Valid() && seen == old(seen) + Keys(re, groupings, Points(batch[..i]))
      {
        assert batch[..i + 1][..i] == batch[..i];
        KeysConcat(re, groupings, Points(batch[..i]), ResourcePoints(batch[i].attrs, batch[i].scopes));
        ProcessResource(batch[i].attrs, batch[i].scopes);
      }
      assert batch[..|batch|] == batch;
    }

    method ProcessResource(r: map<string, Value>, scopes: seq<ScopeMetrics>)
      requires Valid()
      modifies this
      ensures Valid() && seen == old(seen) + Keys(re, groupings, ResourcePoints(r, scopes))
    {
      for j := 0 to |scopes|
        invariant Valid() && seen == old(seen) + Keys(re, groupings, ResourcePoints(r, scopes[..j]))
      {
        assert scopes[..j + 1][..j] == scopes[..j];
        KeysConcat(re, groupings, ResourcePoints(r, scopes[..j]), ScopePoints(r, scopes[j].attrs, scopes[j].metrics));
        ProcessScope(r, scopes[j].attrs, scopes[j].metrics);
      }
      assert scopes[..|scopes|] == scopes;
    }

    method ProcessScope(r: map<string, Value>, s: map<string, Value>, metrics: seq<Metric>)
      requires Valid()
      modifies this
      ensures Valid() && seen == old(seen) + Keys(re, groupings, ScopePoints(r, s, metrics))
    {
      for k := 0 to |metrics|
        invariant Valid() && seen == old(seen) + Keys(re, groupings, ScopePoints(r, s, metrics[..k]))
      {
        assert metrics[..k + 1][..k] == metrics[..k];
        KeysConcat(re, groupings, ScopePoints(r, s, metrics[..k]), MetricPoints(r, s, metrics[k]));
        ProcessMetric(r, s, metrics[k]);
      }
      assert metrics[..|metrics|] == metrics;
    }
  }

  lemma GroupingStart(re: Regex, g: MetricGrouping, points: seq<Point>)
    ensures GroupingKeys(re, g, points[..0]) == multiset{}
  {
  }

  lemma GroupingStep(re: Regex, g: MetricGrouping, points: seq<Point>, i: nat)
    requires i < |points|
    ensures GroupingKeys(re, g, points[..i + 1]) == GroupingKeys(re, g, points[..i]) + Cell(re, g, points[i])
  {
    assert points[..i + 1][..i] == points[..i];
  }

  lemma {:induction false} UnsupportedAddsNothing(re: Regex, g: MetricGrouping, points: seq<Point>)
    requires forall i :: 0 <= i < |points| ==> points[i].metricType == Unsupported
    ensures GroupingKeys(re, g, points) == multiset{}
  {
    if points != [] {
      UnsupportedAddsNothing(re, g, points[..|points| - 1]);
    }
  }

  lemma {:induction false} OwnMetricsAddNothing(re: Regex, groupings: seq<MetricGrouping>, points: seq<Point>)
    requires forall i :: 0 <= i < |points| ==> HasPrefix(points[i].metric, PREFIX)
    ensures Keys(re, groupings, points) == multiset{}
  {
    if points != [] {
      OwnMetricsAddNothing(re, groupings, points[..|points| - 1]);
      OwnPointAddsNothing(re, groupings, points[|points| - 1]);
    }
  }

  lemma {:induction false} OwnPointAddsNothing(re: Regex, groupings: seq<MetricGrouping>, p: Point)
    requires HasPrefix(p.metric, PREFIX)
    ensures PointKeys(re, groupings, p) == multiset{}
  {
    if groupings != [] {
      OwnPointAddsNothing(re, groupings[..|groupings| - 1], p);
    }
  }

  // ---------------------------------------------------------------- counting is exact

  /** The pairs of datapoint and grouping, by position, that are counted under `key`. */
  ghost function Pairs(re: Regex, groupings: seq<MetricGrouping>, points: seq<Point>, key: string): set<(nat, nat)> {
    set i: nat, j: nat | i < |points| && j < |groupings|
        && Counts(re, groupings[j], points[i]) && KeyOf(groupings[j], points[i]) == key
      :: (i, j)
  }

  ghost function PointPairs(re: Regex, groupings: seq<MetricGrouping>, p: Point, i: nat, key: string): set<(nat, nat)> {
    set j: nat | j < |groupings| && Counts(re, groupings[j], p) && KeyOf(groupings[j], p) == key :: (i, j)
  }

  lemma {:induction false} PointPairsCount(re: Regex, groupings: seq<MetricGrouping>, p: Point, i: nat, key: string)
    ensures |PointPairs(re, groupings, p, i, key)| == PointKeys(re, groupings, p)[key]
  {
    hide Counts, KeyOf;
    if groupings != [] {
      var front, last := groupings[..|groupings| - 1], groupings[|groupings| - 1];
      PointPairsCount(re, front, p, i, key);
      var smaller, larger := PointPairs(re, front, p, i, key), PointPairs(re, groupings, p, i, key);
      var pair: (nat, nat) := (i, |front|);
      assert forall j: nat :: j < |front| ==> groupings[j] == front[j];
      if Counts(re, last, p) && KeyOf(last, p) == key {
        assert larger == smaller + {pair};
      } else {
        assert larger == smaller;
      }
    }
  }

  /**
   * The number of times a key was counted is the number of pairs of datapoint and grouping that map to it, among
   * datapoints of supported type and foreign name that the grouping includes.
   */
  lemma {:induction false} CountsAreExact(re: Regex, groupings: seq<MetricGrouping>, points: seq<Point>, key: string)
    ensures Keys(re, groupings, points)[key] == |Pairs(re, groupings, points, key)|
  {
    hide Counts, KeyOf, PointKeys;
    if points == [] {
      assert Pairs(re, groupings, points, key) == {};
    } else {
      var front, last := points[..|points| - 1], points[|points| - 1];
      CountsAreExact(re, groupings, front, key);
      PointPairsCount(re, groupings, last, |front|, key);
      var smaller, added := Pairs(re, groupings, front, key), PointPairs(re, groupings, last, |front|, key);
      assert Pairs(re, groupings, points, key) == smaller + added;
      assert smaller !! added;
    }
  }

  /** A sequence of batches counts like their concatenation. */
  method ProcessBatches(c: MetricCounter, batches: seq<seq<ResourceMetrics>>)
    requires c.Valid() && c.seen == multiset{}
    modifies c
    ensures c.Valid()
    ensures forall key :: key in c.metricCounts ==>
      c.metricCounts[key] == |Pairs(c.re, c.groupings, AllPoints(batches), key)|
    ensures forall key :: key in c.metricCounts <==> Pairs(c.re, c.groupings, AllPoints(batches), key) != {}
  {
    for i := 0 to |batches|
      invariant c.Valid() && c.seen == Keys(c.re, c.groupings, AllPoints(batches[..i]))
    {
      assert batches[..i + 1][..i] == batches[..i];
      KeysConcat(c.re, c.groupings, AllPoints(batches[..i]), Points(batches[i]));
      c.ProcessMetrics(batches[i]);
    }
    assert batches[..|batches|] == batches;
    forall key
      ensures key in c.metricCounts ==> c.metricCounts[key] == |Pairs(c.re, c.groupings, AllPoints(batches), key)|
      ensures key in c.metricCounts <==> Pairs(c.re, c.groupings, AllPoints(batches), key) != {}
    {
      CountsAreExact(c.re, c.groupings, AllPoints(batches), key);
    }
  }

  function AllPoints(batches: seq<seq<ResourceMetrics>>): seq<Point> {
    if batches == [] then [] else AllPoints(batches[..|batches| - 1]) + Points(batches[|batches| - 1])
  }

  // ---------------------------------------------------------------- what filters and groupings select

  const NO_FILTER := MetricFilter(None, "", None, None)

  /** Equal up to the case of ASCII letters. */
  predicate SameUpToCase(a: string, b: string) {
    |a| == |b| && forall i :: 0 <= i < |a| ==>
      a[i] == b[i] || ('a' <= a[i] <= 'z' && a[i] as int == b[i] as int + 32)
                   || ('a' <= b[i] <= 'z' && b[i] as int == a[i] as int + 32)
  }

  /**
   * What a filter with a single demand selects, and that names and labels are alternatives while types are required.
   */
  lemma SingleDemands(re: Regex, p: Point, x: string, l: string, types: seq<string>)
    ensures !FilterMatches(re, NO_FILTER, p)
    ensures FilterMatches(re, NO_FILTER.(metricNames := Some([x])), p) <==> p.metric == x
    ensures x != "" ==> (FilterMatches(re, NO_FILTER.(metricRegex := x), p) <==> re(x, p.metric))
    ensures FilterMatches(re, NO_FILTER.(labels := Some([LabelFilter(l, None, "")])), p)
       <==> exists v :: IsTextOf(p.attrs, l, v)
    ensures FilterMatches(re, NO_FILTER.(labels := Some([LabelFilter(l, Some([x]), "")])), p)
       <==> IsTextOf(p.attrs, l, x)
    ensures x != "" ==>
      (FilterMatches(re, NO_FILTER.(labels := Some([LabelFilter(l, None, x)])), p)
       <==> exists v :: IsTextOf(p.attrs, l, v) && re(x, v))
    ensures FilterMatches(re, NO_FILTER.(metricTypes := Some(types)), p)
       <==> exists i :: 0 <= i < |types| && EqualFold(TypeName(p.metricType), types[i])
    ensures FilterMatches(re, NO_FILTER.(metricNames := Some([x]), labels := Some([LabelFilter(l, None, "")])), p)
       <==> p.metric == x || exists v :: IsTextOf(p.attrs, l, v)
    ensures FilterMatches(re, NO_FILTER.(metricTypes := Some(types), metricNames := Some([x])), p)
       <==> p.metric == x && exists i :: 0 <= i < |types| && EqualFold(TypeName(p.metricType), types[i])
  {
    hide EqualFold, TypeName;
    TextOf(p.attrs, l);
    OneLabel(re, p, LabelFilter(l, None, ""));
    OneLabel(re, p, LabelFilter(l, Some([x]), ""));
    OneLabel(re, p, LabelFilter(l, None, x));
  }

  lemma TextOf(a: Attributes, l: string)
    ensures Get(a, l).Some? <==> exists v :: IsTextOf(a, l, v)
    ensures forall v :: IsTextOf(a, l, v) <==> Get(a, l) == Some(v)
  {
    if Get(a, l).Some? {
      assert IsTextOf(a, l, Get(a, l).value);
    }
  }

  lemma OneLabel(re: Regex, p: Point, f: LabelFilter)
    ensures SomeLabelMatches(re, NO_FILTER.(labels := Some([f])), p.attrs) <==> LabelMatches(re, f, p.attrs)
  {
    if LabelMatches(re, f, p.attrs) {
      assert LabelMatches(re, [f][0], p.attrs);
    }
  }

  /** Type names compare without regard to case; the long s and the Kelvin sign are forms of `s` and `k`. */
  lemma CaseDoesNotMatter(a: string, b: string)
    requires SameUpToCase(a, b)
    ensures EqualFold(a, b)
    ensures EqualFold("\U{17F}", "S") && EqualFold("\U{212A}", "k")
  {
  }

  /** What a grouping counts: everything foreign and supported, but for what it does not include or excludes. */
  lemma GroupingsSelect(re: Regex, groupBy: GroupBy, f: MetricFilter, p: Point)
    ensures var foreign := !HasPrefix(p.metric, "telemetry_stats_") && p.metricType != Unsupported;
      && (Counts(re, MetricGrouping(groupBy, None, None), p) <==> foreign)
      && (Counts(re, MetricGrouping(groupBy, Some(f), None), p) <==> foreign && FilterMatches(re, f, p))
      && (Counts(re, MetricGrouping(groupBy, None, Some(f)), p) <==> foreign && !FilterMatches(re, f, p))
      && !Counts(re, MetricGrouping(groupBy, Some(f), Some(f)), p)
  {
  }

  // ---------------------------------------------------------------- what a batch holds

  /** A place in a batch: resource, scope, metric and datapoint. */
  datatype Place = Place(r: nat, s: nat, m: nat, d: nat)

  predicate IsPlace(batch: seq<ResourceMetrics>, at: Place) {
    && at.r < |batch| && at.s < |batch[at.r].scopes| && at.m < |batch[at.r].scopes[at.s].metrics|
    && at.d < |batch[at.r].scopes[at.s].metrics[at.m].points|
  }

  /** `p` is the datapoint at that place, with the name and type of its metric and the attributes of each level. */
  predicate IsAt(batch: seq<ResourceMetrics>, p: Point, at: Place)
    requires IsPlace(batch, at)
  {
    var resource := batch[at.r];
    var scope := resource.scopes[at.s];
    var metric := scope.metrics[at.m];
    && p.metric == metric.name && p.metricType == metric.metricType
    && p.attrs.resource == resource.attrs && p.attrs.scope == scope.attrs && p.attrs.datapoint == metric.points[at.d]
  }

  function ScopeSize(metrics: seq<Metric>): nat {
    if metrics == [] then 0 else ScopeSize(metrics[..|metrics| - 1]) + |metrics[|metrics| - 1].points|
  }

  function ResourceSize(scopes: seq<ScopeMetrics>): nat {
    if scopes == [] then 0 else ResourceSize(scopes[..|scopes| - 1]) + ScopeSize(scopes[|scopes| - 1].metrics)
  }

  function BatchSize(batch: seq<ResourceMetrics>): nat {
    if batch == [] then 0 else BatchSize(batch[..|batch| - 1]) + ResourceSize(batch[|batch| - 1].scopes)
  }

  lemma {:induction false} ScopePointsAre(r: map<string, Value>, s: map<string, Value>, metrics: seq<Metric>)
    ensures |ScopePoints(r, s, metrics)| == ScopeSize(metrics)
  {
    if metrics != [] {
      ScopePointsAre(r, s, metrics[..|metrics| - 1]);
    }
  }

  lemma {:induction false} ResourcePointsAre(r: map<string, Value>, scopes: seq<ScopeMetrics>)
    ensures |ResourcePoints(r, scopes)| == ResourceSize(scopes)
  {
    if scopes != [] {
      ResourcePointsAre(r, scopes[..|scopes| - 1]);
      ScopePointsAre(r, scopes[|scopes| - 1].attrs, scopes[|scopes| - 1].metrics);
    }
  }

  /** A batch yields as many points as it has datapoints. */
  lemma {:induction false} BatchYieldsItsSize(batch: seq<ResourceMetrics>)
    ensures |Points(batch)| == BatchSize(batch)
  {
    if batch != [] {
      BatchYieldsItsSize(batch[..|batch| - 1]);
      ResourcePointsAre(batch[|batch| - 1].attrs, batch[|batch| - 1].scopes);
    }
  }

  lemma {:induction false} PointOfScope(
      r: map<string, Value>, s: map<string, Value>, metrics: seq<Metric>, m: nat, d: nat)
    returns (x: nat)
    requires m < |metrics| && d < |metrics[m].points|
    ensures x < |ScopePoints(r, s, metrics)|
    ensures ScopePoints(r, s, metrics)[x]
         == Point(metrics[m].name, metrics[m].metricType, Attributes(r, s, metrics[m].points[d]))
  {
    var n := |metrics| - 1;
    if m < n {
      x := PointOfScope(r, s, metrics[..n], m, d);
    } else {
      x := |ScopePoints(r, s, metrics[..n])| + d;
    }
  }

  lemma {:induction false} PointOfResource(r: map<string, Value>, scopes: seq<ScopeMetrics>, s: nat, m: nat, d: nat)
    returns (x: nat)
    requires s < |scopes| && m < |scopes[s].metrics| && d < |scopes[s].metrics[m].points|
    ensures x < |ResourcePoints(r, scopes)|
    ensures var metric := scopes[s].metrics[m];
      ResourcePoints(r, scopes)[x]
      == Point(metric.name, metric.metricType, Attributes(r, scopes[s].attrs, metric.points[d]))
  {
    var n := |scopes| - 1;
    if s < n {
      x := PointOfResource(r, scopes[..n], s, m, d);
    } else {
      var y := PointOfScope(r, scopes[n].attrs, scopes[n].metrics, m, d);
      x := |ResourcePoints(r, scopes[..n])| + y;
    }
  }

  /**
   * Every datapoint of a batch is among its points, under its own metric and with its own three levels of attributes.
   */
  lemma {:induction false} EveryDatapointIsAPoint(batch: seq<ResourceMetrics>, at: Place) returns (x: nat)
    requires IsPlace(batch, at)
    ensures x < |Points(batch)| && IsAt(batch, Points(batch)[x], at)
    decreases |batch|
  {
    var n := |batch| - 1;
    if at.r < n {
      x := EveryDatapointIsAPoint(batch[..n], at);
    } else {
      var y := PointOfResource(batch[n].attrs, batch[n].scopes, at.s, at.m, at.d);
      x := |Points(batch[..n])| + y;
    }
  }

  // ---------------------------------------------------------------- logs

  datatype LogGrouping = LogGrouping(name: string, labels: seq<string>)

  function LogKey(g: LogGrouping, attrs: Attributes): string {
    Join([g.name] + LabelParts(g.labels, attrs), ":")
  }

  function RecordKeys(groupings: seq<LogGrouping>, attrs: Attributes): multiset<string> {
    if groupings == [] then multiset{}
    else RecordKeys(groupings[..|groupings| - 1], attrs) + multiset{LogKey(groupings[|groupings| - 1], attrs)}
  }

  function LogKeys(groupings: seq<LogGrouping>, records: seq<Attributes>): multiset<string> {
    if records == [] then multiset{}
    else LogKeys(groupings, records[..|records| - 1]) + RecordKeys(groupings, records[|records| - 1])
  }

  datatype ScopeLogs = ScopeLogs(attrs: map<string, Value>, records: seq<map<string, Value>>)
  datatype ResourceLogs = ResourceLogs(attrs: map<string, Value>, scopes: seq<ScopeLogs>)

  /** The records of a batch in order, each with the attributes of its resource and scope. */
  function ScopeRecords(r: map<string, Value>, s: ScopeLogs): seq<Attributes> {
    seq(|s.records|, i requires 0 <= i < |s.records| => Attributes(r, s.attrs, s.records[i]))
  }

  function ResourceRecords(r: map<string, Value>, scopes: seq<ScopeLogs>): seq<Attributes> {
    if scopes == [] then [] else ResourceRecords(r, scopes[..|scopes| - 1]) + ScopeRecords(r, scopes[|scopes| - 1])
  }

  function Records(batch: seq<ResourceLogs>): seq<Attributes> {
    if batch == [] then []
    else Records(batch[..|batch| - 1]) + ResourceRecords(batch[|batch| - 1].attrs, batch[|batch| - 1].scopes)
  }

  function AllRecords(batches: seq<seq<ResourceLogs>>): seq<Attributes> {
    if batches == [] then [] else AllRecords(batches[..|batches| - 1]) + Records(batches[|batches| - 1])
  }

  /**
   * A log key is the key of a datapoint grouped by the same labels and nothing else, so what holds of those holds here.
   */
  lemma LogKeyIsMetricKey(g: LogGrouping, attrs: Attributes, metric: string, t: MetricType)
    ensures LogKey(g, attrs) == MetricKey(GroupBy(g.name, false, false, g.labels), metric, t, attrs)
  {
    var parts := KeyParts(GroupBy(g.name, false, false, g.labels), metric, t, attrs);
    assert parts == [g.name] + LabelParts(g.labels, attrs);
  }

  /** What a more specific level hides never changes the key of a log record either. */
  lemma HiddenAttributesKeepLogKeys(g: LogGrouping, a: Attributes, b: Attributes)
    requires DifferOnlyWhereHidden(a, b)
    ensures LogKey(g, a) == LogKey(g, b)
  {
    LogKeyIsMetricKey(g, a, "", Gauge);
    LogKeyIsMetricKey(g, b, "", Gauge);
    HiddenAttributesKeepKeys(GroupBy(g.name, false, false, g.labels), "", Gauge, a, b);
  }

  function LogDimensions(g: LogGrouping, attrs: Attributes): Dimensions {
    DimensionsOf(GroupBy(g.name, false, false, g.labels), "", Gauge, attrs)
  }

  /** Records with the same clean key are counted under the same grouping name and the same labels. */
  lemma LogKeysAreInjective(
      g: LogGrouping, attrs: Attributes, g': LogGrouping, attrs': Attributes, name: string, v: string)
    requires Clean(LogDimensions(g, attrs)) && Clean(LogDimensions(g', attrs'))
    requires LogKey(g, attrs) == LogKey(g', attrs')
    ensures g.name == g'.name
    ensures name in g.labels && IsTextOf(attrs, name, v) <==> name in g'.labels && IsTextOf(attrs', name, v)
  {
    hide MetricKey, LogKey, Clean;
    var b, b' := GroupBy(g.name, false, false, g.labels), GroupBy(g'.name, false, false, g'.labels);
    LogKeyIsMetricKey(g, attrs, "", Gauge);
    LogKeyIsMetricKey(g', attrs', "", Gauge);
    KeysAreInjective(b, "", Gauge, attrs, b', "", Gauge, attrs');
    DimensionsAreThoseAskedFor(b, "", Gauge, attrs, name, v);
    DimensionsAreThoseAskedFor(b', "", Gauge, attrs', name, v);
  }

  function LogResourceSize(scopes: seq<ScopeLogs>): nat {
    if scopes == [] then 0 else LogResourceSize(scopes[..|scopes| - 1]) + |scopes[|scopes| - 1].records|
  }

  function LogBatchSize(batch: seq<ResourceLogs>): nat {
    if batch == [] then 0 else LogBatchSize(batch[..|batch| - 1]) + LogResourceSize(batch[|batch| - 1].scopes)
  }

  lemma {:induction false} ResourceRecordsAre(r: map<string, Value>, scopes: seq<ScopeLogs>)
    ensures |ResourceRecords(r, scopes)| == LogResourceSize(scopes)
  {
    if scopes != [] {
      ResourceRecordsAre(r, scopes[..|scopes| - 1]);
    }
  }

  lemma {:induction false} LogBatchYieldsItsSize(batch: seq<ResourceLogs>)
    ensures |Records(batch)| == LogBatchSize(batch)
  {
    if batch != [] {
      LogBatchYieldsItsSize(batch[..|batch| - 1]);
      ResourceRecordsAre(batch[|batch| - 1].attrs, batch[|batch| - 1].scopes);
    }
  }

  lemma {:induction false} RecordOfResource(r: map<string, Value>, scopes: seq<ScopeLogs>, s: nat, d: nat)
    returns (x: nat)
    requires s < |scopes| && d < |scopes[s].records|
    ensures x < |ResourceRecords(r, scopes)|
    ensures ResourceRecords(r, scopes)[x] == Attributes(r, scopes[s].attrs, scopes[s].records[d])
  {
    var n := |scopes| - 1;
    if s < n {
      x := RecordOfResource(r, scopes[..n], s, d);
    } else {
      x := |ResourceRecords(r, scopes[..n])| + d;
    }
  }

  /** Every record of a batch is among its records, with its own three levels of attributes. */
  lemma {:induction false} EveryRecordIsThere(batch: seq<ResourceLogs>, r: nat, s: nat, d: nat) returns (x: nat)
    requires r < |batch| && s < |batch[r].scopes| && d < |batch[r].scopes[s].records|
    ensures x < |Records(batch)|
    ensures var attrs := Records(batch)[x];
      && attrs.resource == batch[r].attrs && attrs.scope == batch[r].scopes[s].attrs
      && attrs.datapoint == batch[r].scopes[s].records[d]
    decreases |batch|
  {
    var n := |batch| - 1;
    if r < n {
      x := EveryRecordIsThere(batch[..n], r, s, d);
    } else {
      var y := RecordOfResource(batch[n].attrs, batch[n].scopes, s, d);
      x := |Records(batch[..n])| + y;
    }
  }

  lemma {:induction false} LogKeysConcat(groupings: seq<LogGrouping>, a: seq<Attributes>, b: seq<Attributes>)
    ensures LogKeys(groupings, a + b) == LogKeys(groupings, a) + LogKeys(groupings, b)
  {
    hide RecordKeys;
    if b == [] {
      assert a + b == a;
    } else {
      LogKeysConcat(groupings, a, b[..|b| - 1]);
      assert (a + b)[..|a + b| - 1] == a + b[..|b| - 1];
    }
  }

  lemma LogKeysStart(groupings: seq<LogGrouping>, records: seq<Attributes>)
    ensures LogKeys(groupings, records[..0]) == multiset{}
  {
  }

  lemma LogKeysStep(groupings: seq<LogGrouping>, records: seq<Attributes>, k: nat)
    requires k < |records|
    ensures LogKeys(groupings, records[..k + 1]) == LogKeys(groupings, records[..k]) + RecordKeys(groupings, records[k])
  {
    assert records[..k + 1][..k] == records[..k];
  }

  /** The pairs of record and grouping, by position, that are counted under `key`. */
  ghost function LogPairs(groupings: seq<LogGrouping>, records: seq<Attributes>, key: string): set<(nat, nat)> {
    set i: nat, j: nat | i < |records| && j < |groupings| && LogKey(groupings[j], records[i]) == key :: (i, j)
  }

  ghost function RecordPairs(groupings: seq<LogGrouping>, attrs: Attributes, i: nat, key: string): set<(nat, nat)> {
    set j: nat | j < |groupings| && LogKey(groupings[j], attrs) == key :: (i, j)
  }

  lemma {:induction false} RecordPairsCount(groupings: seq<LogGrouping>, attrs: Attributes, i: nat, key: string)
    ensures |RecordPairs(groupings, attrs, i, key)| == RecordKeys(groupings, attrs)[key]
  {
    hide LogKey;
    if groupings != [] {
      var front, last := groupings[..|groupings| - 1], groupings[|groupings| - 1];
      RecordPairsCount(front, attrs, i, key);
      var smaller, larger := RecordPairs(front, attrs, i, key), RecordPairs(groupings, attrs, i, key);
      var pair: (nat, nat) := (i, |front|);
      assert forall j: nat :: j < |front| ==> groupings[j] == front[j];
      if LogKey(last, attrs) == key {
        assert larger == smaller + {pair};
      } else {
        assert larger == smaller;
      }
    }
  }

  /** The number of times a log key was counted is the number of pairs of record and grouping that map to it. */
  lemma {:induction false} LogCountsAreExact(groupings: seq<LogGrouping>, records: seq<Attributes>, key: string)
    ensures LogKeys(groupings, records)[key] == |LogPairs(groupings, records, key)|
  {
    hide LogKey, RecordKeys;
    if records == [] {
      assert LogPairs(groupings, records, key) == {};
    } else {
      var front, last := records[..|records| - 1], records[|records| - 1];
      LogCountsAreExact(groupings, front, key);
      RecordPairsCount(groupings, last, |front|, key);
      var smaller, added := LogPairs(groupings, front, key), RecordPairs(groupings, last, |front|, key);
      assert LogPairs(groupings, records, key) == smaller + added;
      assert smaller !! added;
    }
  }

  lemma {:induction false} RecordKeysSize(groupings: seq<LogGrouping>, attrs: Attributes)
    ensures |RecordKeys(groupings, attrs)| == |groupings|
  {
    if groupings != [] {
      RecordKeysSize(groupings[..|groupings| - 1], attrs);
    }
  }

  /** Every record is counted once under every grouping: the total is their product. */
  lemma {:induction false} LogTotal(groupings: seq<LogGrouping>, records: seq<Attributes>)
    ensures |LogKeys(groupings, records)| == |records| * |groupings|
  {
    if records != [] {
      LogTotal(groupings, records[..|records| - 1]);
      RecordKeysSize(groupings, records[|records| - 1]);
      assert |records| * |groupings| == (|records| - 1) * |groupings| + |groupings|;
    }
  }

  method GenerateLogKey(g: LogGrouping, attrs: Attributes) returns (key: string)
    ensures key == LogKey(g, attrs)
  {
    hide Get, Join;
    var keyParts := [g.name];
    for i := 0 to |g.labels|
      invariant keyParts == [g.name] + LabelParts(g.labels[..i], attrs)
    {
      assert g.labels[..i + 1][..i] == g.labels[..i];
      var value := Get(attrs, g.labels[i]);
      if value.Some? {
        keyParts := keyParts + [g.labels[i] + "=" + value.value];
      }
    }
    assert g.labels[..|g.labels|] == g.labels;
    key := Join(keyParts, ":");
  }

  class LogCounter {
    const groupings: seq<LogGrouping>
    var logCounts: map<string, nat>
    ghost var seen: multiset<string>

    ghost predicate Valid()
      reads this
    {
      Represents(logCounts, seen)
    }

    constructor (groupings: seq<LogGrouping>)
      ensures this.groupings == groupings && Valid() && seen == multiset{}
    {
      this.groupings := groupings;
      logCounts, seen := map[], multiset{};
    }

    method ProcessLogs(batch: seq<ResourceLogs>)
      requires Valid()
      modifies this
      ensures Valid() && seen == old(seen) + LogKeys(groupings, Records(batch))
    {
      hide Represents, LogKeys, ResourceRecords;
      LogKeysStart(groupings, Records(batch));
      for i := 0 to |batch|
        invariant Valid() && seen == old(seen) + LogKeys(groupings, Records(batch[..i]))
      {
        assert batch[..i + 1][..i] == batch[..i];
        LogKeysConcat(groupings, Records(batch[..i]), ResourceRecords(batch[i].attrs, batch[i].scopes));
        ProcessResourceLogs(batch[i].attrs, batch[i].scopes);
      }
      assert batch[..|batch|] == batch;
    }

    method ProcessResourceLogs(r: map<string, Value>, scopes: seq<ScopeLogs>)
      requires Valid()
      modifies this
      ensures Valid() && seen == old(seen) + LogKeys(groupings, ResourceRecords(r, scopes))
    {
      hide Represents, LogKeys, ScopeRecords;
      LogKeysStart(groupings, ResourceRecords(r, scopes));
      for j := 0 to |scopes|
        invariant Valid() && seen == old(seen) + LogKeys(groupings, ResourceRecords(r, scopes[..j]))
      {
        assert scopes[..j + 1][..j] == scopes[..j];
        LogKeysConcat(groupings, ResourceRecords(r, scopes[..j]), ScopeRecords(r, scopes[j]));
        ProcessScopeLogs(r, scopes[j]);
      }
      assert scopes[..|scopes|] == scopes;
    }

    method ProcessScopeLogs(r: map<string, Value>, s: ScopeLogs)
      requires Valid()
      modifies this
      ensures Valid() && seen == old(seen) + LogKeys(groupings, ScopeRecords(r, s))
    {
      hide Represents, LogKeys, RecordKeys;
      ghost var records := ScopeRecords(r, s);
      LogKeysStart(groupings, records);
      for k := 0 to |s.records|
        invariant Valid() && seen == old(seen) + LogKeys(groupings, records[..k])
      {
        LogKeysStep(groupings, records, k);
        ProcessRecord(Attributes(r, s.attrs, s.records[k]));
      }
      assert records[..|records|] == records;
    }

    method ProcessRecord(attrs: Attributes)
      requires Valid()
      modifies this
      ensures Valid() && seen == old(seen) + RecordKeys(groupings, attrs)
    {
      hide Represents, LogKey;
      for j := 0 to |groupings|
        invariant Valid() && seen == old(seen) + RecordKeys(groupings[..j], attrs)
      {
        assert groupings[..j + 1][..j] == groupings[..j];
        var key := GenerateLogKey(groupings[j], attrs);
        BumpRepresents(logCounts, seen, key);
        logCounts := logCounts[key := (if key in logCounts then logCounts[key] else 0) + 1];
        seen := seen + multiset{key};
      }
      assert groupings[..|groupings|] == groupings;
    }

    /** `totalCounts`: the counters add up to the records counted, once per grouping. */
    method TotalCounts() returns (total: nat)
      requires Valid()
      ensures total == |seen|
    {
      total := 0;
      var rest := logCounts.Keys;
      ghost var left := seen;
      while rest != {}
        invariant rest <= logCounts.Keys
        invariant forall k :: k in left <==> k in rest
        invariant forall k :: k in rest ==> logCounts[k] == left[k]
        invariant total + |left| == |seen|
        decreases rest
      {
        var k :| k in rest;
        total := total + logCounts[k];
        left := left[k := 0];
        rest := rest - {k};
      }
      assert left == multiset{};
    }
  }

  /**
   * After any sequence of log batches every counter is the number of pairs of record and grouping that map to its key,
   * no other counter exists, and the counters add up to records times groupings.
   */
  method ProcessLogBatches(c: LogCounter, batches: seq<seq<ResourceLogs>>) returns (total: nat)
    requires c.Valid() && c.seen == multiset{}
    modifies c
    ensures c.Valid()
    ensures forall key :: key in c.logCounts ==> c.logCounts[key] == |LogPairs(c.groupings, AllRecords(batches), key)|
    ensures forall key :: key in c.logCounts <==> LogPairs(c.groupings, AllRecords(batches), key) != {}
    ensures total == |AllRecords(batches)| * |c.groupings|
  {
    hide Represents, LogKeys, LogPairs, Records;
    NothingCounted(c.groupings, batches);
    for i := 0 to |batches|
      invariant c.Valid() && c.seen == LogKeys(c.groupings, AllRecords(batches[..i]))
    {
      assert batches[..i + 1][..i] == batches[..i];
      LogKeysConcat(c.groupings, AllRecords(batches[..i]), Records(batches[i]));
      c.ProcessLogs(batches[i]);
    }
    assert batches[..|batches|] == batches;
    RepresentsLogPairs(c.logCounts, c.groupings, AllRecords(batches));
    LogTotal(c.groupings, AllRecords(batches));
    total := c.TotalCounts();
  }

  lemma NothingCounted(groupings: seq<LogGrouping>, batches: seq<seq<ResourceLogs>>)
    ensures LogKeys(groupings, AllRecords(batches[..0])) == multiset{}
  {
  }

  lemma RepresentsLogPairs(counts: map<string, nat>, groupings: seq<LogGrouping>, records: seq<Attributes>)
    requires Represents(counts, LogKeys(groupings, records))
    ensures forall key :: key in counts ==> counts[key] == |LogPairs(groupings, records, key)|
    ensures forall key :: key in counts <==> LogPairs(groupings, records, key) != {}
  {
    hide LogKeys, LogPairs;
    forall key
      ensures key in counts ==> counts[key] == |LogPairs(groupings, records, key)|
      ensures key in counts <==> LogPairs(groupings, records, key) != {}
    {
      LogCountsAreExact(groupings, records, key);
    }
  }
}
