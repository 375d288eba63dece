/** Counter keys of the telemetry stats processor: printed from dimensions, parsed back into labels. */
module TelemetryKeys {
  import opened Text

  datatype MetricType = Gauge | Sum | Histogram | Summary | Unsupported

  function TypeName(t: MetricType): string {
    match t
    case Gauge => "Gauge"
    case Sum => "Counter"
    case Histogram => "Histogram"
    case Summary => "Summary"
    case Unsupported => "Unknown"
  }

  datatype Value = Str(text: string) | NotStr

  /** Attributes at three levels; the most specific level that has a name decides, even if its value is no string. */
  datatype Attributes = Attributes(
    resource: map<string, Value>, scope: map<string, Value>, datapoint: map<string, Value>)

  function GetValue(a: Attributes, name: string): Option<Value> {
    if name in a.datapoint then Some(a.datapoint[name])
    else if name in a.scope then Some(a.scope[name])
    else if name in a.resource then Some(a.resource[name])
    else None
  }

  function Get(a: Attributes, name: string): Option<string> {
    match GetValue(a, name)
    case Some(Str(text)) => Some(text)
    case _ => None
  }

  /** How a grouping distinguishes datapoints. */
  datatype GroupBy = GroupBy(grouping: string, metricName: bool, metricType: bool, labels: seq<string>)

  const SOURCE := "telemetrystatsprocessor:0.0.1"

  function LabelParts(names: seq<string>, attrs: Attributes): seq<string> {
    if names == [] then []
    else
      var last := names[|names| - 1];
      LabelParts(names[..|names| - 1], attrs) + match Get(attrs, last) case Some(v) => [last + "=" + v] case None => []
  }

  function KeyParts(g: GroupBy, metric: string, t: MetricType, attrs: Attributes): seq<string> {
    [g.grouping]
    + (if g.metricName then ["__name" + "=" + metric] else [])
    + (if g.metricType then ["__type" + "=" + TypeName(t)] else [])
    + LabelParts(g.labels, attrs)
  }

  function MetricKey(g: GroupBy, metric: string, t: MetricType, attrs: Attributes): string {
    Join(KeyParts(g, metric, t, attrs), ":")
  }

  method GenerateMetricKey(g: GroupBy, metric: string, t: MetricType, attrs: Attributes) returns (key: string)
    ensures key == MetricKey(g, metric, t, attrs)
  {
    hide Get, TypeName, Join;
    var keyParts := [g.grouping];
    if g.metricName {
      keyParts := keyParts + ["__name" + "=" + metric];
    }
    if g.metricType {
      keyParts := keyParts + ["__type" + "=" + TypeName(t)];
    }
    ghost var before := keyParts;
    for i := 0 to |g.labels|
      invariant keyParts == before + LabelParts(g.labels[..i], attrs)
    {
      assert g.labels[..i + 1][..i] == g.labels[..i];
      var value := Get(attrs, g.labels[i]);
      if value.Some? {
        keyParts := keyParts + [g.labels[i] + "=" + value.value];
      }
    }
    assert g.labels[..|g.labels|] == g.labels;
    assert keyParts == KeyParts(g, metric, t, attrs);
    key := Join(keyParts, ":");
  }

  type Labels = map<string, string>

  function LabelName(name: string): string {
    if name == "__name" then "metric_name" else if name == "__type" then "metric_type" else name
  }

  function WithPart(labels: Labels, part: string): Labels {
    match Cut(part, '=')
    case None => labels
    case Some((name, value)) => labels[LabelName(name) := value]
  }

  function WithParts(labels: Labels, parts: seq<string>): Labels {
    if parts == [] then labels else WithPart(WithParts(labels, parts[..|parts| - 1]), parts[|parts| - 1])
  }

  function KeyLabels(key: string): Labels {
    var parts := Split(key, ':');
    WithParts(map["source" := SOURCE, "grouping" := parts[0]], parts[1..])
  }

  method ParseKey(key: string) returns (labels: Labels)
    ensures labels == KeyLabels(key)
  {
    var parts := Split(key, ':');
    labels := map["source" := SOURCE];
    labels := labels["grouping" := parts[0]];
    var rest := parts[1..];
    ghost var before := labels;
    for i := 0 to |rest|
      invariant labels == WithParts(before, rest[..i])
    {
      assert rest[..i + 1][..i] == rest[..i];
      var kv := Cut(rest[i], '=');
      if kv.Some? {
        var (name, value) := kv.value;
        match name {
          case "__name" => labels := labels["metric_name" := value];
          case "__type" => labels := labels["metric_type" := value];
          case _ => labels := labels[name := value];
        }
      }
    }
    assert rest[..|rest|] == rest;
  }

  // ---------------------------------------------------------------- round trip

  /** What a datapoint is counted under. */
  datatype Dimensions = Dimensions(grouping: string, metric: Option<string>, metricType: Option<string>, labels: Labels)

  function LabelMap(names: seq<string>, attrs: Attributes): Labels {
    if names == [] then map[]
    else
      var last := names[|names| - 1];
      var rest := LabelMap(names[..|names| - 1], attrs);
      match Get(attrs, last) case Some(v) => rest[last := v] case None => rest
  }

  function DimensionsOf(g: GroupBy, metric: string, t: MetricType, attrs: Attributes): Dimensions {
    Dimensions(g.grouping, if g.metricName then Some(metric) else None,
               if g.metricType then Some(TypeName(t)) else None, LabelMap(g.labels, attrs))
  }

  const OWN_LABELS: set<string> := {"source", "grouping", "metric_name", "metric_type"}

  function Lookup(labels: Labels, name: string): Option<string> {
    if name in labels then Some(labels[name]) else None
  }

  /** The dimensions as a reader of the generated datapoint's labels sees them. */
  function Recovered(labels: Labels): Option<Dimensions> {
    if "grouping" !in labels then None
    else Some(Dimensions(
      labels["grouping"], Lookup(labels, "metric_name"), Lookup(labels, "metric_type"), labels - OWN_LABELS))
  }

  predicate CleanLabel(name: string, value: string) {
    && ':' !in name && '=' !in name && ':' !in value
    && name !in OWN_LABELS && name != "__name" && name != "__type"
  }

  /** No separator in anything printed, and no label with a name the format uses itself. */
  predicate Clean(d: Dimensions) {
    && ':' !in d.grouping
    && (d.metric.Some? ==> ':' !in d.metric.value)
    && (d.metricType.Some? ==> ':' !in d.metricType.value)
    && forall name :: name in d.labels ==> CleanLabel(name, d.labels[name])
  }

  lemma {:induction false} CutIsClean(s: string, sep: char)
    ensures Cut(s, sep).Some? ==>
      var (before, after) := Cut(s, sep).value;
      sep !in before && s == before + [sep] + after
  {
    if s != "" && s[0] != sep {
      CutIsClean(s[1..], sep);
    }
  }

  /**
   * What parsing can produce at all: names free of separators and of the two internal prefixes, values free of colons.
   */
  predicate Parsed(labels: Labels) {
    forall name :: name in labels && name != "source" ==>
      && ':' !in labels[name]
      && (name !in OWN_LABELS ==> CleanLabel(name, labels[name]))
  }

  lemma {:induction false} PartsParse(labels: Labels, parts: seq<string>)
    requires Parsed(labels) && "grouping" in labels
    requires forall i :: 0 <= i < |parts| ==> ':' !in parts[i]
    ensures Parsed(WithParts(labels, parts)) && "grouping" in WithParts(labels, parts)
  {
    if parts != [] {
      PartsParse(labels, parts[..|parts| - 1]);
      var part := parts[|parts| - 1];
      CutIsClean(part, '=');
    }
  }

  /** Colon-free parts come back from the key as they went in. */
  lemma {:induction false} LabelPartsAreUnbroken(names: seq<string>, attrs: Attributes)
    requires forall name :: name in LabelMap(names, attrs) ==> CleanLabel(name, LabelMap(names, attrs)[name])
    ensures forall i :: 0 <= i < |LabelParts(names, attrs)| ==> ':' !in LabelParts(names, attrs)[i]
  {
    if names != [] {
      LabelMapValues(names, attrs);
      LabelMapValues(names[..|names| - 1], attrs);
      LabelPartsAreUnbroken(names[..|names| - 1], attrs);
    }
  }

  /** Repeated label names are harmless: they all have the attribute's one value. */
  lemma {:induction false} LabelMapValues(names: seq<string>, attrs: Attributes)
    ensures forall name :: name in LabelMap(names, attrs) <==> name in names && Get(attrs, name).Some?
    ensures forall name :: name in LabelMap(names, attrs) ==> Get(attrs, name) == Some(LabelMap(names, attrs)[name])
  {
    if names != [] {
      LabelMapValues(names[..|names| - 1], attrs);
      assert names == names[..|names| - 1] + [names[|names| - 1]];
    }
  }

  lemma NamedPart(labels: Labels, name: string, value: string)
    requires '=' !in name
    ensures WithPart(labels, name + "=" + value) == labels[LabelName(name) := value]
  {
    CutAtFirst(name, value, '=');
  }

  lemma AddedPart(labels: Labels, parts: seq<string>, name: string, value: string)
    requires '=' !in name
    ensures WithParts(labels, parts + [name + "=" + value]) == WithParts(labels, parts)[LabelName(name) := value]
  {
    var part := name + "=" + value;
    assert (parts + [part])[..|parts|] == parts;
    NamedPart(WithParts(labels, parts), name, value);
  }

  lemma {:induction false} LabelPartsParse(labels: Labels, names: seq<string>, attrs: Attributes)
    requires forall name :: name in LabelMap(names, attrs) ==> CleanLabel(name, LabelMap(names, attrs)[name])
    ensures WithParts(labels, LabelParts(names, attrs)) == labels + LabelMap(names, attrs)
  {
    hide WithParts, Get;
    if names == [] {
      NoParts(labels);
    } else {
      var front, last := names[..|names| - 1], names[|names| - 1];
      LabelMapValues(names, attrs);
      LabelMapValues(front, attrs);
      LabelPartsParse(labels, front, attrs);
      var v := Get(attrs, last);
      if v.Some? {
        assert CleanLabel(last, LabelMap(names, attrs)[last]);
        AddedPart(labels, LabelParts(front, attrs), last, v.value);
      } else {
        assert LabelParts(names, attrs) == LabelParts(front, attrs);
      }
    }
  }

  lemma NoParts(labels: Labels)
    ensures WithParts(labels, []) == labels
  {
  }

  lemma {:induction false} WithPartsConcat(labels: Labels, a: seq<string>, b: seq<string>)
    ensures WithParts(labels, a + b) == WithParts(WithParts(labels, a), b)
  {
    if b == [] {
      assert a + b == a;
    } else {
      WithPartsConcat(labels, a, b[..|b| - 1]);
      assert (a + b)[..|a + b| - 1] == a + b[..|b| - 1];
    }
  }

  function HeadParts(d: Dimensions): seq<string> {
    (if d.metric.Some? then ["__name" + "=" + d.metric.value] else [])
    + (if d.metricType.Some? then ["__type" + "=" + d.metricType.value] else [])
  }

  function HeadLabels(d: Dimensions): Labels {
    var base := map["source" := "telemetrystatsprocessor:0.0.1", "grouping" := d.grouping];
    var named := if d.metric.Some? then base["metric_name" := d.metric.value] else base;
    if d.metricType.Some? then named["metric_type" := d.metricType.value] else named
  }

  lemma HeadParse(d: Dimensions)
    ensures WithParts(map["source" := SOURCE, "grouping" := d.grouping], HeadParts(d)) == HeadLabels(d)
  {
    hide WithParts;
    var base := map["source" := SOURCE, "grouping" := d.grouping];
    NoParts(base);
    var a: seq<string> := if d.metric.Some? then ["__name" + "=" + d.metric.value] else [];
    if d.metric.Some? {
      AddedPart(base, [], "__name", d.metric.value);
      assert [] + ["__name" + "=" + d.metric.value] == a;
    }
    if d.metricType.Some? {
      AddedPart(base, a, "__type", d.metricType.value);
    } else {
      assert HeadParts(d) == a;
    }
  }

  lemma CleanKeyParses(g: GroupBy, metric: string, t: MetricType, attrs: Attributes)
    requires Clean(DimensionsOf(g, metric, t, attrs))
    ensures var d := DimensionsOf(g, metric, t, attrs);
      KeyLabels(MetricKey(g, metric, t, attrs)) == HeadLabels(d) + d.labels
  {
    var d := DimensionsOf(g, metric, t, attrs);
    var parts := KeyParts(g, metric, t, attrs);
    CleanPartsAreUnbroken(g, metric, t, attrs);
    hide WithParts, LabelParts, LabelMap, Split, Join, HeadLabels, TypeName;
    var tail := LabelParts(g.labels, attrs);
    SplitJoin(parts, ':');
    assert parts[0] == d.grouping && parts[1..] == HeadParts(d) + tail;
    HeadParse(d);
    WithPartsConcat(map["source" := SOURCE, "grouping" := d.grouping], HeadParts(d), tail);
    LabelPartsParse(HeadLabels(d), g.labels, attrs);
  }

  lemma CleanPartsAreUnbroken(g: GroupBy, metric: string, t: MetricType, attrs: Attributes)
    requires Clean(DimensionsOf(g, metric, t, attrs))
    ensures var parts := KeyParts(g, metric, t, attrs);
      forall i :: 0 <= i < |parts| ==> ':' !in parts[i]
  {
    LabelPartsAreUnbroken(g.labels, attrs);
    hide LabelParts, LabelMap, TypeName;
    assert ':' !in "__name" && ':' !in "__type" && ':' !in "=";
  }

  /**
   * Reading a generated key gives back exactly the grouping, the metric name, the type and the labels it was printed
   * from, if and only if none of them contains a separator and no label bears a name the format uses itself.
   */
  lemma KeyRoundTripExactlyWhen(g: GroupBy, metric: string, t: MetricType, attrs: Attributes)
    ensures Recovered(KeyLabels(MetricKey(g, metric, t, attrs))) == Some(DimensionsOf(g, metric, t, attrs))
       <==> Clean(DimensionsOf(g, metric, t, attrs))
  {
    var d := DimensionsOf(g, metric, t, attrs);
    var labels := KeyLabels(MetricKey(g, metric, t, attrs));
    if Clean(d) {
      CleanKeyParses(g, metric, t, attrs);
      CleanIsRecovered(d);
    } else {
      var parts := Split(MetricKey(g, metric, t, attrs), ':');
      PartsParse(map["source" := SOURCE, "grouping" := parts[0]], parts[1..]);
      assert Parsed(labels);
      if Recovered(labels) == Some(d) {
        RecoveredIsClean(labels);
      }
    }
  }

  lemma CleanIsRecovered(d: Dimensions)
    requires Clean(d)
    ensures Recovered(HeadLabels(d) + d.labels) == Some(d)
  {
    var labels := HeadLabels(d) + d.labels;
    assert forall name :: name in d.labels ==> name !in OWN_LABELS;
    assert labels - OWN_LABELS == d.labels;
  }

  lemma RecoveredIsClean(labels: Labels)
    requires Parsed(labels) && Recovered(labels).Some?
    ensures Clean(Recovered(labels).value)
  {
  }

  /** Clean dimensions get keys of their own: equal keys mean equal dimensions. */
  lemma KeysAreInjective(g: GroupBy, metric: string, t: MetricType, attrs: Attributes,
                         g': GroupBy, metric': string, t': MetricType, attrs': Attributes)
    requires Clean(DimensionsOf(g, metric, t, attrs)) && Clean(DimensionsOf(g', metric', t', attrs'))
    requires MetricKey(g, metric, t, attrs) == MetricKey(g', metric', t', attrs')
    ensures DimensionsOf(g, metric, t, attrs) == DimensionsOf(g', metric', t', attrs')
  {
    KeyRoundTripExactlyWhen(g, metric, t, attrs);
    KeyRoundTripExactlyWhen(g', metric', t', attrs');
  }

  /** Without that, counters merge: a value with a colon can spell out another label. */
  lemma ColonsMerge(grouping: string, a: string, b: string, x: string, y: string, t: MetricType)
    requires a != b
    ensures var g := GroupBy(grouping, false, false, [a, b]);
      var one := Attributes(map[], map[], map[a := Str(x + ":" + b + "=" + y)]);
      var two := Attributes(map[], map[], map[a := Str(x), b := Str(y)]);
      && MetricKey(g, "", t, one) == MetricKey(g, "", t, two)
      && DimensionsOf(g, "", t, one) != DimensionsOf(g, "", t, two)
  {
    var one := Attributes(map[], map[], map[a := Str(x + ":" + b + "=" + y)]);
    var two := Attributes(map[], map[], map[a := Str(x), b := Str(y)]);
    assert [a, b][..1] == [a] && [a][..0] == [];
    assert LabelParts([a], one) == [a + "=" + (x + ":" + b + "=" + y)] == LabelParts([a, b], one);
    assert LabelParts([a], two) == [a + "=" + x];
    assert LabelParts([a, b], two) == [a + "=" + x, b + "=" + y];
    var p, q := a + "=" + x, b + "=" + y;
    assert a + "=" + (x + ":" + b + "=" + y) == p + ":" + q;
    assert Join([p + ":" + q], ":") == Join([p, q], ":");
    LabelMapValues([a, b], one);
    LabelMapValues([a, b], two);
    assert b !in LabelMap([a, b], one) && b in LabelMap([a, b], two);
  }

  // ---------------------------------------------------------------- which value a label takes

  /** `v` is the text of the attribute at the most specific level that has it: datapoint, then scope, then resource. */
  predicate IsTextOf(a: Attributes, name: string, v: string) {
    || (name in a.datapoint && a.datapoint[name] == Str(v))
    || (name !in a.datapoint && name in a.scope && a.scope[name] == Str(v))
    || (name !in a.datapoint && name !in a.scope && name in a.resource && a.resource[name] == Str(v))
  }

  /** The dimensions are those asked for: each label that has a text at its most specific level, with that text. */
  lemma DimensionsAreThoseAskedFor(
      g: GroupBy, metric: string, t: MetricType, attrs: Attributes, name: string, v: string)
    ensures var d := DimensionsOf(g, metric, t, attrs);
      && d.grouping == g.grouping
      && (d.metric.Some? <==> g.metricName) && (g.metricName ==> d.metric.value == metric)
      && (d.metricType.Some? <==> g.metricType)
      && (g.metricType ==>
            d.metricType.value ==
              match t
              case Gauge => "Gauge" case Sum => "Counter" case Histogram => "Histogram" case Summary => "Summary"
              case Unsupported => "Unknown")
      && (name in d.labels && d.labels[name] == v <==> name in g.labels && IsTextOf(attrs, name, v))
  {
    LabelMapValues(g.labels, attrs);
  }

  /** The two differ at most where a more specific level hides the difference. */
  ghost predicate DifferOnlyWhereHidden(a: Attributes, b: Attributes) {
    && a.datapoint == b.datapoint
    && (forall name :: name !in a.datapoint ==> (name in a.scope <==> name in b.scope))
    && (forall name :: name !in a.datapoint && name in a.scope ==> a.scope[name] == b.scope[name])
    && (forall name :: name !in a.datapoint && name !in a.scope ==> (name in a.resource <==> name in b.resource))
    && (forall name :: name !in a.datapoint && name !in a.scope && name in a.resource ==>
          a.resource[name] == b.resource[name])
  }

  /** What a more specific level hides never changes a key. */
  lemma {:induction false} HiddenAttributesDoNotMatter(names: seq<string>, a: Attributes, b: Attributes)
    requires DifferOnlyWhereHidden(a, b)
    ensures LabelParts(names, a) == LabelParts(names, b)
  {
    if names != [] {
      HiddenAttributesDoNotMatter(names[..|names| - 1], a, b);
      assert GetValue(a, names[|names| - 1]) == GetValue(b, names[|names| - 1]);
    }
  }

  lemma HiddenAttributesKeepKeys(g: GroupBy, metric: string, t: MetricType, a: Attributes, b: Attributes)
    requires DifferOnlyWhereHidden(a, b)
    ensures MetricKey(g, metric, t, a) == MetricKey(g, metric, t, b)
  {
    HiddenAttributesDoNotMatter(g.labels, a, b);
  }
}
