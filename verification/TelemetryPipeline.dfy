/**
 * The telemetry stats processors at work: counting, scraping into a bounded channel, draining it, and the
 * self-counts all processors share, as one system of interleaved atomic steps.
 */
module TelemetryPipeline {
  import opened Text

  const CAPACITY: nat := 128
  const DATAPOINTS_TOTAL := "telemetry_stats_datapoints_total"
  const LOG_RECORDS_TOTAL := "telemetry_stats_log_records_total"

  /** A generated datapoint belongs to a counter key or reports a shared self-count. */
  datatype Source = Counter(key: string) | SelfCount(name: string)
  datatype Datapoint = Datapoint(source: Source, value: nat)

  /** Where a scrape is: not running, snapshot taken, sending it, about to report self-counts, sending those. */
  datatype Scrape =
    | Idle | Snapshot(points: seq<Datapoint>) | Sending(points: seq<Datapoint>)
    | Reporting | SendingStats(points: seq<Datapoint>)

  /**
   * `includeStats` makes a processor self-reporting; `exportsLogs` says that it also serves log counts. `sent` and
   * `drained` are histories of the channel's two ends.
   */
  datatype Processor = Processor(
    includeStats: bool, exportsLogs: bool, stopped: bool, metricCounts: map<string, nat>, scrape: Scrape,
    channel: seq<Datapoint>, sent: seq<Datapoint>, drained: seq<Datapoint>)

  /**
   * All processors and the shared state. `served` is the history of what the log exporter served of the self-counts;
   * `reports` lists the reported values of the datapoint total.
   */
  datatype System = System(
    processors: seq<Processor>, stats: map<string, nat>, reporter: Option<nat>, served: seq<Datapoint>,
    reports: seq<nat>)

  function Fresh(includeStats: bool, exportsLogs: bool): Processor {
    Processor(includeStats, exportsLogs, false, map[], Idle, [], [], [])
  }

  predicate IsFresh(q: Processor) {
    q == Fresh(q.includeStats, q.exportsLogs)
  }

  predicate IsInit(s: System) {
    && (forall i :: 0 <= i < |s.processors| ==> IsFresh(s.processors[i]))
    && s.stats == map[] && s.reporter == None && s.served == [] && s.reports == []
  }

  /** The atomic steps of processor `p`, and two that belong to the shared log exporter. */
  datatype Action =
    | Count(p: nat, key: string)
    | TakeSnapshot(p: nat, order: seq<string>)      // under the read lock, in map iteration order
    | AddToStats(p: nat)
    | Send(p: nat)                                  // blocks while the channel is full
    | AskWhetherToReport(p: nat)
    | GetStats(p: nat, order: seq<string>)
    | Drain(p: nat)
    | Stop(p: nat)                                  // cleanup, which waits for a running scrape
    | ScrapeLogs(records: nat)
    | ServeStats(order: seq<string>)

  function At(m: map<string, nat>, k: string): nat {
    if k in m then m[k] else 0
  }

  /** `order` lists every key of `m` once. */
  predicate Enumerates(order: seq<string>, m: map<string, nat>) {
    && (forall i, j :: 0 <= i < j < |order| ==> order[i] != order[j])
    && (forall k :: k in order ==> k in m)
    && (forall k :: k in m ==> k in order)
  }

  function CounterPoints(order: seq<string>, m: map<string, nat>): seq<Datapoint> {
    seq(|order|, i requires 0 <= i < |order| => Datapoint(Counter(order[i]), At(m, order[i])))
  }

  function StatPoints(order: seq<string>, m: map<string, nat>): seq<Datapoint> {
    seq(|order|, i requires 0 <= i < |order| => Datapoint(SelfCount(order[i]), At(m, order[i])))
  }

  /** `getTelemetryStatCounts`: the report counts its own datapoints before it is read. */
  function CountedStats(stats: map<string, nat>): map<string, nat> {
    var present := if DATAPOINTS_TOTAL in stats then stats else stats[DATAPOINTS_TOTAL := 0];
    present[DATAPOINTS_TOTAL := present[DATAPOINTS_TOTAL] + |present|]
  }

  function WithProcessor(s: System, p: nat, q: Processor): System
    requires p < |s.processors|
  {
    s.(processors := s.processors[p := q])
  }

  function Reported(s: System): System {
    var stats := CountedStats(s.stats);
    s.(stats := stats, reports := s.reports + [stats[DATAPOINTS_TOTAL]])
  }

  function AfterSend(q: Processor): Processor {
    match q.scrape
    case Sending(points) =>
      if points == [] || |q.channel| >= CAPACITY then q
      else q.(channel := q.channel + [points[0]], sent := q.sent + [points[0]], scrape := Sending(points[1..]))
    case SendingStats(points) =>
      if points == [] then q.(scrape := Idle)
      else if |q.channel| >= CAPACITY then q
      else q.(channel := q.channel + [points[0]], sent := q.sent + [points[0]], scrape := SendingStats(points[1..]))
    case _ => q
  }

  /** A step of one processor; one that is not enabled changes nothing. */
  function ProcessorStep(s: System, a: Action, p: nat): System
    requires p < |s.processors|
  {
    var q := s.processors[p];
    match a
    case Count(_, key) => WithProcessor(s, p, q.(metricCounts := q.metricCounts[key := At(q.metricCounts, key) + 1]))
    case TakeSnapshot(_, order) =>
      if q.scrape != Idle || q.stopped || !Enumerates(order, q.metricCounts) then s
      else
        var points := CounterPoints(order, q.metricCounts);
        WithProcessor(s, p, q.(scrape := if q.includeStats then Snapshot(points) else Sending(points)))
    case AddToStats(_) =>
      if !q.scrape.Snapshot? then s
      else
        var n := |q.scrape.points|;
        WithProcessor(s, p, q.(scrape := Sending(q.scrape.points)))
          .(stats := s.stats[DATAPOINTS_TOTAL := At(s.stats, DATAPOINTS_TOTAL) + n])
    case Send(_) => WithProcessor(s, p, AfterSend(q))
    case AskWhetherToReport(_) =>
      if q.scrape != Sending([]) then s
      else if !q.includeStats then WithProcessor(s, p, q.(scrape := Idle))
      else
        var reporter := if s.reporter.None? then Some(p) else s.reporter;
        WithProcessor(s, p, q.(scrape := if reporter == Some(p) then Reporting else Idle)).(reporter := reporter)
    case GetStats(_, order) =>
      if q.scrape != Reporting || !Enumerates(order, CountedStats(s.stats)) then s
      else
        var s' := Reported(s);
        WithProcessor(s', p, q.(scrape := SendingStats(StatPoints(order, s'.stats))))
    case Drain(_) =>
      if q.channel == [] then s
      else WithProcessor(s, p, q.(channel := q.channel[1..], drained := q.drained + [q.channel[0]]))
    case Stop(_) =>
      if q.scrape != Idle || q.stopped then s
      else
        WithProcessor(s, p, q.(stopped := true))
          .(reporter := if s.reporter == Some(p) && !q.exportsLogs then None else s.reporter)
    case _ => s
  }

  function Step(s: System, a: Action): System {
    match a
    case ScrapeLogs(records) => s.(stats := s.stats[LOG_RECORDS_TOTAL := At(s.stats, LOG_RECORDS_TOTAL) + records])
    case ServeStats(order) =>
      if !Enumerates(order, CountedStats(s.stats)) then s
      else
        var s' := Reported(s);
        s'.(served := s.served + StatPoints(order, s'.stats))
    case _ => if a.p < |s.processors| then ProcessorStep(s, a, a.p) else s
  }

  function Exec(s: System, actions: seq<Action>): System {
    if actions == [] then s else Step(Exec(s, actions[..|actions| - 1]), actions[|actions| - 1])
  }

  // ---------------------------------------------------------------- the channel and its values

  function Pending(q: Processor): seq<Datapoint> {
    match q.scrape
    case Snapshot(points) => points
    case Sending(points) => points
    case SendingStats(points) => points
    case _ => []
  }

  /** What is or will be in the channel's output, in order. */
  function Stream(q: Processor): seq<Datapoint> {
    q.sent + Pending(q)
  }

  function Current(q: Processor, stats: map<string, nat>, source: Source): nat {
    match source
    case Counter(key) => At(q.metricCounts, key)
    case SelfCount(name) => At(stats, name)
  }

  predicate Ascending(points: seq<Datapoint>) {
    forall i, j :: 0 <= i < j < |points| && points[i].source == points[j].source ==> points[i].value <= points[j].value
  }

  predicate Bounded(points: seq<Datapoint>, q: Processor, stats: map<string, nat>) {
    forall i :: 0 <= i < |points| ==> points[i].value <= Current(q, stats, points[i].source)
  }

  predicate ProcessorInv(q: Processor, stats: map<string, nat>) {
    && q.sent == q.drained + q.channel
    && |q.channel| <= CAPACITY
    && Ascending(Stream(q))
    && Bounded(Stream(q), q, stats)
  }

  /** Counters and self-counts only grow. */
  ghost predicate Grows(m: map<string, nat>, m': map<string, nat>) {
    forall k :: At(m, k) <= At(m', k)
  }

  lemma InvSurvivesGrowth(q: Processor, q': Processor, stats: map<string, nat>, stats': map<string, nat>)
    requires ProcessorInv(q, stats)
    requires q' == q.(metricCounts := q'.metricCounts)
    requires Grows(q.metricCounts, q'.metricCounts) && Grows(stats, stats')
    ensures ProcessorInv(q', stats')
  {
    assert Stream(q') == Stream(q);
    forall i | 0 <= i < |Stream(q')|
      ensures Stream(q')[i].value <= Current(q', stats', Stream(q')[i].source)
    {
      assert Stream(q)[i].value <= Current(q, stats, Stream(q)[i].source);
    }
  }

  /** A new snapshot continues the stream: its values are current, and everything before is bounded by them. */
  lemma SnapshotContinues(q: Processor, stats: map<string, nat>, q': Processor, points: seq<Datapoint>)
    requires ProcessorInv(q, stats) && Pending(q) == []
    requires q' == q.(scrape := q'.scrape) && Pending(q') == points
    requires forall i :: 0 <= i < |points| ==> points[i].value == Current(q, stats, points[i].source)
    ensures ProcessorInv(q', stats)
  {
    var n := |q.sent|;
    assert Stream(q) == q.sent && Stream(q') == q.sent + points;
    forall i, j | 0 <= i < j < |Stream(q')| && Stream(q')[i].source == Stream(q')[j].source
      ensures Stream(q')[i].value <= Stream(q')[j].value
    {
      if j < n {
        assert Stream(q)[i].value <= Stream(q)[j].value;
      } else {
        assert Stream(q')[j] == points[j - n];
        if i < n {
          assert Stream(q)[i].value <= Current(q, stats, Stream(q)[i].source);
        } else {
          assert Stream(q')[i] == points[i - n];
        }
      }
    }
    forall i | 0 <= i < |Stream(q')|
      ensures Stream(q')[i].value <= Current(q', stats, Stream(q')[i].source)
    {
      assert i < n ==> Stream(q)[i].value <= Current(q, stats, Stream(q)[i].source);
      assert i >= n ==> Stream(q')[i] == points[i - n];
    }
  }

  lemma SendKeepsStream(q: Processor)
    ensures var q' := AfterSend(q);
      Stream(q') == Stream(q) && q'.scrape.Snapshot? == q.scrape.Snapshot? && (q.scrape.Snapshot? ==> q' == q)
  {
    var q' := AfterSend(q);
    var points := Pending(q);
    if (q.scrape.Sending? || q.scrape.SendingStats?) && points != [] {
      assert q.sent + [points[0]] + points[1..] == q.sent + points;
    }
  }

  lemma SendKeepsInv(q: Processor, stats: map<string, nat>)
    requires ProcessorInv(q, stats)
    ensures ProcessorInv(AfterSend(q), stats)
  {
    SendKeepsStream(q);
    hide Stream, Ascending, Bounded;
    SameStream(q, AfterSend(q), stats);
  }

  lemma SameStream(q: Processor, q': Processor, stats: map<string, nat>)
    requires Bounded(Stream(q), q, stats) && Stream(q') == Stream(q) && q'.metricCounts == q.metricCounts
    ensures Bounded(Stream(q'), q', stats)
  {
    forall i | 0 <= i < |Stream(q')|
      ensures Stream(q')[i].value <= Current(q', stats, Stream(q')[i].source)
    {
      assert Stream(q)[i].value <= Current(q, stats, Stream(q)[i].source);
    }
  }

  lemma DrainKeepsInv(q: Processor, stats: map<string, nat>)
    requires ProcessorInv(q, stats) && q.channel != []
    ensures ProcessorInv(q.(channel := q.channel[1..], drained := q.drained + [q.channel[0]]), stats)
  {
    var q' := q.(channel := q.channel[1..], drained := q.drained + [q.channel[0]]);
    assert q'.drained + q'.channel == q.drained + q.channel;
    assert Stream(q') == Stream(q);
    SameStream(q, q', stats);
  }

  lemma StopKeepsInv(q: Processor, stats: map<string, nat>)
    requires ProcessorInv(q, stats)
    ensures ProcessorInv(q.(stopped := true), stats)
  {
    var q' := q.(stopped := true);
    assert Stream(q') == Stream(q);
    SameStream(q, q', stats);
  }

  lemma CountedStatsGrow(stats: map<string, nat>)
    ensures Grows(stats, CountedStats(stats))
    ensures At(CountedStats(stats), DATAPOINTS_TOTAL) == At(stats, DATAPOINTS_TOTAL) + |CountedStats(stats)|
  {
    var present := if DATAPOINTS_TOTAL in stats then stats else stats[DATAPOINTS_TOTAL := 0];
    assert CountedStats(stats).Keys == present.Keys;
  }

  // ---------------------------------------------------------------- the system

  predicate Flow(s: System) {
    && (forall i :: 0 <= i < |s.processors| ==> ProcessorInv(s.processors[i], s.stats))
    && (forall i, j :: 0 <= i < j < |s.reports| ==> s.reports[i] <= s.reports[j])
    && (forall i :: 0 <= i < |s.reports| ==> s.reports[i] <= At(s.stats, DATAPOINTS_TOTAL))
  }

  /** Growth of the shared self-counts keeps every processor's invariant. */
  lemma StatsGrowthKeepsProcessors(s: System, stats: map<string, nat>)
    requires Flow(s) && Grows(s.stats, stats)
    ensures forall i :: 0 <= i < |s.processors| ==> ProcessorInv(s.processors[i], stats)
  {
    forall i | 0 <= i < |s.processors|
      ensures ProcessorInv(s.processors[i], stats)
    {
      InvSurvivesGrowth(s.processors[i], s.processors[i], s.stats, stats);
    }
  }

  lemma ReportKeepsFlow(s: System)
    requires Flow(s)
    ensures Flow(Reported(s)) && Reported(s).stats == CountedStats(s.stats)
  {
    hide CountedStats, ProcessorInv, Grows;
    CountedStatsGrow(s.stats);
    StatsGrowthKeepsProcessors(s, CountedStats(s.stats));
    TotalIsPresent(s.stats);
  }

  lemma TotalIsPresent(stats: map<string, nat>)
    ensures DATAPOINTS_TOTAL in CountedStats(stats)
  {
  }

  lemma ProcessorStepKeepsFlow(s: System, a: Action, p: nat)
    requires Flow(s) && p < |s.processors|
    ensures Flow(ProcessorStep(s, a, p))
  {
    hide ProcessorInv, CountedStats, Reported, AfterSend;
    var q := s.processors[p];
    match a {
      case Count(_, key) =>
        InvSurvivesGrowth(q, q.(metricCounts := q.metricCounts[key := At(q.metricCounts, key) + 1]), s.stats, s.stats);
      case TakeSnapshot(_, order) =>
        if q.scrape == Idle && !q.stopped && Enumerates(order, q.metricCounts) {
          var points := CounterPoints(order, q.metricCounts);
          SnapshotContinues(q, s.stats, q.(scrape := if q.includeStats then Snapshot(points) else Sending(points)),
            points);
        }
      case AddToStats(_) =>
        if q.scrape.Snapshot? {
          var stats := s.stats[DATAPOINTS_TOTAL := At(s.stats, DATAPOINTS_TOTAL) + |q.scrape.points|];
          StatsGrowthKeepsProcessors(s, stats);
          SameScrape(q, stats, Sending(q.scrape.points));
        }
      case Send(_) => SendKeepsInv(q, s.stats);
      case AskWhetherToReport(_) =>
        if q.scrape == Sending([]) {
          SameScrape(q, s.stats, Idle);
          SameScrape(q, s.stats, Reporting);
        }
      case GetStats(_, order) =>
        if q.scrape == Reporting && Enumerates(order, CountedStats(s.stats)) {
          ReportKeepsFlow(s);
          KeepsProcessors(s);
          var s' := Reported(s);
          var points := StatPoints(order, s'.stats);
          SnapshotContinues(q, s'.stats, q.(scrape := SendingStats(points)), points);
        }
      case Drain(_) =>
        if q.channel != [] {
          DrainKeepsInv(q, s.stats);
        }
      case Stop(_) => StopKeepsInv(q, s.stats);
      case _ =>
    }
  }

  lemma KeepsProcessors(s: System)
    ensures Reported(s).processors == s.processors
  {
  }

  lemma SameScrape(q: Processor, stats: map<string, nat>, scrape: Scrape)
    requires ProcessorInv(q, stats) && Pending(q.(scrape := scrape)) == Pending(q)
    ensures ProcessorInv(q.(scrape := scrape), stats)
  {
    var q' := q.(scrape := scrape);
    assert Stream(q') == Stream(q);
    SameStream(q, q', stats);
  }

  lemma StepKeepsFlow(s: System, a: Action)
    requires Flow(s)
    ensures Flow(Step(s, a))
  {
    hide ProcessorInv, CountedStats, Reported, ProcessorStep;
    match a {
      case ScrapeLogs(records) =>
        OtherName();
        StatsGrowthKeepsProcessors(s, s.stats[LOG_RECORDS_TOTAL := At(s.stats, LOG_RECORDS_TOTAL) + records]);
      case ServeStats(order) => ReportKeepsFlow(s);
      case _ =>
        if a.p < |s.processors| {
          ProcessorStepKeepsFlow(s, a, a.p);
        }
    }
  }

  lemma OtherName()
    ensures LOG_RECORDS_TOTAL != DATAPOINTS_TOTAL
  {
    assert LOG_RECORDS_TOTAL[16] != DATAPOINTS_TOTAL[16];
  }

  // ---------------------------------------------------------------- what the datapoint total counts

  function NumSelfCounts(points: seq<Datapoint>): (n: nat)
    ensures n <= |points|
  {
    if points == [] then 0
    else NumSelfCounts(points[..|points| - 1]) + if points[|points| - 1].source.SelfCount? then 1 else 0
  }

  function NumCounters(points: seq<Datapoint>): nat {
    |points| - NumSelfCounts(points)
  }

  /** The datapoints of a processor that a scrape has added to the shared total: all but a fresh snapshot. */
  function Announced(q: Processor): seq<Datapoint> {
    if q.scrape.Snapshot? then q.sent else Stream(q)
  }

  /** The counter datapoints of all self-reporting processors, sent or waiting to be. */
  function Generated(processors: seq<Processor>): nat {
    if processors == [] then 0
    else
      var last := processors[|processors| - 1];
      Generated(processors[..|processors| - 1]) + if last.includeStats then NumCounters(Announced(last)) else 0
  }

  /** The self-count datapoints of all processors, sent or waiting to be. */
  function Returned(processors: seq<Processor>): nat {
    if processors == [] then 0
    else Returned(processors[..|processors| - 1]) + NumSelfCounts(Stream(processors[|processors| - 1]))
  }

  function Published(s: System): nat {
    Generated(s.processors) + Returned(s.processors) + |s.served|
  }

  predicate Shaped(q: Processor) {
    q.scrape.Snapshot? ==> q.includeStats && NumSelfCounts(q.scrape.points) == 0
  }

  predicate Conserved(s: System) {
    && (forall i :: 0 <= i < |s.processors| ==> Shaped(s.processors[i]))
    && At(s.stats, DATAPOINTS_TOTAL) == Published(s)
  }

  lemma {:induction false} SelfCountsConcat(a: seq<Datapoint>, b: seq<Datapoint>)
    ensures NumSelfCounts(a + b) == NumSelfCounts(a) + NumSelfCounts(b)
  {
    if b == [] {
      assert a + b == a;
    } else {
      SelfCountsConcat(a, b[..|b| - 1]);
      assert (a + b)[..|a + b| - 1] == a + b[..|b| - 1];
    }
  }

  lemma {:induction false} AllOrNone(points: seq<Datapoint>, self: bool)
    requires forall i :: 0 <= i < |points| ==> points[i].source.SelfCount? == self
    ensures NumSelfCounts(points) == if self then |points| else 0
  {
    if points != [] {
      AllOrNone(points[..|points| - 1], self);
    }
  }

  /** Changing one processor changes the sums by the difference it makes. */
  lemma {:induction false} SumsChange(processors: seq<Processor>, p: nat, q: Processor)
    requires p < |processors| && q.includeStats == processors[p].includeStats
    ensures var changed, before := processors[p := q], processors[p];
      && Returned(changed) + NumSelfCounts(Stream(before)) == Returned(processors) + NumSelfCounts(Stream(q))
      && (if q.includeStats
          then Generated(changed) + NumCounters(Announced(before)) == Generated(processors) + NumCounters(Announced(q))
          else Generated(changed) == Generated(processors))
  {
    hide NumCounters, NumSelfCounts, Announced, Stream;
    var n := |processors| - 1;
    if p < n {
      SumsChange(processors[..n], p, q);
      assert processors[p := q][..n] == processors[..n][p := q];
    } else {
      assert processors[p := q][..n] == processors[..n];
    }
  }

  /** A step of one processor that adds `counters` announced counters and `selfCounts` self-counts to it. */
  lemma ProcessorChange(s: System, s': System, p: nat, q: Processor, counters: nat, selfCounts: nat)
    requires Conserved(s) && p < |s.processors| && Shaped(q) && q.includeStats == s.processors[p].includeStats
    requires s'.processors == s.processors[p := q] && s'.served == s.served
    requires NumSelfCounts(Stream(q)) == NumSelfCounts(Stream(s.processors[p])) + selfCounts
    requires q.includeStats ==> NumCounters(Announced(q)) == NumCounters(Announced(s.processors[p])) + counters
    requires !q.includeStats ==> counters == 0
    requires At(s'.stats, DATAPOINTS_TOTAL) == At(s.stats, DATAPOINTS_TOTAL) + counters + selfCounts
    ensures Conserved(s')
  {
    hide NumCounters, NumSelfCounts, Announced, Stream, Generated, Returned, Shaped;
    SumsChange(s.processors, p, q);
  }

  /** The size of a report is the number of self-counts. */
  lemma {:induction false} DistinctSize(order: seq<string>)
    requires forall i, j :: 0 <= i < j < |order| ==> order[i] != order[j]
    ensures |set k | k in order| == |order|
  {
    if order != [] {
      var front, last := order[..|order| - 1], order[|order| - 1];
      DistinctSize(front);
      assert order == front + [last];
      assert (set k | k in order) == (set k | k in front) + {last};
      assert last !in front;
    }
  }

  lemma ReportSize(order: seq<string>, m: map<string, nat>)
    requires Enumerates(order, m)
    ensures |order| == |m|
  {
    DistinctSize(order);
    assert (set k | k in order) == m.Keys;
  }

  lemma SnapshotConserves(s: System, a: Action, p: nat)
    requires Conserved(s) && p < |s.processors| && a.TakeSnapshot?
    ensures Conserved(ProcessorStep(s, a, p))
  {
    var order := a.order;
    var q := s.processors[p];
    if q.scrape == Idle && !q.stopped && Enumerates(order, q.metricCounts) {
      hide Enumerates;
      var points := CounterPoints(order, q.metricCounts);
      var q' := q.(scrape := if q.includeStats then Snapshot(points) else Sending(points));
      AllOrNone(points, false);
      SelfCountsConcat(q.sent, points);
      assert Stream(q) == q.sent && Stream(q') == q.sent + points;
      ProcessorChange(s, WithProcessor(s, p, q'), p, q', 0, 0);
    }
  }

  lemma AddConserves(s: System, a: Action, p: nat)
    requires Conserved(s) && p < |s.processors| && a.AddToStats?
    ensures Conserved(ProcessorStep(s, a, p))
  {
    var q := s.processors[p];
    if q.scrape.Snapshot? {
      var points := q.scrape.points;
      var q' := q.(scrape := Sending(points));
      SelfCountsConcat(q.sent, points);
      assert Shaped(q);
      assert Stream(q') == q.sent + points && Stream(q) == Stream(q');
      ProcessorChange(s, ProcessorStep(s, a, p), p, q', |points|, 0);
    }
  }

  lemma SendConserves(s: System, a: Action, p: nat)
    requires Conserved(s) && p < |s.processors| && a.Send?
    ensures Conserved(ProcessorStep(s, a, p))
  {
    var q := s.processors[p];
    var q' := AfterSend(q);
    SendKeepsStream(q);
    hide Stream, AfterSend, NumSelfCounts;
    ProcessorChange(s, WithProcessor(s, p, q'), p, q', 0, 0);
  }

  lemma AskConserves(s: System, a: Action, p: nat)
    requires Conserved(s) && p < |s.processors| && a.AskWhetherToReport?
    ensures Conserved(ProcessorStep(s, a, p))
  {
    var q := s.processors[p];
    if q.scrape == Sending([]) {
      var s' := ProcessorStep(s, a, p);
      var q' := s'.processors[p];
      assert Stream(q') == Stream(q);
      ProcessorChange(s, s', p, q', 0, 0);
    }
  }

  lemma ReportConserves(s: System, a: Action, p: nat)
    requires Conserved(s) && p < |s.processors| && a.GetStats?
    ensures Conserved(ProcessorStep(s, a, p))
  {
    hide CountedStats, Conserved, Enumerates, Grows, StatPoints, Shaped;
    var q := s.processors[p];
    if q.scrape == Reporting && Enumerates(a.order, CountedStats(s.stats)) {
      ReportSize(a.order, CountedStats(s.stats));
      CountedStatsGrow(s.stats);
      var points := StatPoints(a.order, CountedStats(s.stats));
      ReportAdds(q, a.order, CountedStats(s.stats));
      ProcessorChange(s, ProcessorStep(s, a, p), p, q.(scrape := SendingStats(points)), 0, |points|);
    }
  }

  lemma ReportAdds(q: Processor, order: seq<string>, stats: map<string, nat>)
    requires q.scrape == Reporting
    ensures var points := StatPoints(order, stats);
      var q' := q.(scrape := SendingStats(points));
      && |points| == |order| && Shaped(q')
      && NumSelfCounts(Stream(q')) == NumSelfCounts(Stream(q)) + |points|
      && NumCounters(Announced(q')) == NumCounters(Announced(q))
  {
    hide NumSelfCounts;
    var points := StatPoints(order, stats);
    AllOrNone(points, true);
    SelfCountsConcat(q.sent, points);
    assert Stream(q) == q.sent && Stream(q.(scrape := SendingStats(points))) == q.sent + points;
  }

  lemma ServeConserves(s: System, order: seq<string>)
    requires Conserved(s)
    ensures Conserved(Step(s, ServeStats(order)))
  {
    hide CountedStats;
    if Enumerates(order, CountedStats(s.stats)) {
      ReportSize(order, CountedStats(s.stats));
      CountedStatsGrow(s.stats);
      TotalIsPresent(s.stats);
    }
  }

  lemma OthersConserve(s: System, a: Action, p: nat)
    requires Conserved(s) && p < |s.processors|
    requires !(a.TakeSnapshot? || a.AddToStats? || a.Send? || a.AskWhetherToReport? || a.GetStats?)
    ensures Conserved(ProcessorStep(s, a, p))
  {
    var s' := ProcessorStep(s, a, p);
    var q, q' := s.processors[p], s'.processors[p];
    assert Stream(q') == Stream(q);
    assert s'.processors == s.processors[p := q'];
    ProcessorChange(s, s', p, q', 0, 0);
  }

  lemma ProcessorStepConserves(s: System, a: Action, p: nat)
    requires Conserved(s) && p < |s.processors|
    ensures Conserved(ProcessorStep(s, a, p))
  {
    hide Conserved, ProcessorStep;
    match a {
      case TakeSnapshot(_, _) => SnapshotConserves(s, a, p);
      case AddToStats(_) => AddConserves(s, a, p);
      case Send(_) => SendConserves(s, a, p);
      case AskWhetherToReport(_) => AskConserves(s, a, p);
      case GetStats(_, _) => ReportConserves(s, a, p);
      case _ => OthersConserve(s, a, p);
    }
  }

  lemma StepConserves(s: System, a: Action)
    requires Conserved(s)
    ensures Conserved(Step(s, a))
  {
    hide ProcessorStep, CountedStats;
    match a {
      case ScrapeLogs(records) => OtherName();
      case ServeStats(order) => ServeConserves(s, order);
      case _ =>
        if a.p < |s.processors| {
          ProcessorStepConserves(s, a, a.p);
        }
    }
  }

  predicate Inv(s: System) {
    Flow(s) && Conserved(s)
  }

  lemma StepKeepsInv(s: System, a: Action)
    requires Inv(s)
    ensures Inv(Step(s, a))
  {
    hide Flow, Conserved, Step;
    StepKeepsFlow(s, a);
    StepConserves(s, a);
  }

  lemma {:induction false} ReachableInv(s: System, actions: seq<Action>)
    requires IsInit(s)
    ensures Inv(Exec(s, actions))
  {
    if actions == [] {
      hide Exec;
      InitInv(s);
    } else {
      ReachableInv(s, actions[..|actions| - 1]);
      hide Step;
      StepKeepsInv(Exec(s, actions[..|actions| - 1]), actions[|actions| - 1]);
    }
  }

  lemma InitInv(s: System)
    requires IsInit(s)
    ensures Inv(s)
  {
    InitFlow(s);
    hide Flow, Generated, Returned, Stream;
    NothingPublished(s.processors);
  }

  lemma InitFlow(s: System)
    requires IsInit(s)
    ensures Flow(s)
  {
  }

  lemma {:induction false} NothingPublished(processors: seq<Processor>)
    requires forall i :: 0 <= i < |processors| ==> IsFresh(processors[i])
    ensures Generated(processors) == 0 && Returned(processors) == 0
  {
    if processors != [] {
      NothingPublished(processors[..|processors| - 1]);
      assert Stream(processors[|processors| - 1]) == [];
    }
  }

  // ---------------------------------------------------------------- theorems over every interleaving

  /**
   * In every interleaving, for every processor: what was drained is a prefix of what was sent, the channel never holds
   * more than its capacity, and the values drained for any one counter or self-count never decrease.
   */
  lemma DrainIsOrderedAndMonotone(init: System, actions: seq<Action>, p: nat)
    requires IsInit(init) && p < |Exec(init, actions).processors|
    ensures var q := Exec(init, actions).processors[p];
      && q.drained <= q.sent && |q.sent| - |q.drained| <= 128
      && Ascending(q.drained)
  {
    ReachableInv(init, actions);
    hide Exec;
    var q := Exec(init, actions).processors[p];
    assert ProcessorInv(q, Exec(init, actions).stats);
    forall i, j | 0 <= i < j < |q.drained| && q.drained[i].source == q.drained[j].source
      ensures q.drained[i].value <= q.drained[j].value
    {
      assert Stream(q)[i] == q.drained[i] && Stream(q)[j] == q.drained[j];
    }
  }

  /**
   * In every interleaving, the shared datapoint total is exactly the number of counter datapoints that self-reporting
   * processors have announced, plus the self-count datapoints of all processors, plus those served; and the totals
   * reported, by whichever processor, never decrease.
   */
  lemma SelfCountIsConserved(init: System, actions: seq<Action>)
    requires IsInit(init)
    ensures var s := Exec(init, actions);
      && At(s.stats, DATAPOINTS_TOTAL) == Generated(s.processors) + Returned(s.processors) + |s.served|
      && (forall i, j :: 0 <= i < j < |s.reports| ==> s.reports[i] <= s.reports[j])
  {
    ReachableInv(init, actions);
  }

  /**
   * A report counts itself: the total it shows is that of everything published, with every datapoint of that report.
   */
  lemma ReportIncludesItself(init: System, actions: seq<Action>, a: Action)
    requires IsInit(init)
    ensures var s := Exec(init, actions);
      var s' := Step(s, a);
      s'.reports == s.reports ||
        (s'.reports == s.reports + [Published(s')] && Published(s') == Published(s) + |CountedStats(s.stats)|)
  {
    hide Exec, Inv, Step, Published, CountedStats;
    var s := Exec(init, actions);
    ReachableInv(init, actions);
    StepKeepsInv(s, a);
    InvTotal(s);
    InvTotal(Step(s, a));
    StepReports(s, a);
  }

  lemma InvTotal(s: System)
    requires Inv(s)
    ensures At(s.stats, DATAPOINTS_TOTAL) == Published(s)
  {
  }

  lemma StepReports(s: System, a: Action)
    ensures var s' := Step(s, a);
      s'.reports == s.reports ||
        (&& s'.reports == s.reports + [At(s'.stats, DATAPOINTS_TOTAL)]
         && At(s'.stats, DATAPOINTS_TOTAL) == At(s.stats, DATAPOINTS_TOTAL) + |CountedStats(s.stats)|)
  {
    hide CountedStats, Enumerates, AfterSend;
    CountedStatsGrow(s.stats);
    TotalIsPresent(s.stats);
  }

  // ---------------------------------------------------------------- one reporter at a time

  predicate IsReporting(q: Processor) {
    q.scrape.Reporting? || q.scrape.SendingStats?
  }

  /** Only the reporter is about to report self-counts or sending them. */
  predicate OnlyReporterReports(s: System) {
    forall i :: 0 <= i < |s.processors| && IsReporting(s.processors[i]) ==> s.reporter == Some(i)
  }

  lemma StepKeepsOneReporter(s: System, a: Action)
    requires OnlyReporterReports(s)
    ensures OnlyReporterReports(Step(s, a))
  {
    hide CountedStats, Enumerates, CounterPoints, StatPoints;
  }

  /** In every interleaving at most one processor reports, and it is the elected one. */
  lemma {:induction false} OneReporterAtATime(init: System, actions: seq<Action>)
    requires IsInit(init)
    ensures OnlyReporterReports(Exec(init, actions))
  {
    if actions != [] {
      hide Step;
      OneReporterAtATime(init, actions[..|actions| - 1]);
      StepKeepsOneReporter(Exec(init, actions[..|actions| - 1]), actions[|actions| - 1]);
    }
  }

  /** A self-reporting processor has sent its counters and asks whether to report. */
  predicate Asks(s: System, a: Action, p: nat) {
    && a == AskWhetherToReport(p) && p < |s.processors|
    && s.processors[p].scrape == Sending([]) && s.processors[p].includeStats
  }

  /** The reporter stops, and is no log exporter. */
  predicate GivesUp(s: System, a: Action, p: nat) {
    && a == Stop(p) && p < |s.processors| && s.reporter == Some(p)
    && s.processors[p].scrape == Idle && !s.processors[p].stopped && !s.processors[p].exportsLogs
  }

  /** Exactly when a processor turns to reporting, and exactly how the reporter changes. */
  lemma ElectionExactlyWhen(s: System, a: Action, p: nat)
    requires p < |s.processors|
    ensures var s' := Step(s, a);
      && |s'.processors| == |s.processors|
      && (s'.processors[p].scrape.Reporting? <==>
            || (Asks(s, a, p) && (s.reporter == None || s.reporter == Some(p)))
            || (s.processors[p].scrape.Reporting?
                && !(a.GetStats? && a.p == p && Enumerates(a.order, CountedStats(s.stats)))))
      && (s.reporter == None ==> (s'.reporter == Some(p) <==> Asks(s, a, p)))
      && (s.reporter == Some(p) ==> s'.reporter == if GivesUp(s, a, p) then None else Some(p))
  {
    hide CountedStats, Enumerates, CounterPoints, StatPoints;
  }

  predicate HasStop(actions: seq<Action>) {
    exists i :: 0 <= i < |actions| && actions[i].Stop?
  }

  /** The self-counts that a processor has sent or is about to send. */
  function SelfCountsOf(s: System, i: nat): nat
    requires i < |s.processors|
  {
    NumSelfCounts(Stream(s.processors[i]))
  }

  /**
   * While no processor stops, one reporter at most sends self-counts: once elected it stays, and no other processor
   * sends any.
   */
  lemma {:induction false} OneReporterBetweenStops(s: System, actions: seq<Action>, i: nat)
    requires i < |s.processors| && OnlyReporterReports(s) && !HasStop(actions)
    ensures var s' := Exec(s, actions);
      && |s'.processors| == |s.processors| && OnlyReporterReports(s')
      && (s.reporter.Some? ==> s'.reporter == s.reporter)
      && (s'.reporter != Some(i) ==> SelfCountsOf(s', i) == SelfCountsOf(s, i))
    decreases |actions|
  {
    if actions != [] {
      hide Step, NumSelfCounts, Stream;
      var n := |actions| - 1;
      var t, a := Exec(s, actions[..n]), actions[n];
      assert forall j :: 0 <= j < n ==> actions[..n][j] == actions[j];
      OneReporterBetweenStops(s, actions[..n], i);
      StepKeepsOneReporter(t, a);
      NonReporterSendsNone(t, a, i);
    }
  }

  lemma NonReporterSendsNone(s: System, a: Action, i: nat)
    requires i < |s.processors| && OnlyReporterReports(s) && !a.Stop?
    ensures var s' := Step(s, a);
      && |s'.processors| == |s.processors|
      && (s.reporter.Some? ==> s'.reporter == s.reporter)
      && (s'.reporter != Some(i) ==> s.reporter != Some(i) && SelfCountsOf(s', i) == SelfCountsOf(s, i))
  {
    hide CountedStats, Enumerates, StatPoints, NumSelfCounts;
    var s' := Step(s, a);
    StreamStep(s, a, i);
    if Stream(s'.processors[i]) != Stream(s.processors[i]) && a.TakeSnapshot? {
      var points := CounterPoints(a.order, s.processors[i].metricCounts);
      AllOrNone(points, false);
      SelfCountsConcat(Stream(s.processors[i]), points);
    }
  }

  /** What one step adds to a processor's stream. */
  lemma StreamStep(s: System, a: Action, i: nat)
    requires i < |s.processors|
    ensures var s' := Step(s, a);
      && |s'.processors| == |s.processors|
      && var q, q' := s.processors[i], s'.processors[i];
         || Stream(q') == Stream(q)
         || (&& a.TakeSnapshot? && a.p == i && Enumerates(a.order, q.metricCounts)
             && Stream(q') == Stream(q) + CounterPoints(a.order, q.metricCounts))
         || (&& a.GetStats? && a.p == i && q.scrape.Reporting? && Enumerates(a.order, CountedStats(s.stats))
             && Stream(q') == Stream(q) + StatPoints(a.order, CountedStats(s.stats)))
  {
    hide CountedStats, Enumerates, CounterPoints, StatPoints;
    var q := s.processors[i];
    SendKeepsStream(q);
    if q.channel != [] {
      assert q.drained + [q.channel[0]] + q.channel[1..] == q.drained + q.channel;
    }
  }

  predicate HasStopped(s: System, p: nat) {
    p < |s.processors| && s.processors[p].stopped && s.processors[p].scrape == Idle
  }

  /** After its cleanup a processor generates nothing more, whatever happens. */
  lemma {:induction false} StoppedIsSilent(s: System, p: nat, actions: seq<Action>)
    requires p < |s.processors| && s.processors[p].scrape == Idle
    ensures var s' := Exec(Step(s, Stop(p)), actions);
      HasStopped(s', p) && Stream(s'.processors[p]) == Stream(s.processors[p])
  {
    hide Stream;
    if actions == [] {
      StreamStep(s, Stop(p), p);
    } else {
      var before := Exec(Step(s, Stop(p)), actions[..|actions| - 1]);
      StoppedIsSilent(s, p, actions[..|actions| - 1]);
      StoppedStep(before, actions[|actions| - 1], p);
    }
  }

  lemma StoppedStep(s: System, a: Action, p: nat)
    requires HasStopped(s, p)
    ensures HasStopped(Step(s, a), p) && Stream(Step(s, a).processors[p]) == Stream(s.processors[p])
  {
    hide CountedStats, Enumerates, CounterPoints, StatPoints;
  }

  /** The reporter has stopped without giving up its office. */
  predicate OfficeIsLost(s: System) {
    && s.reporter.Some? && s.reporter.value < |s.processors|
    && s.processors[s.reporter.value].stopped && s.processors[s.reporter.value].scrape == Idle
  }

  /** Once the office is lost, no processor ever reports self-counts again, whatever happens. */
  lemma {:induction false} LostOfficeIsForever(s: System, actions: seq<Action>, i: nat)
    requires i < |s.processors| && OnlyReporterReports(s) && OfficeIsLost(s)
    ensures var s' := Exec(s, actions);
      && |s'.processors| == |s.processors| && OfficeIsLost(s') && OnlyReporterReports(s') && s'.reporter == s.reporter
      && SelfCountsOf(s', i) == SelfCountsOf(s, i)
    decreases |actions|
  {
    if actions != [] {
      hide Step, NumSelfCounts, Stream;
      var n := |actions| - 1;
      var t, a := Exec(s, actions[..n]), actions[n];
      LostOfficeIsForever(s, actions[..n], i);
      StepKeepsOneReporter(t, a);
      LostOfficeStep(t, a, i);
    }
  }

  lemma LostOfficeStep(s: System, a: Action, i: nat)
    requires i < |s.processors| && OnlyReporterReports(s) && OfficeIsLost(s)
    ensures var s' := Step(s, a);
      && |s'.processors| == |s.processors| && OfficeIsLost(s') && s'.reporter == s.reporter
      && SelfCountsOf(s', i) == SelfCountsOf(s, i)
  {
    hide CountedStats, Enumerates, StatPoints, NumSelfCounts;
    var s' := Step(s, a);
    StreamStep(s, a, i);
    if Stream(s'.processors[i]) != Stream(s.processors[i]) && a.TakeSnapshot? {
      var points := CounterPoints(a.order, s.processors[i].metricCounts);
      AllOrNone(points, false);
      SelfCountsConcat(Stream(s.processors[i]), points);
    }
  }

  /** A stopped processor is idle, and holds the office only if it exports logs. */
  predicate StopsAreClean(s: System) {
    forall i :: 0 <= i < |s.processors| && s.processors[i].stopped ==>
      s.processors[i].scrape == Idle && (s.reporter == Some(i) ==> s.processors[i].exportsLogs)
  }

  /**
   * In every interleaving the office of reporter is lost exactly when its holder has stopped, and that holder exports
   * logs: the clean-up of such a processor does not release the office.
   */
  lemma {:induction false} OfficeIsLostExactlyWhen(init: System, actions: seq<Action>)
    requires IsInit(init)
    ensures var s := Exec(init, actions);
      && StopsAreClean(s)
      && (OfficeIsLost(s) <==>
            s.reporter.Some? && s.reporter.value < |s.processors| && s.processors[s.reporter.value].stopped)
  {
    if actions != [] {
      OfficeIsLostExactlyWhen(init, actions[..|actions| - 1]);
      StepKeepsClean(Exec(init, actions[..|actions| - 1]), actions[|actions| - 1]);
    }
  }

  lemma StepKeepsClean(s: System, a: Action)
    requires StopsAreClean(s)
    ensures StopsAreClean(Step(s, a))
  {
    hide CountedStats, Enumerates, CounterPoints, StatPoints;
  }

  // ---------------------------------------------------------------- what the values mean

  /** How often processor `p` counted `key` in a run. */
  function TimesCounted(actions: seq<Action>, p: nat, key: string): nat {
    if actions == [] then 0
    else TimesCounted(actions[..|actions| - 1], p, key) + if actions[|actions| - 1] == Count(p, key) then 1 else 0
  }

  function RecordsScraped(actions: seq<Action>): nat {
    if actions == [] then 0
    else
      var a := actions[|actions| - 1];
      RecordsScraped(actions[..|actions| - 1]) + if a.ScrapeLogs? then a.records else 0
  }

  /** In every interleaving a counter is the number of times its key was counted. */
  lemma {:induction false} CountersAreExact(init: System, actions: seq<Action>, p: nat, key: string)
    requires IsInit(init) && p < |init.processors|
    ensures var s := Exec(init, actions);
      |s.processors| == |init.processors| && At(s.processors[p].metricCounts, key) == TimesCounted(actions, p, key)
  {
    if actions != [] {
      CountersAreExact(init, actions[..|actions| - 1], p, key);
      CounterStep(Exec(init, actions[..|actions| - 1]), actions[|actions| - 1], p, key);
    }
  }

  lemma CounterStep(s: System, a: Action, p: nat, key: string)
    requires p < |s.processors|
    ensures var s' := Step(s, a);
      && |s'.processors| == |s.processors|
      && At(s'.processors[p].metricCounts, key)
           == At(s.processors[p].metricCounts, key) + if a == Count(p, key) then 1 else 0
  {
    hide CountedStats, Enumerates, CounterPoints, StatPoints;
  }

  /** In every interleaving the shared log total is the number of log datapoints scraped. */
  lemma {:induction false} LogTotalIsExact(init: System, actions: seq<Action>)
    requires IsInit(init)
    ensures At(Exec(init, actions).stats, LOG_RECORDS_TOTAL) == RecordsScraped(actions)
  {
    if actions != [] {
      LogTotalIsExact(init, actions[..|actions| - 1]);
      OtherName();
      LogStep(Exec(init, actions[..|actions| - 1]), actions[|actions| - 1]);
    }
  }

  lemma LogStep(s: System, a: Action)
    requires LOG_RECORDS_TOTAL != DATAPOINTS_TOTAL
    ensures At(Step(s, a).stats, LOG_RECORDS_TOTAL)
         == At(s.stats, LOG_RECORDS_TOTAL) + if a.ScrapeLogs? then a.records else 0
  {
    hide Enumerates, CounterPoints, StatPoints;
  }

  /** The value was current at some snapshot of processor `p`, or, for a self-count, at some report of it. */
  ghost predicate WasCurrent(init: System, actions: seq<Action>, p: nat, point: Datapoint) {
    exists n :: 0 <= n < |actions| && WasCurrentAt(init, actions, p, point, n)
  }

  ghost predicate WasCurrentAt(init: System, actions: seq<Action>, p: nat, point: Datapoint, n: nat)
    requires n < |actions|
  {
    match point.source
    case Counter(key) =>
      actions[n].TakeSnapshot? && actions[n].p == p && point.value == TimesCounted(actions[..n], p, key)
    case SelfCount(name) =>
      && actions[n].GetStats? && actions[n].p == p
      && point.value == At(Exec(init, actions[..n + 1]).stats, name)
  }

  /**
   * In every interleaving each counter datapoint in a channel's stream carries exactly how often its key had been
   * counted when some snapshot was taken, and each self-count datapoint the shared count right after some report.
   */
  lemma {:induction false} DatapointsAreExact(init: System, actions: seq<Action>, p: nat, i: nat)
    requires IsInit(init) && p < |init.processors|
    requires p < |Exec(init, actions).processors| && i < |Stream(Exec(init, actions).processors[p])|
    ensures WasCurrent(init, actions, p, Stream(Exec(init, actions).processors[p])[i])
    decreases |actions|
  {
    if actions != [] {
      hide Step, Stream, CountedStats, Enumerates;
      var n := |actions| - 1;
      var front, a := actions[..n], actions[n];
      var s := Exec(init, front);
      StreamStep(s, a, p);
      var point := Stream(Exec(init, actions).processors[p])[i];
      if i < |Stream(s.processors[p])| {
        DatapointsAreExact(init, front, p, i);
        StaysCurrent(init, actions, n, p, point);
      } else {
        assert actions[..n + 1] == actions;
        if a.TakeSnapshot? {
          CountersAreExact(init, front, p, point.source.key);
        } else {
          ReportChangesStats(s, a);
        }
        assert WasCurrentAt(init, actions, p, point, n);
      }
    }
  }

  lemma ReportChangesStats(s: System, a: Action)
    requires a.GetStats? && a.p < |s.processors| && s.processors[a.p].scrape.Reporting?
    requires Enumerates(a.order, CountedStats(s.stats))
    ensures Step(s, a).stats == CountedStats(s.stats)
  {
  }

  lemma StaysCurrent(init: System, actions: seq<Action>, n: nat, p: nat, point: Datapoint)
    requires n <= |actions| && WasCurrent(init, actions[..n], p, point)
    ensures WasCurrent(init, actions, p, point)
  {
    hide Exec, TimesCounted;
    var k :| 0 <= k < n && WasCurrentAt(init, actions[..n], p, point, k);
    assert actions[..n][..k] == actions[..k] && actions[..n][..k + 1] == actions[..k + 1];
    assert WasCurrentAt(init, actions, p, point, k);
  }

  // ---------------------------------------------------------------- nothing gets stuck

  /** Send and drain in turn, `n` times. */
  function InTurn(p: nat, n: nat): seq<Action> {
    if n == 0 then [] else InTurn(p, n - 1) + [Send(p)] + [Drain(p)]
  }

  function PendingAt(s: System, p: nat): seq<Datapoint>
    requires p < |s.processors|
  {
    Pending(s.processors[p])
  }

  /** A drained channel delivers the datapoints of a scrape in order, one at each turn. */
  lemma {:induction false} TurnsDeliver(s: System, p: nat, n: nat)
    requires p < |s.processors| && s.processors[p].channel == []
    requires s.processors[p].scrape.Sending? || s.processors[p].scrape.SendingStats?
    requires n <= |PendingAt(s, p)|
    ensures var s' := Exec(s, InTurn(p, n));
      && |s'.processors| == |s.processors|
      && var q, q' := s.processors[p], s'.processors[p];
         && q'.drained == q.drained + Pending(q)[..n] && q'.channel == [] && Pending(q') == Pending(q)[n..]
         && q'.scrape.Sending? == q.scrape.Sending? && q'.scrape.SendingStats? == q.scrape.SendingStats?
  {
    hide Step, Exec, Pending;
    if n == 0 {
      assert Exec(s, InTurn(p, 0)) == s by { NoActions(s); }
    } else {
      TurnsDeliver(s, p, n - 1);
      var t, q := Exec(s, InTurn(p, n - 1)), s.processors[p];
      OneTurn(t, p);
      OneMore(s, InTurn(p, n - 1), Send(p));
      OneMore(s, InTurn(p, n - 1) + [Send(p)], Drain(p));
      assert Pending(q)[n - 1..][0] == Pending(q)[n - 1] && Pending(q)[n - 1..][1..] == Pending(q)[n..];
      assert Pending(q)[..n] == Pending(q)[..n - 1] + [Pending(q)[n - 1]];
    }
  }

  lemma NoActions(s: System)
    ensures Exec(s, []) == s
  {
  }

  lemma OneMore(s: System, actions: seq<Action>, a: Action)
    ensures Exec(s, actions + [a]) == Step(Exec(s, actions), a)
  {
    hide Step;
    assert (actions + [a])[..|actions|] == actions;
  }

  lemma OneTurn(s: System, p: nat)
    requires p < |s.processors| && s.processors[p].channel == [] && PendingAt(s, p) != []
    requires s.processors[p].scrape.Sending? || s.processors[p].scrape.SendingStats?
    ensures var s' := Step(Step(s, Send(p)), Drain(p));
      && |s'.processors| == |s.processors|
      && var q, q' := s.processors[p], s'.processors[p];
         && q'.drained == q.drained + [Pending(q)[0]] && q'.channel == [] && Pending(q') == Pending(q)[1..]
         && q'.scrape.Sending? == q.scrape.Sending? && q'.scrape.SendingStats? == q.scrape.SendingStats?
  {
  }

  predicate CanScrape(q: Processor) {
    q.scrape == Idle && !q.stopped
  }

  /** A scrape takes up every key counted so far, once, and a report every self-count, once. */
  lemma ScrapesAreComplete(s: System, order: seq<string>, p: nat, name: string)
    requires p < |s.processors|
    ensures CanScrape(s.processors[p]) && Enumerates(order, s.processors[p].metricCounts) ==>
      var points := PendingAt(Step(s, TakeSnapshot(p, order)), p);
      && |points| == |s.processors[p].metricCounts|
      && (name in s.processors[p].metricCounts ==> exists i :: 0 <= i < |points| && points[i].source == Counter(name))
    ensures s.processors[p].scrape == Reporting && Enumerates(order, CountedStats(s.stats)) ==>
      var points := PendingAt(Step(s, GetStats(p, order)), p);
      && |points| == |CountedStats(s.stats)|
      && (name in CountedStats(s.stats) ==> exists i :: 0 <= i < |points| && points[i].source == SelfCount(name))
  {
    hide CountedStats;
    if CanScrape(s.processors[p]) && Enumerates(order, s.processors[p].metricCounts) {
      ReportSize(order, s.processors[p].metricCounts);
      var points := PendingAt(Step(s, TakeSnapshot(p, order)), p);
      if name in s.processors[p].metricCounts {
        var i :| 0 <= i < |order| && order[i] == name;
        assert points[i].source == Counter(name);
      }
    }
    if s.processors[p].scrape == Reporting && Enumerates(order, CountedStats(s.stats)) {
      ReportSize(order, CountedStats(s.stats));
      var points := PendingAt(Step(s, GetStats(p, order)), p);
      if name in CountedStats(s.stats) {
        var i :| 0 <= i < |order| && order[i] == name;
        assert points[i].source == SelfCount(name);
      }
    }
  }
}
