/** The main loop of the DPU agent: one iteration, and whole runs of iterations. */
module AgentLoop {
  import opened Text
  import opened ConfigFiles
  import opened ConfigVersions
  import Health
  import BgpHealth

  /** The parts of `ManagedHostNetworkConfigResponse` the loop decides by. */
  datatype Conf = Conf(
    managedHostConfigVersion: string, instanceNetworkConfigVersion: string, instanceId: Option<string>,
    hasBridging: bool, useAdminNetwork: bool, isPrimaryDpu: bool,
    tenantPeers: seq<string>, minFunctioningLinks: Option<nat>, routeServers: seq<string>)

  /** The parts of `InstanceMetadata` the loop acknowledges. */
  datatype Metadata = Metadata(
    configVersion: ConfigVersion, networkConfigVersion: ConfigVersion, extensionServiceVersion: ConfigVersion)

  datatype HbnMode = ContainerExec | NvueRest
  datatype Options = Options(mode: HbnMode, isDpuOs: bool)

  /**
   * How the calls of one iteration end. `setup` is everything before the first update (reading and checking the
   * HBN version, choosing the virtualization type), `plumbing` the interface and route plans after the DHCP
   * update; both leave the iteration, and the agent, with an error when they fail. `uplinks` are the session names
   * that go with the HBN version.
   */
  datatype Env = Env(
    setup: bool, dhcp: Outcome, plumbing: bool, bridging: Outcome, nvue: Outcome, interfaces: bool,
    probes: Health.Probes, uplinks: seq<string>, nvueApiAlive: bool, stop: bool)

  /** The acknowledging fields of `DpuNetworkStatus`. */
  datatype Status = Status(
    networkConfigVersion: Option<string>, instanceNetworkConfigVersion: Option<string>,
    instanceConfigVersion: Option<string>, extensionServiceVersion: Option<string>,
    instanceId: Option<string>, configError: bool)

  /** What one iteration did. */
  datatype Event =
    | Blank(reset: bool)
    | Reported(
        conf: Conf, meta: Option<Metadata>, env: Env, applied: bool, changed: bool, status: Status,
        health: Health.Report)
    | Died(conf: Conf, env: Env)

  datatype Loop = Loop(seenBlank: bool, isHbnUp: bool)
  const START := Loop(false, false)

  /** The instance network version acknowledged for a configuration that was applied. */
  function AckedInstanceNetworkVersion(conf: Conf, meta: Option<Metadata>): Option<string> {
    if conf.instanceNetworkConfigVersion == "" then None
    else Some(
      match Parse(conf.instanceNetworkConfigVersion)
      case Some(version) =>
        (match meta
         case Some(m) => VersionString(MinByTimestamp(version, m.networkConfigVersion))
         case None => conf.instanceNetworkConfigVersion)
      case None => conf.instanceNetworkConfigVersion)
  }

  function Bridged(options: Options, conf: Conf, env: Env): Outcome {
    if options.isDpuOs && conf.hasBridging then env.bridging else Ok(false)
  }

  /** The joined result of the three updates; NVUE only runs after bridging succeeded. */
  function Applied(options: Options, conf: Conf, env: Env): Outcome {
    var update := if Bridged(options, conf, env) == Err then Err else env.nvue;
    match (update, env.dhcp)
    case (Ok(a), Ok(b)) => Ok(a || b)
    case _ => Err
  }

  function HealthParams(conf: Conf, env: Env, changed: bool): Health.Params {
    var links := if conf.minFunctioningLinks.Some? then conf.minFunctioningLinks.value else 2;
    Health.Params(changed, !conf.useAdminNetwork || conf.isPrimaryDpu, false,
                  BgpHealth.Settings(env.uplinks, links, conf.tenantPeers, conf.routeServers))
  }

  function HealthOf(options: Options, conf: Conf, env: Env, changed: bool): Health.Report {
    match options.mode
    case ContainerExec => Health.Checked(HealthParams(conf, env, changed), env.probes)
    case NvueRest => Health.NvueApiChecked(env.nvueApiAlive)
  }

  function IterationEvent(l: Loop, options: Options, conf: Option<Conf>, meta: Option<Metadata>, env: Env): Event {
    match conf
    case None => Blank(l.seenBlank)
    case Some(c) =>
      if l.isHbnUp && (!env.setup || (options.isDpuOs && !env.plumbing)) then Died(c, env)
      else
        var result := if l.isHbnUp then Applied(options, c, env) else Err;
        var acked := result.Ok?;
        var status := Status(
          if acked then Some(c.managedHostConfigVersion) else None,
          if acked then AckedInstanceNetworkVersion(c, meta) else None,
          if meta.Some? then Some(VersionString(meta.value.configVersion)) else None,
          if meta.Some? then Some(VersionString(meta.value.extensionServiceVersion)) else None,
          if acked then c.instanceId else None,
          l.isHbnUp && (!acked || !env.interfaces));
        var changed := acked && result.changed;
        Reported(c, meta, env, l.isHbnUp, changed, status, HealthOf(options, c, env, changed))
  }

  /** The part of the status that the updates decide. */
  function AppliedStatus(c: Conf, meta: Option<Metadata>, env: Env, acked: bool): Status {
    Status(
      if acked then Some(c.managedHostConfigVersion) else None,
      if acked then AckedInstanceNetworkVersion(c, meta) else None,
      None, None,
      if acked then c.instanceId else None,
      !acked || !env.interfaces)
  }

  function AfterEvent(l: Loop, e: Event): Loop {
    match e
    case Blank(_) => l.(seenBlank := true)
    case Reported(_, _, _, _, _, _, health) => Loop(false, Health.IsUp(health))
    case Died(_, _) => l
  }

  /** `loop_period`: true for the short, active period. */
  predicate IsActive(e: Event) {
    match e
    case Reported(_, _, _, _, changed, _, health) => !Health.IsHealthy(health) || changed
    case _ => true
  }

  datatype Round = Round(conf: Option<Conf>, meta: Option<Metadata>, env: Env)

  predicate Halts(e: Event, env: Env) {
    e.Died? || env.stop
  }

  /** The state and log after a run of rounds, from a fresh start; a halted loop runs no further round. */
  function Run(options: Options, rounds: seq<Round>): (Loop, seq<Event>, bool) {
    if rounds == [] then (START, [], false)
    else
      var (l, log, halted) := Run(options, rounds[..|rounds| - 1]);
      var r := rounds[|rounds| - 1];
      if halted then (l, log, true)
      else
        var e := IterationEvent(l, options, r.conf, r.meta, r.env);
        (AfterEvent(l, e), log + [e], Halts(e, r.env))
  }

  class MainLoop {
    const options: Options
    var seenBlank: bool
    var isHbnUp: bool

    constructor (options: Options)
      ensures this.options == options && State() == START
    {
      this.options := options;
      seenBlank, isHbnUp := false, false;
    }

    function State(): Loop
      reads this
    {
      Loop(seenBlank, isHbnUp)
    }

    /** The updates while HBN is up, and what of the status follows from them. */
    method ApplyConfig(c: Conf, meta: Option<Metadata>, env: Env) returns (status: Status, changed: bool)
      ensures var result := Applied(options, c, env);
        && changed == (result.Ok? && result.changed)
        && status == AppliedStatus(c, meta, env, result.Ok?)
    {
      hide Parse, VersionString, MinByTimestamp;
      changed := false;
      status := Status(None, None, None, None, None, false);
      var bridging := if options.isDpuOs && c.hasBridging then env.bridging else Ok(false);
      var update := if bridging.Ok? then env.nvue else bridging;
      if !(update.Ok? && env.dhcp.Ok?) {
        status := status.(configError := true);
        return;
      }
      changed := update.changed || env.dhcp.changed;
      status := status.(networkConfigVersion := Some(c.managedHostConfigVersion), instanceId := c.instanceId);
      if c.instanceNetworkConfigVersion != "" {
        var acked := c.instanceNetworkConfigVersion;
        match Parse(c.instanceNetworkConfigVersion) {
          case Some(version) =>
            if meta.Some? {
              acked := VersionString(MinByTimestamp(version, meta.value.networkConfigVersion));
            }
          case None =>
        }
        status := status.(instanceNetworkConfigVersion := Some(acked));
      }
      if !env.interfaces {
        status := status.(configError := true);
      }
    }

    method RunSingleIteration(conf: Option<Conf>, meta: Option<Metadata>, env: Env) returns (e: Event, active: bool)
      modifies this
      ensures e == IterationEvent(old(State()), options, conf, meta, env)
      ensures State() == AfterEvent(old(State()), e)
      ensures active == IsActive(e)
    {
      active := true;
      hide Applied, AckedInstanceNetworkVersion, HealthOf, Health.IsUp, Health.IsHealthy, VersionString;
      if conf.None? {
        e := Blank(seenBlank);
        seenBlank := true;
        return;
      }
      var c := conf.value;
      var applied, changed := isHbnUp, false;
      var status := Status(None, None, None, None, None, false);
      if isHbnUp {
        if !env.setup || (options.isDpuOs && !env.plumbing) {
          e := Died(c, env);
          return;
        }
        status, changed := ApplyConfig(c, meta, env);
      }
      if meta.Some? {
        status := status.(instanceConfigVersion := Some(VersionString(meta.value.configVersion)),
                          extensionServiceVersion := Some(VersionString(meta.value.extensionServiceVersion)));
      }
      var health := HealthOf(options, c, env, changed);
      isHbnUp := Health.IsUp(health);
      e := Reported(c, meta, env, applied, changed, status, health);
      seenBlank := false;
      active := !Health.IsHealthy(health) || changed;
    }

    /** `run`, for as many rounds as the environment provides. */
    method RunLoop(rounds: seq<Round>) returns (log: seq<Event>)
      requires State() == START
      modifies this
      ensures (State(), log) == (Run(options, rounds).0, Run(options, rounds).1)
    {
      log := [];
      var halted := false;
      for i := 0 to |rounds|
        invariant (State(), log, halted) == Run(options, rounds[..i])
      {
        assert rounds[..i + 1][..i] == rounds[..i];
        if !halted {
          var e, _ := RunSingleIteration(rounds[i].conf, rounds[i].meta, rounds[i].env);
          log := log + [e];
          halted := Halts(e, rounds[i].env);
        }
      }
      assert rounds[..|rounds|] == rounds;
    }
  }

  // ---------------------------------------------------------------- safety of whole runs

  /** Whether the last health report before iteration `i` said that HBN was up. */
  predicate UpBefore(log: seq<Event>, i: nat)
    requires i <= |log|
  {
    i > 0 && (if log[i - 1].Reported? then Health.IsUp(log[i - 1].health) else UpBefore(log, i - 1))
  }

  /** All three updates succeeded, as far as they were asked for. */
  predicate AllSucceeded(options: Options, conf: Conf, env: Env) {
    env.dhcp.Ok? && env.nvue.Ok? && (options.isDpuOs && conf.hasBridging ==> env.bridging.Ok?)
  }

  /** What the probes must show for a report to be healthy, with the settings of this configuration. */
  ghost predicate ProbesAreFine(options: Options, conf: Conf, env: Env, changed: bool) {
    match options.mode
    case NvueRest => env.nvueApiAlive
    case ContainerExec =>
      exists params: Health.Params ::
        && Health.IsFine(params, env.probes)
        && params.hasChangedConfigs == changed && !params.runRestrictedModeCheck
        && (params.includeDhcpServer <==> conf.isPrimaryDpu || !conf.useAdminNetwork)
        && params.bgp.uplinks == env.uplinks && params.bgp.hostRoutes == conf.tenantPeers
        && params.bgp.routeServers == conf.routeServers
        && params.bgp.minHealthyLinks ==
             (match conf.minFunctioningLinks case Some(n) => n case None => 2)
  }

  /** What the probes must show for HBN to count as up. */
  predicate ProbesShowUp(options: Options, env: Env) {
    match options.mode
    case NvueRest => env.nvueApiAlive
    case ContainerExec => env.probes.container && Health.AllServicesRun(env.probes)
  }

  /** What must hold of iteration `i` of any log. */
  ghost predicate SafeAt(options: Options, log: seq<Event>, i: nat)
    requires i < |log|
  {
    match log[i]
    case Blank(reset) =>
      // the network is reset exactly on the second and later of consecutive blank iterations
      && (reset <==> i > 0 && log[i - 1].Blank?)
      && IsActive(log[i])
    case Reported(conf, meta, env, applied, changed, status, health) =>
      var acked := status.networkConfigVersion.Some?;
      // a configuration is applied exactly when the latest report said HBN was up
      && (applied <==> UpBefore(log, i))
      && (applied ==> env.setup && (options.isDpuOs ==> env.plumbing))
      // its version is acknowledged exactly when all three updates succeeded
      && (acked <==> applied && AllSucceeded(options, conf, env))
      && (acked ==> status.networkConfigVersion.value == conf.managedHostConfigVersion)
      && (status.instanceNetworkConfigVersion.Some? <==> acked && conf.instanceNetworkConfigVersion != "")
      && (acked ==> status.instanceNetworkConfigVersion == AckedInstanceNetworkVersion(conf, meta))
      && status.instanceId == (if acked then conf.instanceId else None)
      // an error is reported exactly when an update, or looking up the interfaces after it, failed
      && (status.configError <==> applied && (!acked || !env.interfaces))
      // a change is reported exactly when the DHCP or the NVUE update of an acknowledged configuration made one
      && (changed <==> acked && (env.dhcp.changed || env.nvue.changed))
      // the instance configuration acknowledged is the one whose metadata was just passed on
      && (status.instanceConfigVersion.Some? <==> meta.Some?)
      && (status.extensionServiceVersion.Some? <==> meta.Some?)
      && (meta.Some? ==>
            && status.instanceConfigVersion == Some(VersionString(meta.value.configVersion))
            && status.extensionServiceVersion == Some(VersionString(meta.value.extensionServiceVersion)))
      // the report says exactly what the probes show
      && (Health.IsUp(health) <==> ProbesShowUp(options, env))
      && (Health.IsHealthy(health) <==> ProbesAreFine(options, conf, env, changed))
      // a changed container configuration is never healthy, and a healthy report means HBN is up
      && (changed && options.mode == ContainerExec ==> health.alerts != [])
      && (Health.IsHealthy(health) ==> Health.IsUp(health))
      // the loop slows down exactly after an unchanged, healthy iteration
      && (IsActive(log[i]) <==> changed || !Health.IsHealthy(health))
    case Died(conf, env) =>
      UpBefore(log, i) && i == |log| - 1 && (!env.setup || (options.isDpuOs && !env.plumbing))
  }

  predicate Alive(log: seq<Event>) {
    log == [] || !log[|log| - 1].Died?
  }

  ghost predicate LoopInv(options: Options, l: Loop, log: seq<Event>) {
    && (Alive(log) ==> l.seenBlank == (log != [] && log[|log| - 1].Blank?) && l.isHbnUp == UpBefore(log, |log|))
    && (forall i :: 0 <= i < |log| ==> SafeAt(options, log, i))
  }

  lemma {:induction false} UpBeforePrefix(log: seq<Event>, e: Event, i: nat)
    requires i <= |log|
    ensures UpBefore(log + [e], i) == UpBefore(log, i)
  {
    if i > 0 {
      UpBeforePrefix(log, e, i - 1);
    }
  }

  lemma HealthIsExact(options: Options, conf: Conf, env: Env, changed: bool)
    ensures var health := HealthOf(options, conf, env, changed);
      && (changed && options.mode == ContainerExec ==> health.alerts != [])
      && (Health.IsHealthy(health) ==> Health.IsUp(health))
      && (Health.IsUp(health) <==> ProbesShowUp(options, env))
      && (Health.IsHealthy(health) <==> ProbesAreFine(options, conf, env, changed))
  {
    hide Health.Checked, Health.IsFine, Health.IsHealthy, Health.IsUp, Health.AllServicesRun;
    var params := HealthParams(conf, env, changed);
    Health.HealthyImpliesUp(params, env.probes, env.nvueApiAlive);
    Health.UpExactlyWhen(params, env.probes);
    Health.HealthyExactlyWhen(params, env.probes);
    Health.NvueApiExactlyWhen(env.nvueApiAlive);
    if changed {
      Health.ChangeIsNeverHealthy(params, env.probes);
    }
    if options.mode == ContainerExec && ProbesAreFine(options, conf, env, changed) {
      ParamsAreDetermined(conf, env, changed);
    }
  }

  /** The settings that `ProbesAreFine` asks for are those of the check. */
  lemma ParamsAreDetermined(conf: Conf, env: Env, changed: bool)
    ensures ProbesAreFine(Options(ContainerExec, true), conf, env, changed) ==>
      Health.IsFine(HealthParams(conf, env, changed), env.probes)
  {
  }

  /** One more iteration keeps the invariant. */
  lemma IterationKeepsInv(options: Options, l: Loop, log: seq<Event>, r: Round)
    requires LoopInv(options, l, log) && Alive(log)
    ensures var e := IterationEvent(l, options, r.conf, r.meta, r.env);
      LoopInv(options, AfterEvent(l, e), log + [e])
  {
    hide HealthOf, Health.IsUp, Health.IsHealthy, ProbesAreFine, ProbesShowUp, Parse, VersionString;
    var e := IterationEvent(l, options, r.conf, r.meta, r.env);
    var log' := log + [e];
    UpBeforePrefix(log, e, |log|);
    forall i | 0 <= i < |log'|
      ensures SafeAt(options, log', i)
    {
      if i < |log| {
        assert SafeAt(options, log, i);
        UpBeforePrefix(log, e, i);
      } else if e.Reported? {
        HealthIsExact(options, e.conf, e.env, e.changed);
      }
    }
  }

  /**
   * Every run is safe: each reset follows an immediately preceding blank iteration, each configuration is applied
   * only on the word of the latest health report (so never in the first iteration), and each acknowledged version is
   * that of a configuration all of whose updates succeeded in that very iteration.
   */
  lemma {:induction false} EveryRunIsSafe(options: Options, rounds: seq<Round>)
    ensures var (l, log, halted) := Run(options, rounds);
      LoopInv(options, l, log) && (halted || Alive(log))
  {
    if rounds != [] {
      EveryRunIsSafe(options, rounds[..|rounds| - 1]);
      var (l, log, halted) := Run(options, rounds[..|rounds| - 1]);
      if !halted {
        IterationKeepsInv(options, l, log, rounds[|rounds| - 1]);
      }
    }
  }

  /** Iteration `i` ends the loop: the agent died in it, or was asked to stop. */
  predicate StopsAt(rounds: seq<Round>, log: seq<Event>, i: nat)
    requires i < |log| && i < |rounds|
  {
    log[i].Died? || rounds[i].env.stop
  }

  /** Event `i` of the log is about what was read in round `i`. */
  predicate IsOfRound(e: Event, r: Round) {
    match e
    case Blank(_) => r.conf == None
    case Reported(conf, meta, env, _, _, _, _) => r == Round(Some(conf), meta, env)
    case Died(conf, env) => r.conf == Some(conf) && r.env == env
  }

  /** A run goes through the rounds one by one and stops exactly at the first that ends the loop. */
  lemma {:induction false} RunStopsExactlyWhen(options: Options, rounds: seq<Round>)
    ensures var (_, log, halted) := Run(options, rounds);
      && |log| <= |rounds|
      && (forall i :: 0 <= i < |log| ==> IsOfRound(log[i], rounds[i]))
      && (forall i :: 0 <= i < |log| - 1 ==> !StopsAt(rounds, log, i))
      && (halted <==> log != [] && StopsAt(rounds, log, |log| - 1))
      && (|log| < |rounds| ==> halted)
  {
    hide IterationEvent, AfterEvent;
    if rounds != [] {
      var n := |rounds| - 1;
      RunStopsExactlyWhen(options, rounds[..n]);
      var (l, log, halted) := Run(options, rounds[..n]);
      var log' := Run(options, rounds).1;
      assert forall i :: 0 <= i < |log| ==> log'[i] == log[i];
      assert forall i :: 0 <= i < |log| ==> StopsAt(rounds, log', i) == StopsAt(rounds[..n], log, i);
      if !halted {
        EventIsOfRound(l, options, rounds[n]);
      }
    }
  }

  lemma EventIsOfRound(l: Loop, options: Options, r: Round)
    ensures IsOfRound(IterationEvent(l, options, r.conf, r.meta, r.env), r)
  {
  }

  // ---------------------------------------------------------------- the acknowledged instance network version

  /**
   * With a readable configured version, the acknowledged one is readable too, no newer than the configured version
   * nor than the metadata copy, and equal to one of them.
   */
  lemma AckIsNeverAhead(conf: Conf, meta: Option<Metadata>)
    requires conf.instanceNetworkConfigVersion != "" && Parse(conf.instanceNetworkConfigVersion).Some?
    requires meta.Some? ==> Representable(meta.value.networkConfigVersion)
    ensures var configured := Parse(conf.instanceNetworkConfigVersion).value;
      var acked := AckedInstanceNetworkVersion(conf, meta);
      && acked.Some? && Parse(acked.value).Some?
      && (meta.None? ==> acked.value == conf.instanceNetworkConfigVersion)
      && AtMost(Parse(acked.value).value, configured)
      && (meta.Some? ==> AtMost(Parse(acked.value).value, meta.value.networkConfigVersion))
      && (Parse(acked.value).value == configured ||
           (meta.Some? && Parse(acked.value).value == meta.value.networkConfigVersion))
  {
    ParsedIsRepresentable(conf.instanceNetworkConfigVersion);
    if meta.Some? {
      ParseOfVersionString(
        MinByTimestamp(Parse(conf.instanceNetworkConfigVersion).value, meta.value.networkConfigVersion));
    }
  }

  /**
   * Without a metadata copy the configured version is acknowledged outright, so a copy that arrives later with an
   * older version makes the acknowledgement go back.
   */
  lemma LateOlderCopyGoesBack(conf: Conf, meta: Metadata)
    requires conf.instanceNetworkConfigVersion != "" && Parse(conf.instanceNetworkConfigVersion).Some?
    requires Representable(meta.networkConfigVersion)
    ensures var first := AckedInstanceNetworkVersion(conf, None).value;
      var second := AckedInstanceNetworkVersion(conf, Some(meta)).value;
      && Parse(second).Some?
      && (AtMost(Parse(first).value, Parse(second).value) <==>
            AtMost(Parse(conf.instanceNetworkConfigVersion).value, meta.networkConfigVersion))
  {
    AckIsNeverAhead(conf, Some(meta));
  }
}
