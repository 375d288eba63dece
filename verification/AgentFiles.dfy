/** The main loop over the files it updates: what an acknowledged configuration means on disk. */
module AgentFiles {
  import opened Text
  import opened ConfigFiles
  import opened AgentLoop
  import DhcpFiles
  import Bridging
  import NvueFiles

  /**
   * What one iteration renders for its three updates, `None` where rendering fails, and how their commands and file
   * operations end.
   */
  datatype Updates = Updates(
    skip: bool,
    dhcp: DhcpFiles.Rendered, stopDhcp: bool, dhcpIo: DhcpFiles.UpdateIo,
    script: Option<Contents>, scriptRun: Bridging.Run, scriptIo: Bridging.TickIo,
    nvue: Option<Contents>, nvueRun: NvueFiles.Run, nvueIo: NvueFiles.TickIo)

  /** The disk after the three updates, in their order, and how each ended. */
  datatype Applications = Applications(disk: Disk, dhcp: Outcome, bridging: Outcome, nvue: Outcome)

  predicate HasScript(options: Options, conf: Conf) {
    options.isDpuOs && conf.hasBridging
  }

  function AfterDhcp(d: Disk, u: Updates): DhcpFiles.Step {
    DhcpFiles.AfterFaultyUpdate(d, u.dhcp, u.stopDhcp, u.skip, u.dhcpIo)
  }

  function AfterScript(d: Disk, options: Options, conf: Conf, u: Updates): (Disk, Outcome) {
    if !HasScript(options, conf) then (d, Ok(false))
    else match u.script
      case None => (d, Err)
      case Some(script) =>
        var s := Bridging.AfterFaultyTick(d, script, conf.useAdminNetwork, u.skip, u.scriptRun, u.scriptIo);
        (s.disk, s.result)
  }

  function AfterNvue(d: Disk, conf: Conf, u: Updates): (Disk, Outcome) {
    match u.nvue
    case None => (d, Err)
    case Some(config) =>
      var s := NvueFiles.AfterFaultyTick(d, config, conf.useAdminNetwork, u.skip, u.nvueRun, u.nvueIo);
      (s.disk, s.result)
  }

  /** NVUE is only updated after bridging succeeded. */
  function AfterUpdates(d: Disk, options: Options, conf: Conf, u: Updates): Applications {
    var s := AfterDhcp(d, u);
    var (d2, bridging) := AfterScript(s.disk, options, conf, u);
    var (d3, nvue) := if bridging == Err then (d2, Err) else AfterNvue(d2, conf, u);
    Applications(d3, s.result, bridging, nvue)
  }

  /** The iteration's updates end as they do on this disk. */
  predicate UpdatesFiles(d: Disk, options: Options, conf: Conf, u: Updates, env: Env) {
    var a := AfterUpdates(d, options, conf, u);
    env.dhcp == a.dhcp && env.bridging == a.bridging && env.nvue == a.nvue
  }

  lemma ScriptIsLocal(d: Disk, options: Options, conf: Conf, u: Updates)
    ensures forall p: Path :: p.file != BridgingScript ==> Get(AfterScript(d, options, conf, u).0, p) == Get(d, p)
  {
    if HasScript(options, conf) && u.script.Some? {
      hide AfterWrite, AfterCleanup, AfterApply;
      var d1 := AfterCleanup(d, BridgingScript, u.scriptIo.cleanup).0;
      var d2 := AfterWrite(d1, BridgingScript, u.script.value, false, u.scriptIo.write).0;
      var (d3, ok) := Bridging.AfterRun(d2, u.scriptRun, u.scriptIo.setAside);
      CleanupIsLocal(d, BridgingScript, u.scriptIo.cleanup);
      WriteIsAtomic(d1, BridgingScript, u.script.value, false, u.scriptIo.write);
      ApplyIsLocal(d3, BridgingScript, ok, u.scriptIo.apply);
    }
  }

  lemma NvueIsLocal(d: Disk, conf: Conf, u: Updates)
    ensures forall p: Path :: p.file != NvueStartup ==> Get(AfterNvue(d, conf, u).0, p) == Get(d, p)
  {
    if u.nvue.Some? {
      hide AfterWrite, AfterCleanup, AfterApply, NvueFiles.Forced;
      var d1 := AfterCleanup(d, NvueStartup, u.nvueIo.cleanup).0;
      var force := NvueFiles.Forced(d1, conf.useAdminNetwork);
      CleanupIsLocal(d, NvueStartup, u.nvueIo.cleanup);
      WriteIsAtomic(d1, NvueStartup, u.nvue.value, force, u.nvueIo.write);
      ApplyIsLocal(AfterWrite(d1, NvueStartup, u.nvue.value, force, u.nvueIo.write).0, NvueStartup,
                   u.nvueRun != NvueFiles.Failed, u.nvueIo.apply);
    }
  }

  /** An update of NVUE is attempted exactly if bridging succeeded: after a failure its files are as they were. */
  lemma FailedScriptSparesNvue(d: Disk, options: Options, conf: Conf, u: Updates)
    requires AfterUpdates(d, options, conf, u).bridging == Err
    ensures forall p: Path :: p.file == NvueStartup ==> Get(AfterUpdates(d, options, conf, u).disk, p) == Get(d, p)
  {
    hide AfterDhcp, AfterScript;
    var s := AfterDhcp(d, u);
    ScriptIsLocal(s.disk, options, conf, u);
    DhcpIsLocal(d, u);
  }

  lemma DhcpIsLocal(d: Disk, u: Updates)
    ensures forall p: Path :: p.file == NvueStartup || p.file == BridgingScript ==>
      Get(AfterDhcp(d, u).disk, p) == Get(d, p)
  {
    hide DhcpFiles.AfterFaultyUpdate, DhcpFiles.LiveAfter;
    DhcpFiles.RelaysAfterUpdate(d, u.dhcp, u.stopDhcp, u.skip, u.dhcpIo);
  }

  /** A successful NVUE update leaves exactly the rendered startup file, whatever fails. */
  lemma NvueSuccess(d: Disk, conf: Conf, u: Updates)
    requires AfterNvue(d, conf, u).1.Ok?
    ensures u.nvue.Some? && Get(AfterNvue(d, conf, u).0, Path(NvueStartup, Live)) == u.nvue
  {
    hide AfterWrite;
    var d1 := AfterCleanup(d, NvueStartup, u.nvueIo.cleanup).0;
    WriteIsAtomic(d1, NvueStartup, u.nvue.value, NvueFiles.Forced(d1, conf.useAdminNetwork), u.nvueIo.write);
  }

  /** The script ran and exited with an error, which is reported as success. */
  predicate ScriptExitHidden(d: Disk, u: Updates) {
    !u.skip && u.scriptRun == Bridging.ExitNonZero && Get(d, Path(BridgingScript, Live)) != u.script
  }

  /**
   * A successful update of the script on the tenant network leaves exactly it, unless it ran and exited with an error.
   */
  lemma ScriptSuccess(d: Disk, options: Options, conf: Conf, u: Updates)
    requires HasScript(options, conf) && AfterScript(d, options, conf, u).1.Ok?
    ensures u.script.Some?
    ensures var live := Get(AfterScript(d, options, conf, u).0, Path(BridgingScript, Live));
      if conf.useAdminNetwork then live == Get(d, Path(BridgingScript, Live))
      else live == u.script <==> !ScriptExitHidden(d, u)
  {
    hide AfterWrite;
    var d1 := AfterCleanup(d, BridgingScript, u.scriptIo.cleanup).0;
    WriteIsAtomic(d1, BridgingScript, u.script.value, false, u.scriptIo.write);
  }

  lemma AcknowledgedMeansAllSucceeded(l: Loop, options: Options, conf: Conf, meta: Option<Metadata>, env: Env)
    ensures var e := IterationEvent(l, options, Some(conf), meta, env);
      e.Reported? && e.status.networkConfigVersion.Some? ==>
        env.dhcp.Ok? && env.nvue.Ok? && (HasScript(options, conf) ==> env.bridging.Ok?)
  {
  }

  /**
   * Whatever fails, exactly which files hold what was rendered when an iteration acknowledges a configuration: the NVUE
   * startup file always; a DHCP file exactly if it did before or its own write worked, since errors of such writes are
   * only logged; and on the tenant network the bridging script exactly if it did not run and exit with an error.
   */
  lemma AcknowledgedMeansInstalled(
      l: Loop, options: Options, conf: Conf, meta: Option<Metadata>, env: Env, d: Disk, u: Updates)
    requires UpdatesFiles(d, options, conf, u, env)
    requires var e := IterationEvent(l, options, Some(conf), meta, env);
      e.Reported? && e.status.networkConfigVersion.Some?
    ensures DhcpFiles.Complete(u.dhcp) && u.nvue.Some?
    ensures var d' := AfterUpdates(d, options, conf, u).disk;
      var files := u.dhcpIo.files;
      && Get(d', Path(NvueStartup, Live)) == u.nvue
      && (Get(d', Path(DhcpServer, Live)) == u.dhcp.server <==>
            DhcpFiles.EndsNew(d, DhcpServer, u.dhcp.server.value, files.server.write))
      && (Get(d', Path(DhcpServerConfig, Live)) == u.dhcp.config <==>
            DhcpFiles.EndsNew(d, DhcpServerConfig, u.dhcp.config.value, files.config.write))
      && (Get(d', Path(DhcpServerHostConfig, Live)) == u.dhcp.hostConfig <==>
            DhcpFiles.EndsNew(d, DhcpServerHostConfig, u.dhcp.hostConfig.value, files.hostConfig.write))
      && (HasScript(options, conf) && !conf.useAdminNetwork ==>
            (Get(d', Path(BridgingScript, Live)) == u.script <==> !ScriptExitHidden(d, u)))
  {
    AcknowledgedMeansAllSucceeded(l, options, conf, meta, env);
    hide IterationEvent, AfterDhcp, AfterScript, AfterNvue, DhcpFiles.EndsNew;
    var d1 := AfterDhcp(d, u).disk;
    var d2 := AfterScript(d1, options, conf, u).0;
    DhcpSuccess(d, u);
    ScriptIsLocal(d1, options, conf, u);
    NvueIsLocal(d2, conf, u);
    NvueSuccess(d2, conf, u);
    if HasScript(options, conf) {
      ScriptSuccess(d1, options, conf, u);
      assert Get(d1, Path(BridgingScript, Live)) == Get(d, Path(BridgingScript, Live));
    }
  }

  lemma DhcpSuccess(d: Disk, u: Updates)
    requires AfterDhcp(d, u).result.Ok?
    ensures DhcpFiles.Complete(u.dhcp)
    ensures var d' := AfterDhcp(d, u).disk;
      var files := u.dhcpIo.files;
      && (Get(d', Path(DhcpServer, Live)) == u.dhcp.server <==>
            DhcpFiles.EndsNew(d, DhcpServer, u.dhcp.server.value, files.server.write))
      && (Get(d', Path(DhcpServerConfig, Live)) == u.dhcp.config <==>
            DhcpFiles.EndsNew(d, DhcpServerConfig, u.dhcp.config.value, files.config.write))
      && (Get(d', Path(DhcpServerHostConfig, Live)) == u.dhcp.hostConfig <==>
            DhcpFiles.EndsNew(d, DhcpServerHostConfig, u.dhcp.hostConfig.value, files.hostConfig.write))
      && Get(d', Path(BridgingScript, Live)) == Get(d, Path(BridgingScript, Live))
  {
    hide DhcpFiles.AfterFaultyUpdate, DhcpFiles.EndsNew, DhcpFiles.LiveAfter;
    DhcpFiles.SuccessUnderFaults(d, u.dhcp, u.stopDhcp, u.skip, u.dhcpIo);
    DhcpFiles.RelaysAfterUpdate(d, u.dhcp, u.stopDhcp, u.skip, u.dhcpIo);
  }
}
