/** The health checks of the DPU agent and what the main loop concludes from them. */
module Health {
  import opened Text
  import BgpHealth

  datatype ProbeId =
    | ContainerExists | SupervisorctlStatus | ServiceRunning | RestrictedMode | DhcpServer | Ifreload
    | BgpDaemonEnabled | BgpStats | BgpPeeringTor | BgpPeeringRouteServer | UnexpectedBgpPeer
    | FileExists | FileIsValid | PostConfigCheckWait | DpuDiskUtilizationCheck | DpuDiskUtilizationCritical
    | NvueApiRunning

  /** A report, by the probe of each alert and each success, in order. */
  datatype Report = Report(alerts: seq<ProbeId>, successes: seq<ProbeId>)

  const EMPTY := Report([], [])
  const EXPECTED_SERVICES: seq<string> := ["frr", "nl2doca", "rsyslog"]
  const DHCP_SERVER_SERVICE := "forge-dhcp-server-default"
  const MIN_SIZE: nat := 100

  datatype SctlState = Unknown | Stopped | Starting | Running | Backoff | Stopping | Exited | Fatal
  const MAX_DISK_UTILIZATION: nat := 85
  datatype FileStat = Missing | Unreadable | Sized(size: nat)
  datatype FileProbe = FileProbe(isDhcpServer: bool, stat: FileStat)

  /**
   * What each external query of one health check answers; `None` where a command or a file could not be run or read.
   * `disk` is the utilization by mount point, in percent; `daemons` the text of the daemons file.
   */
  datatype Probes = Probes(
    disk: Option<map<string, nat>>, container: bool, supervisorctl: Option<map<string, SctlState>>,
    restrictedMode: bool, supervisorctlAgain: Option<map<string, SctlState>>, ifreload: Option<string>,
    daemons: Option<string>, bgp: Option<BgpHealth.Networks>, files: seq<FileProbe>)

  datatype Params = Params(
    hasChangedConfigs: bool, includeDhcpServer: bool, runRestrictedModeCheck: bool, bgp: BgpHealth.Settings)

  function Failed(r: Report, id: ProbeId): Report {
    r.(alerts := r.alerts + [id])
  }

  function Passed(r: Report, id: ProbeId): Report {
    r.(successes := r.successes + [id])
  }

  function PassedIf(r: Report, id: ProbeId, ok: bool): Report {
    if ok then Passed(r, id) else Failed(r, id)
  }

  function FailedTimes(r: Report, id: ProbeId, n: nat): Report {
    if n == 0 then r else Failed(FailedTimes(r, id, n - 1), id)
  }

  function StatusOf(status: map<string, SctlState>, service: string): SctlState {
    if service in status then status[service] else Unknown
  }

  predicate IsUp(r: Report) {
    && ((ContainerExists in r.successes && SupervisorctlStatus in r.successes) || NvueApiRunning in r.successes)
    && ServiceRunning !in r.alerts
  }

  /** `is_healthy` of the main loop. */
  predicate IsHealthy(r: Report) {
    r.successes != [] && r.alerts == []
  }

  function WithDisk(r: Report, p: Probes): Report {
    if p.disk.None? || "/" !in p.disk.value then Failed(r, DpuDiskUtilizationCheck)
    else if p.disk.value["/"] > MAX_DISK_UTILIZATION then Failed(r, DpuDiskUtilizationCritical)
    else Passed(r, DpuDiskUtilizationCheck)
  }

  function WithServices(r: Report, status: map<string, SctlState>, n: nat): Report
    requires n <= |EXPECTED_SERVICES|
  {
    if n == 0 then r
    else PassedIf(WithServices(r, status, n - 1), ServiceRunning, StatusOf(status, EXPECTED_SERVICES[n - 1]) == Running)
  }

  function WithHbnServices(r: Report, p: Probes): Report {
    match p.supervisorctl
    case None => Failed(r, SupervisorctlStatus)
    case Some(status) => WithServices(Passed(r, SupervisorctlStatus), status, |EXPECTED_SERVICES|)
  }

  function WithDhcpServer(r: Report, p: Probes): Report {
    match p.supervisorctlAgain
    case None => Failed(r, SupervisorctlStatus)
    case Some(status) => PassedIf(r, DhcpServer, StatusOf(status, DHCP_SERVER_SERVICE) == Running)
  }

  /** `check_daemon_enabled`. */
  predicate IsDaemonEnabled(daemons: Option<string>) {
    daemons.Some? && !Contains(daemons.value, "bgpd=no") && Contains(daemons.value, "bgpd=yes")
  }

  /** The sessions are not looked at if the daemon is not enabled. */
  function WithBgp(r: Report, params: Params, p: Probes): Report {
    if BgpDaemonEnabled in r.alerts then r
    else
      var f := BgpHealth.Verified(p.bgp, params.bgp);
      var r1 := PassedIf(r, BgpStats, f.otherErrors == 0);
      var r2 := FailedTimes(r1, BgpPeeringTor, |f.unhealthyTors|);
      var r3 := FailedTimes(r2, BgpPeeringRouteServer, |f.unhealthyServers|);
      FailedTimes(r3, UnexpectedBgpPeer, |f.unexpectedIpv4| + |f.unexpectedEvpn|)
  }

  /** One expected file; a file that is too small is reported as failed and as passed. */
  function WithFile(r: Report, f: FileProbe): Report {
    match f.stat
    case Missing => Failed(r, FileExists)
    case Unreadable => Failed(Passed(r, FileExists), FileIsValid)
    case Sized(size) =>
      var r1 := Passed(r, FileExists);
      Passed(if !f.isDhcpServer && size < MIN_SIZE then Failed(r1, FileIsValid) else r1, FileIsValid)
  }

  function WithFiles(r: Report, files: seq<FileProbe>): Report {
    if files == [] then r else WithFile(WithFiles(r, files[..|files| - 1]), files[|files| - 1])
  }

  function DhcpServerSize(files: seq<FileProbe>): nat {
    if files == [] then 0
    else
      var last := files[|files| - 1];
      if last.isDhcpServer && last.stat.Sized? then last.stat.size else DhcpServerSize(files[..|files| - 1])
  }

  function UpToServices(params: Params, p: Probes): Report {
    var r := WithHbnServices(Passed(WithDisk(EMPTY, p), ContainerExists), p);
    if params.runRestrictedModeCheck then PassedIf(r, RestrictedMode, p.restrictedMode) else r
  }

  /** The checks that only run once HBN is up. */
  function WithLateChecks(r: Report, params: Params, p: Probes): Report {
    var r1 := if params.includeDhcpServer then WithDhcpServer(r, p) else r;
    var r2 := PassedIf(PassedIf(r1, Ifreload, p.ifreload == Some("")), BgpDaemonEnabled, IsDaemonEnabled(p.daemons));
    var r3 := WithFiles(WithBgp(r2, params, p), p.files);
    var r4 := if DhcpServerSize(p.files) < MIN_SIZE then Failed(r3, FileIsValid) else r3;
    if params.hasChangedConfigs then Failed(r4, PostConfigCheckWait) else r4
  }

  function Checked(params: Params, p: Probes): Report {
    if !p.container then Failed(WithDisk(EMPTY, p), ContainerExists)
    else
      var r := UpToServices(params, p);
      if !IsUp(r) then r else WithLateChecks(r, params, p)
  }

  function NvueApiChecked(alive: bool): Report {
    PassedIf(EMPTY, NvueApiRunning, alive)
  }

  /** The report under construction: the checks push onto its two lists. */
  class HealthReport {
    var alerts: seq<ProbeId>
    var successes: seq<ProbeId>

    constructor ()
      ensures Value() == EMPTY
    {
      alerts, successes := [], [];
    }

    function Value(): Report
      reads this
    {
      Report(alerts, successes)
    }

    method Fail(id: ProbeId)
      modifies this
      ensures Value() == Failed(old(Value()), id)
    {
      alerts := alerts + [id];
    }

    method Pass(id: ProbeId)
      modifies this
      ensures Value() == Passed(old(Value()), id)
    {
      successes := successes + [id];
    }

    method Judge(id: ProbeId, ok: bool)
      modifies this
      ensures Value() == PassedIf(old(Value()), id, ok)
    {
      if ok {
        Pass(id);
      } else {
        Fail(id);
      }
    }

    method CheckDisk(p: Probes)
      modifies this
      ensures Value() == WithDisk(old(Value()), p)
    {
      if p.disk.None? {
        Fail(DpuDiskUtilizationCheck);
        return;
      }
      if "/" in p.disk.value {
        if p.disk.value["/"] > MAX_DISK_UTILIZATION {
          Fail(DpuDiskUtilizationCritical);
        } else {
          Pass(DpuDiskUtilizationCheck);
        }
      } else {
        Fail(DpuDiskUtilizationCheck);
      }
    }

    method CheckHbnServicesRunning(p: Probes)
      modifies this
      ensures Value() == WithHbnServices(old(Value()), p)
    {
      if p.supervisorctl.None? {
        Fail(SupervisorctlStatus);
        return;
      }
      Pass(SupervisorctlStatus);
      for i := 0 to |EXPECTED_SERVICES|
        invariant Value() == WithServices(Passed(old(Value()), SupervisorctlStatus), p.supervisorctl.value, i)
      {
        Judge(ServiceRunning, StatusOf(p.supervisorctl.value, EXPECTED_SERVICES[i]) == Running);
      }
    }

    method CheckDhcpServer(p: Probes)
      modifies this
      ensures Value() == WithDhcpServer(old(Value()), p)
    {
      if p.supervisorctlAgain.None? {
        Fail(SupervisorctlStatus);
        return;
      }
      Judge(DhcpServer, StatusOf(p.supervisorctlAgain.value, DHCP_SERVER_SERVICE) == Running);
    }

    method FailTimes(id: ProbeId, n: nat)
      modifies this
      ensures Value() == FailedTimes(old(Value()), id, n)
    {
      for i := 0 to n
        invariant Value() == FailedTimes(old(Value()), id, i)
      {
        Fail(id);
      }
    }

    method CheckDaemonEnabled(daemons: Option<string>)
      modifies this
      ensures Value() == PassedIf(old(Value()), BgpDaemonEnabled, IsDaemonEnabled(daemons))
    {
      if daemons.None? {
        Fail(BgpDaemonEnabled);
        return;
      }
      if Contains(daemons.value, "bgpd=no") {
        Fail(BgpDaemonEnabled);
        return;
      }
      if !Contains(daemons.value, "bgpd=yes") {
        Fail(BgpDaemonEnabled);
        return;
      }
      Pass(BgpDaemonEnabled);
    }

    method CheckBgpStats(params: Params, p: Probes)
      modifies this
      ensures Value() == WithBgp(old(Value()), params, p)
    {
      if BgpDaemonEnabled in alerts {
        return;
      }
      var data := BgpHealth.VerifySummary(p.bgp, params.bgp);
      Judge(BgpStats, data.otherErrors == 0);
      FailTimes(BgpPeeringTor, |data.unhealthyTors|);
      FailTimes(BgpPeeringRouteServer, |data.unhealthyServers|);
      FailTimes(UnexpectedBgpPeer, |data.unexpectedIpv4| + |data.unexpectedEvpn|);
    }

    method CheckFiles(files: seq<FileProbe>)
      modifies this
      ensures var r := WithFiles(old(Value()), files);
        Value() == if DhcpServerSize(files) < MIN_SIZE then Failed(r, FileIsValid) else r
    {
      var dhcpServerSize := 0;
      for i := 0 to |files|
        invariant Value() == WithFiles(old(Value()), files[..i])
        invariant dhcpServerSize == DhcpServerSize(files[..i])
      {
        assert files[..i + 1][..i] == files[..i];
        if files[i].stat == Missing {
          Fail(FileExists);
          continue;
        }
        Pass(FileExists);
        if files[i].stat == Unreadable {
          Fail(FileIsValid);
          continue;
        }
        if files[i].isDhcpServer {
          dhcpServerSize := files[i].stat.size;
        } else if files[i].stat.size < MIN_SIZE {
          Fail(FileIsValid);
        }
        Pass(FileIsValid);
      }
      assert files[..|files|] == files;
      if dhcpServerSize < MIN_SIZE {
        Fail(FileIsValid);
      }
    }
  }

  method HealthCheck(params: Params, p: Probes) returns (hr: HealthReport)
    ensures fresh(hr) && hr.Value() == Checked(params, p)
  {
    hr := new HealthReport();
    hr.CheckDisk(p);
    if !p.container {
      hr.Fail(ContainerExists);
      return;
    }
    hr.Pass(ContainerExists);
    hr.CheckHbnServicesRunning(p);
    if params.runRestrictedModeCheck {
      hr.Judge(RestrictedMode, p.restrictedMode);
    }
    if !IsUp(hr.Value()) {
      return;
    }
    if params.includeDhcpServer {
      hr.CheckDhcpServer(p);
    }
    hr.Judge(Ifreload, p.ifreload == Some(""));
    hr.CheckDaemonEnabled(p.daemons);
    hr.CheckBgpStats(params, p);
    hr.CheckFiles(p.files);
    if params.hasChangedConfigs {
      hr.Fail(PostConfigCheckWait);
    }
  }

  // ---------------------------------------------------------------- properties

  /** `r'` adds to `r`, and no alert about an HBN service. */
  predicate Extends(r: Report, r': Report) {
    && r.alerts <= r'.alerts && r.successes <= r'.successes
    && (ServiceRunning in r'.alerts ==> ServiceRunning in r.alerts)
  }

  lemma {:induction false} TimesExtends(r: Report, r': Report, id: ProbeId, n: nat)
    requires Extends(r, r') && id != ServiceRunning
    ensures Extends(r, FailedTimes(r', id, n))
  {
    if n > 0 {
      TimesExtends(r, r', id, n - 1);
    }
  }

  lemma {:induction false} FilesExtend(r: Report, r': Report, files: seq<FileProbe>)
    requires Extends(r, r')
    ensures Extends(r, WithFiles(r', files))
  {
    if files != [] {
      FilesExtend(r, r', files[..|files| - 1]);
    }
  }

  lemma JudgeExtends(r: Report, r': Report, id: ProbeId, ok: bool)
    requires Extends(r, r') && (id != ServiceRunning || ok)
    ensures Extends(r, PassedIf(r', id, ok))
  {
  }

  lemma BgpExtends(r: Report, r': Report, params: Params, p: Probes)
    requires Extends(r, r')
    ensures Extends(r, WithBgp(r', params, p))
  {
    hide Extends;
    if BgpDaemonEnabled !in r'.alerts {
      var f := BgpHealth.Verified(p.bgp, params.bgp);
      JudgeExtends(r, r', BgpStats, f.otherErrors == 0);
      var r1 := PassedIf(r', BgpStats, f.otherErrors == 0);
      TimesExtends(r, r1, BgpPeeringTor, |f.unhealthyTors|);
      var r2 := FailedTimes(r1, BgpPeeringTor, |f.unhealthyTors|);
      TimesExtends(r, r2, BgpPeeringRouteServer, |f.unhealthyServers|);
      var r3 := FailedTimes(r2, BgpPeeringRouteServer, |f.unhealthyServers|);
      TimesExtends(r, r3, UnexpectedBgpPeer, |f.unexpectedIpv4| + |f.unexpectedEvpn|);
    }
  }

  lemma LateChecksExtend(r: Report, params: Params, p: Probes)
    ensures Extends(r, WithLateChecks(r, params, p))
  {
    hide WithFiles, WithBgp, DhcpServerSize, IsDaemonEnabled;
    var r1 := if params.includeDhcpServer then WithDhcpServer(r, p) else r;
    assert Extends(r, r1);
    hide WithDhcpServer, Extends;
    JudgeExtends(r, r1, Ifreload, p.ifreload == Some(""));
    var r2 := PassedIf(r1, Ifreload, p.ifreload == Some(""));
    JudgeExtends(r, r2, BgpDaemonEnabled, IsDaemonEnabled(p.daemons));
    var r3 := PassedIf(r2, BgpDaemonEnabled, IsDaemonEnabled(p.daemons));
    BgpExtends(r, r3, params, p);
    var r4 := WithBgp(r3, params, p);
    FilesExtend(r, r4, p.files);
    var r5 := WithFiles(r4, p.files);
    JudgeExtends(r, r5, FileIsValid, false);
    JudgeExtends(r, r5, PostConfigCheckWait, false);
    JudgeExtends(r, Failed(r5, FileIsValid), PostConfigCheckWait, false);
  }

  lemma {:induction false} ServicesReported(r: Report, status: map<string, SctlState>, n: nat)
    requires n <= |EXPECTED_SERVICES| && ServiceRunning !in r.alerts
    ensures var r' := WithServices(r, status, n);
      && r.alerts <= r'.alerts && r.successes <= r'.successes
      && (ServiceRunning in r'.alerts <==> exists i :: 0 <= i < n && StatusOf(status, EXPECTED_SERVICES[i]) != Running)
  {
    if n > 0 {
      ServicesReported(r, status, n - 1);
    }
  }

  predicate Runs(status: map<string, SctlState>, service: string) {
    service in status && status[service] == Running
  }

  predicate AllServicesRun(p: Probes) {
    && p.supervisorctl.Some?
    && var status := p.supervisorctl.value; Runs(status, "frr") && Runs(status, "nl2doca") && Runs(status, "rsyslog")
  }

  lemma ServicesAreExpected(p: Probes)
    requires p.supervisorctl.Some?
    ensures AllServicesRun(p) <==>
      forall i :: 0 <= i < |EXPECTED_SERVICES| ==> Runs(p.supervisorctl.value, EXPECTED_SERVICES[i])
  {
    if forall i :: 0 <= i < |EXPECTED_SERVICES| ==> Runs(p.supervisorctl.value, EXPECTED_SERVICES[i]) {
      assert Runs(p.supervisorctl.value, EXPECTED_SERVICES[0]) && Runs(p.supervisorctl.value, EXPECTED_SERVICES[1]);
      assert Runs(p.supervisorctl.value, EXPECTED_SERVICES[2]);
    }
  }

  lemma UpAfterServices(params: Params, p: Probes)
    ensures IsUp(UpToServices(params, p)) <==> AllServicesRun(p)
  {
    var r0 := Passed(WithDisk(EMPTY, p), ContainerExists);
    assert r0.successes[|r0.successes| - 1] == ContainerExists;
    assert SupervisorctlStatus !in r0.successes && NvueApiRunning !in r0.successes && ServiceRunning !in r0.alerts;
    if p.supervisorctl.Some? {
      var r1 := Passed(r0, SupervisorctlStatus);
      hide WithServices;
      ServicesReported(r1, p.supervisorctl.value, |EXPECTED_SERVICES|);
      ServicesAreExpected(p);
      assert r1.successes[|r0.successes| - 1] == ContainerExists && r1.successes[|r0.successes|] == SupervisorctlStatus;
    }
  }

  /** HBN counts as up exactly when its container exists, `supervisorctl` answers and every expected service runs. */
  lemma UpExactlyWhen(params: Params, p: Probes)
    ensures IsUp(Checked(params, p)) <==> p.container && AllServicesRun(p)
  {
    hide WithLateChecks, UpToServices, AllServicesRun;
    var r := UpToServices(params, p);
    UpAfterServices(params, p);
    LateChecksExtend(r, params, p);
  }

  /** A changed configuration always shows as an alert, whichever early return the check takes. */
  lemma ChangeIsNeverHealthy(params: Params, p: Probes)
    requires params.hasChangedConfigs
    ensures Checked(params, p).alerts != []
  {
    if p.container && !IsUp(UpToServices(params, p)) {
      DownHasAlert(params, p);
    }
  }

  lemma DownHasAlert(params: Params, p: Probes)
    requires p.container && !IsUp(UpToServices(params, p))
    ensures UpToServices(params, p).alerts != []
  {
    if p.supervisorctl.Some? {
      var r1 := Passed(Passed(WithDisk(EMPTY, p), ContainerExists), SupervisorctlStatus);
      ServicesReported(r1, p.supervisorctl.value, |EXPECTED_SERVICES|);
      assert ContainerExists in r1.successes && SupervisorctlStatus in r1.successes;
    }
  }

  /** In both HBN modes a healthy report implies that HBN is up. */
  lemma HealthyImpliesUp(params: Params, p: Probes, alive: bool)
    ensures IsHealthy(Checked(params, p)) ==> IsUp(Checked(params, p))
    ensures IsHealthy(NvueApiChecked(alive)) ==> IsUp(NvueApiChecked(alive))
  {
    if p.container {
      var r := UpToServices(params, p);
      if IsUp(r) {
        LateChecksExtend(r, params, p);
      } else {
        DownHasAlert(params, p);
      }
    }
  }

  // ---------------------------------------------------------------- how often each alert is raised

  function Flag(b: bool): nat {
    if b then 1 else 0
  }

  function NumDown(status: map<string, SctlState>, n: nat): nat
    requires n <= |EXPECTED_SERVICES|
  {
    if n == 0 then 0 else NumDown(status, n - 1) + Flag(!Runs(status, EXPECTED_SERVICES[n - 1]))
  }

  function NumMissing(files: seq<FileProbe>): nat {
    if files == [] then 0 else NumMissing(files[..|files| - 1]) + Flag(files[|files| - 1].stat == Missing)
  }

  /** Unreadable, or, unless it is the DHCP server's, too small. */
  predicate IsInvalid(f: FileProbe) {
    f.stat == Unreadable || (f.stat.Sized? && !f.isDhcpServer && f.stat.size < MIN_SIZE)
  }

  function NumInvalid(files: seq<FileProbe>): nat {
    if files == [] then 0 else NumInvalid(files[..|files| - 1]) + Flag(IsInvalid(files[|files| - 1]))
  }

  /** Some DHCP server file is large enough, and no later one has a smaller size. */
  predicate DhcpFileIsFine(files: seq<FileProbe>) {
    exists i :: 0 <= i < |files| && files[i].isDhcpServer && files[i].stat.Sized? && files[i].stat.size >= 100
      && forall j :: i < j < |files| ==> !(files[j].isDhcpServer && files[j].stat.Sized?)
  }

  predicate DiskIsKnown(p: Probes) {
    p.disk.Some? && "/" in p.disk.value
  }

  /** The checks after the one whether HBN is up take place. */
  predicate IsLate(p: Probes) {
    p.container && AllServicesRun(p)
  }

  /** How many alerts of each kind a check must raise. */
  function NumAlerts(params: Params, p: Probes, id: ProbeId): nat {
    var late, dhcp := IsLate(p), IsLate(p) && params.includeDhcpServer;
    var bgp := IsLate(p) && IsDaemonEnabled(p.daemons);
    var f := BgpHealth.Verified(p.bgp, params.bgp);
    match id
    case ContainerExists => Flag(!p.container)
    case DpuDiskUtilizationCheck => Flag(!DiskIsKnown(p))
    case DpuDiskUtilizationCritical => Flag(DiskIsKnown(p) && p.disk.value["/"] > MAX_DISK_UTILIZATION)
    case SupervisorctlStatus => Flag(p.container && p.supervisorctl.None?) + Flag(dhcp && p.supervisorctlAgain.None?)
    case ServiceRunning =>
      if p.container && p.supervisorctl.Some? then NumDown(p.supervisorctl.value, |EXPECTED_SERVICES|) else 0
    case RestrictedMode => Flag(p.container && params.runRestrictedModeCheck && !p.restrictedMode)
    case DhcpServer =>
      Flag(dhcp && p.supervisorctlAgain.Some? && !Runs(p.supervisorctlAgain.value, DHCP_SERVER_SERVICE))
    case Ifreload => Flag(late && p.ifreload != Some(""))
    case BgpDaemonEnabled => Flag(late && !IsDaemonEnabled(p.daemons))
    case BgpStats => Flag(bgp && f.otherErrors > 0)
    case BgpPeeringTor => if bgp then |f.unhealthyTors| else 0
    case BgpPeeringRouteServer => if bgp then |f.unhealthyServers| else 0
    case UnexpectedBgpPeer => if bgp then |f.unexpectedIpv4| + |f.unexpectedEvpn| else 0
    case FileExists => if late then NumMissing(p.files) else 0
    case FileIsValid => if late then NumInvalid(p.files) + Flag(!DhcpFileIsFine(p.files)) else 0
    case PostConfigCheckWait => Flag(late && params.hasChangedConfigs)
    case NvueApiRunning => 0
  }

  /** How often `id` is among the alerts. */
  function Raised(r: Report, id: ProbeId): nat {
    multiset(r.alerts)[id]
  }

  lemma JudgeRaises(r: Report, failing: ProbeId, ok: bool, id: ProbeId)
    ensures Raised(PassedIf(r, failing, ok), id) == Raised(r, id) + Flag(!ok && id == failing)
    ensures Raised(Failed(r, failing), id) == Raised(r, id) + Flag(id == failing)
  {
  }

  lemma {:induction false} TimesRaise(r: Report, failing: ProbeId, n: nat, id: ProbeId)
    ensures Raised(FailedTimes(r, failing, n), id) == Raised(r, id) + if id == failing then n else 0
  {
    if n > 0 {
      TimesRaise(r, failing, n - 1, id);
    }
  }

  lemma {:induction false} ServicesRaise(r: Report, status: map<string, SctlState>, n: nat, id: ProbeId)
    requires n <= |EXPECTED_SERVICES|
    ensures Raised(WithServices(r, status, n), id)
         == Raised(r, id) + if id == ServiceRunning then NumDown(status, n) else 0
  {
    if n > 0 {
      ServicesRaise(r, status, n - 1, id);
    }
  }

  lemma {:induction false} FilesRaise(r: Report, files: seq<FileProbe>, id: ProbeId)
    ensures Raised(WithFiles(r, files), id) == Raised(r, id)
      + (if id == FileExists then NumMissing(files) else if id == FileIsValid then NumInvalid(files) else 0)
  {
    if files != [] {
      FilesRaise(r, files[..|files| - 1], id);
    }
  }

  lemma {:induction false} DhcpFileExactlyWhen(files: seq<FileProbe>)
    ensures DhcpServerSize(files) >= MIN_SIZE <==> DhcpFileIsFine(files)
  {
    if files != [] {
      var front, last := files[..|files| - 1], files[|files| - 1];
      DhcpFileExactlyWhen(front);
      if last.isDhcpServer && last.stat.Sized? {
        assert last.stat.size >= MIN_SIZE ==> DhcpFileIsFine(files);
      } else {
        if DhcpFileIsFine(front) {
          var i :| 0 <= i < |front| && front[i].isDhcpServer && front[i].stat.Sized? && front[i].stat.size >= MIN_SIZE
            && forall j :: i < j < |front| ==> !(front[j].isDhcpServer && front[j].stat.Sized?);
          assert files[i] == front[i];
          assert forall j :: i < j < |files| ==> j == |front| || files[j] == front[j];
        }
        if DhcpFileIsFine(files) {
          var i :| 0 <= i < |files| && files[i].isDhcpServer && files[i].stat.Sized? && files[i].stat.size >= MIN_SIZE
            && forall j :: i < j < |files| ==> !(files[j].isDhcpServer && files[j].stat.Sized?);
          assert i < |front| && front[i] == files[i];
          assert forall j :: i < j < |front| ==> front[j] == files[j];
        }
      }
    }
  }

  lemma BgpRaises(r: Report, params: Params, p: Probes, id: ProbeId)
    ensures var f := BgpHealth.Verified(p.bgp, params.bgp);
      Raised(WithBgp(r, params, p), id) == Raised(r, id)
        + if BgpDaemonEnabled in r.alerts then 0
          else if id == BgpStats then Flag(f.otherErrors > 0)
          else if id == BgpPeeringTor then |f.unhealthyTors|
          else if id == BgpPeeringRouteServer then |f.unhealthyServers|
          else if id == UnexpectedBgpPeer then |f.unexpectedIpv4| + |f.unexpectedEvpn|
          else 0
  {
    hide BgpHealth.Verified, FailedTimes;
    if BgpDaemonEnabled !in r.alerts {
      var f := BgpHealth.Verified(p.bgp, params.bgp);
      var r1 := PassedIf(r, BgpStats, f.otherErrors == 0);
      var r2 := FailedTimes(r1, BgpPeeringTor, |f.unhealthyTors|);
      var r3 := FailedTimes(r2, BgpPeeringRouteServer, |f.unhealthyServers|);
      TimesRaise(r1, BgpPeeringTor, |f.unhealthyTors|, id);
      TimesRaise(r2, BgpPeeringRouteServer, |f.unhealthyServers|, id);
      TimesRaise(r3, UnexpectedBgpPeer, |f.unexpectedIpv4| + |f.unexpectedEvpn|, id);
    }
  }

  lemma EarlyRaises(params: Params, p: Probes, id: ProbeId)
    requires p.container
    ensures Raised(UpToServices(params, p), id) ==
      match id
      case DpuDiskUtilizationCheck => Flag(!DiskIsKnown(p))
      case DpuDiskUtilizationCritical => Flag(DiskIsKnown(p) && p.disk.value["/"] > MAX_DISK_UTILIZATION)
      case SupervisorctlStatus => Flag(p.supervisorctl.None?)
      case ServiceRunning =>
        if p.supervisorctl.Some? then NumDown(p.supervisorctl.value, |EXPECTED_SERVICES|) else 0
      case RestrictedMode => Flag(params.runRestrictedModeCheck && !p.restrictedMode)
      case _ => 0
  {
    hide WithServices, NumDown, PassedIf;
    var r := Passed(WithDisk(EMPTY, p), ContainerExists);
    JudgeRaises(WithHbnServices(r, p), RestrictedMode, p.restrictedMode, id);
    if p.supervisorctl.Some? {
      ServicesRaise(Passed(r, SupervisorctlStatus), p.supervisorctl.value, |EXPECTED_SERVICES|, id);
    }
  }

  lemma LateRaises(r: Report, params: Params, p: Probes, id: ProbeId)
    requires BgpDaemonEnabled !in r.alerts
    ensures var f := BgpHealth.Verified(p.bgp, params.bgp);
      var enabled := IsDaemonEnabled(p.daemons);
      Raised(WithLateChecks(r, params, p), id) == Raised(r, id) +
        match id
        case SupervisorctlStatus => Flag(params.includeDhcpServer && p.supervisorctlAgain.None?)
        case DhcpServer =>
          Flag(params.includeDhcpServer && p.supervisorctlAgain.Some?
               && !Runs(p.supervisorctlAgain.value, DHCP_SERVER_SERVICE))
        case Ifreload => Flag(p.ifreload != Some(""))
        case BgpDaemonEnabled => Flag(!enabled)
        case BgpStats => Flag(enabled && f.otherErrors > 0)
        case BgpPeeringTor => if enabled then |f.unhealthyTors| else 0
        case BgpPeeringRouteServer => if enabled then |f.unhealthyServers| else 0
        case UnexpectedBgpPeer => if enabled then |f.unexpectedIpv4| + |f.unexpectedEvpn| else 0
        case FileExists => NumMissing(p.files)
        case FileIsValid => NumInvalid(p.files) + Flag(!DhcpFileIsFine(p.files))
        case PostConfigCheckWait => Flag(params.hasChangedConfigs)
        case _ => 0
  {
    hide WithFiles, WithBgp, DhcpServerSize, DhcpFileIsFine, IsDaemonEnabled, NumMissing, NumInvalid;
    hide WithDhcpServer, PassedIf, Failed, Raised, BgpHealth.Verified;
    var r1 := if params.includeDhcpServer then WithDhcpServer(r, p) else r;
    DhcpRaises(r, p, id);
    DhcpRaises(r, p, BgpDaemonEnabled);
    var r2 := PassedIf(r1, Ifreload, p.ifreload == Some(""));
    JudgeRaises(r1, Ifreload, p.ifreload == Some(""), id);
    JudgeRaises(r1, Ifreload, p.ifreload == Some(""), BgpDaemonEnabled);
    var r3 := PassedIf(r2, BgpDaemonEnabled, IsDaemonEnabled(p.daemons));
    JudgeRaises(r2, BgpDaemonEnabled, IsDaemonEnabled(p.daemons), id);
    JudgeRaises(r2, BgpDaemonEnabled, IsDaemonEnabled(p.daemons), BgpDaemonEnabled);
    RaisedMeans(r, BgpDaemonEnabled);
    RaisedMeans(r3, BgpDaemonEnabled);
    BgpRaises(r3, params, p, id);
    var r4 := WithBgp(r3, params, p);
    FilesRaise(r4, p.files, id);
    DhcpFileExactlyWhen(p.files);
    var r5 := WithFiles(r4, p.files);
    JudgeRaises(r5, FileIsValid, false, id);
    var r6 := if DhcpServerSize(p.files) < MIN_SIZE then Failed(r5, FileIsValid) else r5;
    JudgeRaises(r6, PostConfigCheckWait, false, id);
  }

  lemma RaisedMeans(r: Report, id: ProbeId)
    ensures id in r.alerts <==> Raised(r, id) > 0
  {
  }

  lemma DhcpRaises(r: Report, p: Probes, id: ProbeId)
    ensures Raised(WithDhcpServer(r, p), id) == Raised(r, id) +
      match id
      case SupervisorctlStatus => Flag(p.supervisorctlAgain.None?)
      case DhcpServer => Flag(p.supervisorctlAgain.Some? && !Runs(p.supervisorctlAgain.value, DHCP_SERVER_SERVICE))
      case _ => 0
  {
  }

  /** For every outcome of the probes and every kind of alert, how often the check raises it. */
  lemma AlertsAreCounted(params: Params, p: Probes, id: ProbeId)
    ensures Raised(Checked(params, p), id) == NumAlerts(params, p, id)
  {
    hide WithLateChecks, UpToServices, NumDown, NumMissing, NumInvalid, DhcpFileIsFine, BgpHealth.Verified;
    if p.container {
      EarlyRaises(params, p, id);
      EarlyRaises(params, p, BgpDaemonEnabled);
      UpAfterServices(params, p);
      NumDownExactlyWhen(params, p);
      if IsUp(UpToServices(params, p)) {
        LateRaises(UpToServices(params, p), params, p, id);
      }
    }
  }

  lemma NumDownExactlyWhen(params: Params, p: Probes)
    ensures p.supervisorctl.Some? ==>
      (NumDown(p.supervisorctl.value, |EXPECTED_SERVICES|) == 0 <==> AllServicesRun(p))
  {
    if p.supervisorctl.Some? {
      NoneDown(p.supervisorctl.value, |EXPECTED_SERVICES|);
      ServicesAreExpected(p);
    }
  }

  lemma {:induction false} NoneDown(status: map<string, SctlState>, n: nat)
    requires n <= |EXPECTED_SERVICES|
    ensures NumDown(status, n) == 0 <==> forall i :: 0 <= i < n ==> Runs(status, EXPECTED_SERVICES[i])
  {
    if n > 0 {
      NoneDown(status, n - 1);
    }
  }

  lemma {:induction false} NoneBad(files: seq<FileProbe>)
    ensures NumMissing(files) == 0 && NumInvalid(files) == 0 <==>
      forall i :: 0 <= i < |files| ==> files[i].stat.Sized? && (files[i].isDhcpServer || files[i].stat.size >= MIN_SIZE)
  {
    if files != [] {
      NoneBad(files[..|files| - 1]);
    }
  }

  /** The text turns the daemon on somewhere and off nowhere. */
  ghost predicate TurnsDaemonOn(daemons: string) {
    && (exists i: nat :: OccursAt(daemons, "bgpd=yes", i))
    && (forall i: nat :: !OccursAt(daemons, "bgpd=no", i))
  }

  lemma DaemonEnabledExactlyWhen(daemons: Option<string>)
    ensures IsDaemonEnabled(daemons) <==> daemons.Some? && TurnsDaemonOn(daemons.value)
  {
    if daemons.Some? {
      ContainsMeans(daemons.value, "bgpd=yes");
      ContainsMeans(daemons.value, "bgpd=no");
    }
  }

  /** Everything the check looks at is as it should be. */
  ghost predicate IsFine(params: Params, p: Probes) {
    && DiskIsKnown(p) && p.disk.value["/"] <= 85
    && p.container && AllServicesRun(p)
    && (params.runRestrictedModeCheck ==> p.restrictedMode)
    && (params.includeDhcpServer ==>
          p.supervisorctlAgain.Some? && Runs(p.supervisorctlAgain.value, "forge-dhcp-server-default"))
    && p.ifreload == Some("")
    && p.daemons.Some? && TurnsDaemonOn(p.daemons.value)
    && p.bgp.Some? && BgpHealth.IsFine(p.bgp.value, params.bgp)
    && (forall i :: 0 <= i < |p.files| ==>
          p.files[i].stat.Sized? && (p.files[i].isDhcpServer || p.files[i].stat.size >= 100))
    && DhcpFileIsFine(p.files)
    && !params.hasChangedConfigs
  }

  lemma NothingFound(params: Params, p: Probes)
    ensures var f := BgpHealth.Verified(p.bgp, params.bgp);
      f.otherErrors == 0 && |f.unhealthyTors| == 0 && |f.unhealthyServers| == 0
        && |f.unexpectedIpv4| + |f.unexpectedEvpn| == 0 <==>
      p.bgp.Some? && BgpHealth.IsFine(p.bgp.value, params.bgp)
  {
    hide BgpHealth.Verified, BgpHealth.IsFine;
    BgpHealth.NothingFoundExactlyWhen(p.bgp, params.bgp);
  }

  lemma NoAlertsExactlyWhen(params: Params, p: Probes)
    ensures (forall id :: NumAlerts(params, p, id) == 0) <==> IsFine(params, p)
  {
    hide NumDown, NumMissing, NumInvalid, DhcpFileIsFine, IsDaemonEnabled, BgpHealth.Verified, BgpHealth.IsFine;
    hide TurnsDaemonOn;
    NothingFound(params, p);
    NumDownExactlyWhen(params, p);
    NoneBad(p.files);
    DaemonEnabledExactlyWhen(p.daemons);
    if forall id :: NumAlerts(params, p, id) == 0 {
      assert NumAlerts(params, p, ContainerExists) == 0 && NumAlerts(params, p, SupervisorctlStatus) == 0;
      assert NumAlerts(params, p, ServiceRunning) == 0 && NumAlerts(params, p, DpuDiskUtilizationCheck) == 0;
      assert NumAlerts(params, p, DpuDiskUtilizationCritical) == 0 && NumAlerts(params, p, RestrictedMode) == 0;
      assert NumAlerts(params, p, DhcpServer) == 0 && NumAlerts(params, p, Ifreload) == 0;
      assert NumAlerts(params, p, BgpDaemonEnabled) == 0 && NumAlerts(params, p, BgpStats) == 0;
      assert NumAlerts(params, p, BgpPeeringTor) == 0 && NumAlerts(params, p, BgpPeeringRouteServer) == 0;
      assert NumAlerts(params, p, UnexpectedBgpPeer) == 0 && NumAlerts(params, p, PostConfigCheckWait) == 0;
      assert NumAlerts(params, p, FileExists) == 0 && NumAlerts(params, p, FileIsValid) == 0;
    }
  }

  /** The report is healthy exactly when everything the check looks at is as it should be. */
  lemma HealthyExactlyWhen(params: Params, p: Probes)
    ensures IsHealthy(Checked(params, p)) <==> IsFine(params, p)
  {
    hide Checked, NumAlerts, IsFine;
    NoAlertsExactlyWhen(params, p);
    var r := Checked(params, p);
    forall id: ProbeId
      ensures multiset(r.alerts)[id] == NumAlerts(params, p, id)
    {
      AlertsAreCounted(params, p, id);
    }
    if r.alerts != [] {
      assert multiset(r.alerts)[r.alerts[0]] > 0;
    }
    if IsFine(params, p) {
      FineHasSuccess(params, p);
    }
  }

  lemma FineHasSuccess(params: Params, p: Probes)
    requires IsFine(params, p)
    ensures Checked(params, p).successes != []
  {
    hide WithLateChecks, UpToServices, BgpHealth.IsFine, DhcpFileIsFine, TurnsDaemonOn;
    UpExactlyWhen(params, p);
    assert IsUp(Checked(params, p));
  }

  /** Over the NVUE API the report is up, and healthy, exactly when the API answers. */
  lemma NvueApiExactlyWhen(alive: bool)
    ensures IsUp(NvueApiChecked(alive)) <==> alive
    ensures IsHealthy(NvueApiChecked(alive)) <==> alive
  {
  }

  // ---------------------------------------------------------------- how often each success is reported

  function NumUp(status: map<string, SctlState>, n: nat): nat
    requires n <= |EXPECTED_SERVICES|
  {
    if n == 0 then 0 else NumUp(status, n - 1) + Flag(Runs(status, EXPECTED_SERVICES[n - 1]))
  }

  function NumPresent(files: seq<FileProbe>): nat {
    if files == [] then 0 else NumPresent(files[..|files| - 1]) + Flag(files[|files| - 1].stat != Missing)
  }

  function NumSized(files: seq<FileProbe>): nat {
    if files == [] then 0 else NumSized(files[..|files| - 1]) + Flag(files[|files| - 1].stat.Sized?)
  }

  /** How many successes of each kind a check must report. A file that is too small counts among them as well. */
  function NumSuccesses(params: Params, p: Probes, id: ProbeId): nat {
    var late := IsLate(p);
    match id
    case ContainerExists => Flag(p.container)
    case DpuDiskUtilizationCheck => Flag(DiskIsKnown(p) && p.disk.value["/"] <= MAX_DISK_UTILIZATION)
    case SupervisorctlStatus => Flag(p.container && p.supervisorctl.Some?)
    case ServiceRunning =>
      if p.container && p.supervisorctl.Some? then NumUp(p.supervisorctl.value, |EXPECTED_SERVICES|) else 0
    case RestrictedMode => Flag(p.container && params.runRestrictedModeCheck && p.restrictedMode)
    case DhcpServer =>
      Flag(late && params.includeDhcpServer && p.supervisorctlAgain.Some?
           && Runs(p.supervisorctlAgain.value, DHCP_SERVER_SERVICE))
    case Ifreload => Flag(late && p.ifreload == Some(""))
    case BgpDaemonEnabled => Flag(late && IsDaemonEnabled(p.daemons))
    case BgpStats => Flag(late && IsDaemonEnabled(p.daemons) && BgpHealth.Verified(p.bgp, params.bgp).otherErrors == 0)
    case FileExists => if late then NumPresent(p.files) else 0
    case FileIsValid => if late then NumSized(p.files) else 0
    case _ => 0
  }

  /** How often `id` is among the successes. */
  function Succeeded(r: Report, id: ProbeId): nat {
    multiset(r.successes)[id]
  }

  lemma JudgeSucceeds(r: Report, judged: ProbeId, ok: bool, id: ProbeId)
    ensures Succeeded(PassedIf(r, judged, ok), id) == Succeeded(r, id) + Flag(ok && id == judged)
    ensures Succeeded(Failed(r, judged), id) == Succeeded(r, id)
  {
  }

  lemma {:induction false} TimesSucceed(r: Report, failing: ProbeId, n: nat, id: ProbeId)
    ensures Succeeded(FailedTimes(r, failing, n), id) == Succeeded(r, id)
  {
    if n > 0 {
      TimesSucceed(r, failing, n - 1, id);
    }
  }

  lemma {:induction false} ServicesSucceed(r: Report, status: map<string, SctlState>, n: nat, id: ProbeId)
    requires n <= |EXPECTED_SERVICES|
    ensures Succeeded(WithServices(r, status, n), id)
         == Succeeded(r, id) + if id == ServiceRunning then NumUp(status, n) else 0
  {
    if n > 0 {
      ServicesSucceed(r, status, n - 1, id);
    }
  }

  lemma {:induction false} FilesSucceed(r: Report, files: seq<FileProbe>, id: ProbeId)
    ensures Succeeded(WithFiles(r, files), id) == Succeeded(r, id)
      + (if id == FileExists then NumPresent(files) else if id == FileIsValid then NumSized(files) else 0)
  {
    if files != [] {
      FilesSucceed(r, files[..|files| - 1], id);
    }
  }

  lemma BgpSucceeds(r: Report, params: Params, p: Probes, id: ProbeId)
    ensures Succeeded(WithBgp(r, params, p), id) == Succeeded(r, id)
      + Flag(BgpDaemonEnabled !in r.alerts && id == BgpStats && BgpHealth.Verified(p.bgp, params.bgp).otherErrors == 0)
  {
    hide BgpHealth.Verified, FailedTimes;
    if BgpDaemonEnabled !in r.alerts {
      var f := BgpHealth.Verified(p.bgp, params.bgp);
      var r1 := PassedIf(r, BgpStats, f.otherErrors == 0);
      var r2 := FailedTimes(r1, BgpPeeringTor, |f.unhealthyTors|);
      var r3 := FailedTimes(r2, BgpPeeringRouteServer, |f.unhealthyServers|);
      TimesSucceed(r1, BgpPeeringTor, |f.unhealthyTors|, id);
      TimesSucceed(r2, BgpPeeringRouteServer, |f.unhealthyServers|, id);
      TimesSucceed(r3, UnexpectedBgpPeer, |f.unexpectedIpv4| + |f.unexpectedEvpn|, id);
    }
  }

  lemma EarlySucceeds(params: Params, p: Probes, id: ProbeId)
    requires p.container
    ensures Succeeded(UpToServices(params, p), id) ==
      match id
      case ContainerExists => 1
      case DpuDiskUtilizationCheck => Flag(DiskIsKnown(p) && p.disk.value["/"] <= MAX_DISK_UTILIZATION)
      case SupervisorctlStatus => Flag(p.supervisorctl.Some?)
      case ServiceRunning =>
        if p.supervisorctl.Some? then NumUp(p.supervisorctl.value, |EXPECTED_SERVICES|) else 0
      case RestrictedMode => Flag(params.runRestrictedModeCheck && p.restrictedMode)
      case _ => 0
  {
    hide WithServices, NumUp, PassedIf;
    var r := Passed(WithDisk(EMPTY, p), ContainerExists);
    JudgeSucceeds(WithHbnServices(r, p), RestrictedMode, p.restrictedMode, id);
    if p.supervisorctl.Some? {
      ServicesSucceed(Passed(r, SupervisorctlStatus), p.supervisorctl.value, |EXPECTED_SERVICES|, id);
    }
  }

  lemma LateSucceeds(r: Report, params: Params, p: Probes, id: ProbeId)
    requires BgpDaemonEnabled !in r.alerts
    ensures var enabled := IsDaemonEnabled(p.daemons);
      Succeeded(WithLateChecks(r, params, p), id) == Succeeded(r, id) +
        match id
        case DhcpServer =>
          Flag(params.includeDhcpServer && p.supervisorctlAgain.Some?
               && Runs(p.supervisorctlAgain.value, DHCP_SERVER_SERVICE))
        case Ifreload => Flag(p.ifreload == Some(""))
        case BgpDaemonEnabled => Flag(enabled)
        case BgpStats => Flag(enabled && BgpHealth.Verified(p.bgp, params.bgp).otherErrors == 0)
        case FileExists => NumPresent(p.files)
        case FileIsValid => NumSized(p.files)
        case _ => 0
  {
    hide WithFiles, WithBgp, DhcpServerSize, IsDaemonEnabled, NumPresent, NumSized;
    hide WithDhcpServer, PassedIf, Failed, Raised, Succeeded, BgpHealth.Verified;
    var r1 := if params.includeDhcpServer then WithDhcpServer(r, p) else r;
    DhcpSucceeds(r, p, id);
    DhcpRaises(r, p, BgpDaemonEnabled);
    var r2 := PassedIf(r1, Ifreload, p.ifreload == Some(""));
    JudgeSucceeds(r1, Ifreload, p.ifreload == Some(""), id);
    JudgeRaises(r1, Ifreload, p.ifreload == Some(""), BgpDaemonEnabled);
    var r3 := PassedIf(r2, BgpDaemonEnabled, IsDaemonEnabled(p.daemons));
    JudgeSucceeds(r2, BgpDaemonEnabled, IsDaemonEnabled(p.daemons), id);
    JudgeRaises(r2, BgpDaemonEnabled, IsDaemonEnabled(p.daemons), BgpDaemonEnabled);
    RaisedMeans(r, BgpDaemonEnabled);
    RaisedMeans(r3, BgpDaemonEnabled);
    BgpSucceeds(r3, params, p, id);
    var r4 := WithBgp(r3, params, p);
    FilesSucceed(r4, p.files, id);
    var r5 := WithFiles(r4, p.files);
    JudgeSucceeds(r5, FileIsValid, false, id);
    var r6 := if DhcpServerSize(p.files) < MIN_SIZE then Failed(r5, FileIsValid) else r5;
    JudgeSucceeds(r6, PostConfigCheckWait, false, id);
  }

  lemma DhcpSucceeds(r: Report, p: Probes, id: ProbeId)
    ensures Succeeded(WithDhcpServer(r, p), id) == Succeeded(r, id)
      + Flag(id == DhcpServer && p.supervisorctlAgain.Some?
             && Runs(p.supervisorctlAgain.value, DHCP_SERVER_SERVICE))
  {
  }

  /** For every outcome of the probes and every kind of success, how often the check reports it. */
  lemma SuccessesAreCounted(params: Params, p: Probes, id: ProbeId)
    ensures Succeeded(Checked(params, p), id) == NumSuccesses(params, p, id)
  {
    hide WithLateChecks, UpToServices, NumUp, NumPresent, NumSized, BgpHealth.Verified;
    if p.container {
      EarlySucceeds(params, p, id);
      EarlyRaises(params, p, BgpDaemonEnabled);
      UpAfterServices(params, p);
      if IsUp(UpToServices(params, p)) {
        LateSucceeds(UpToServices(params, p), params, p, id);
      }
    }
  }
}
