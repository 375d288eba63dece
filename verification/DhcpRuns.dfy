/** Runs of `update_dhcp` calls: leftovers that run out, commands that fail, rendering that fails. */
module DhcpRuns {
  import opened Text
  import opened ConfigFiles
  import opened DhcpFiles

  /**
   * The disk after calls with the same inputs, one per element of `works`, which says whether its command would work.
   */
  function Calls(d: Disk, r: Rendered, stop: bool, skip: bool, works: seq<bool>): Disk
    decreases |works|
  {
    if works == [] then d
    else AfterUpdate(Calls(d, r, stop, skip, works[..|works| - 1]), r, stop, skip, works[|works| - 1]).disk
  }

  /** Whether the call after those runs a command. */
  predicate Runs(d: Disk, r: Rendered, stop: bool, works: seq<bool>) {
    AfterUpdate(Calls(d, r, stop, false, works), r, stop, false, true).command.Some?
  }

  /** A command runs or not before its outcome is known. */
  lemma RunsExactlyWhenDue(d: Disk, r: Rendered, stop: bool, works: seq<bool>, w: bool)
    requires Complete(r)
    ensures var e := Calls(d, r, stop, false, works);
      && (Runs(d, r, stop, works) <==> Due(e, r))
      && (AfterUpdate(e, r, stop, false, w).command.Some? <==> Runs(d, r, stop, works))
  {
    hide AfterUpdate, Calls, Due;
    UpdateEffect(Calls(d, r, stop, false, works), r, stop, false, true);
    UpdateEffect(Calls(d, r, stop, false, works), r, stop, false, w);
  }

  lemma {:induction false} LeftoversRunOut(d: Disk, r: Rendered, stop: bool, skip: bool, works: seq<bool>)
    ensures works != [] ==> Leftovers(Calls(d, r, stop, skip, works)) <= if |works| <= 4 then 4 - |works| else 0
    decreases |works|
  {
    hide AfterUpdate, Leftovers;
    if works != [] {
      var n := |works| - 1;
      LeftoversRunOut(d, r, stop, skip, works[..n]);
      UpdateShedsLeftovers(Calls(d, r, stop, skip, works[..n]), r, stop, skip, works[n]);
    }
  }

  /**
   * Convergence: from any disk and any rendered contents, and whatever became of earlier commands, every call from the
   * fifth on is quiet if the call before it did not fail: it runs no command and reports no change.
   */
  lemma UpdateConverges(d: Disk, r: Rendered, stop: bool, skip: bool, works: seq<bool>, w: bool)
    requires Complete(r)
    requires |works| >= 4
    requires skip || works[|works| - 1]
    ensures AfterUpdate(Calls(d, r, stop, skip, works), r, stop, skip, w).command == None
    ensures AfterUpdate(Calls(d, r, stop, skip, works), r, stop, skip, w).result == Ok(false)
  {
    hide AfterUpdate, Leftovers;
    LeftoversRunOut(d, r, stop, skip, works);
    var n := |works| - 1;
    UpdateEffect(Calls(d, r, stop, skip, works[..n]), r, stop, skip, works[n]);
    UpdateEffect(Calls(d, r, stop, skip, works), r, stop, skip, w);
  }

  /** Once a call is quiet, all later ones are: the noisy calls are an initial segment. */
  lemma {:induction false} QuietIsForever(d: Disk, r: Rendered, stop: bool, skip: bool, works: seq<bool>, w: bool)
    requires Complete(r)
    requires !Due(d, r)
    ensures var s := AfterUpdate(Calls(d, r, stop, skip, works), r, stop, skip, w);
      s.result == Ok(false) && s.command == None
    ensures SameServerFiles(d, Calls(d, r, stop, skip, works))
    decreases |works|
  {
    hide AfterUpdate, Leftovers;
    UpdateEffect(Calls(d, r, stop, skip, works), r, stop, skip, w);
    if works != [] {
      var n := |works| - 1;
      QuietIsForever(d, r, stop, skip, works[..n], works[n]);
      UpdateEffect(Calls(d, r, stop, skip, works[..n]), r, stop, skip, works[n]);
      UpdateShedsLeftovers(Calls(d, r, stop, skip, works[..n]), r, stop, skip, works[n]);
    }
  }

  /** The bound of four is reached: every leftover but one costs a call of its own. */
  lemma FourNoisyCalls(r: Rendered, stop: bool, works: seq<bool>)
    requires Complete(r)
    requires |works| < 4
    ensures var d: Disk := map[Path(DhcpRelay, Live) := BLANK, Path(DhcpRelay, Test) := "", Path(DhcpRelay, Bak) := "",
                               Path(DhcpRelayNvue, Test) := "", Path(DhcpRelayNvue, Bak) := ""];
      Runs(d, r, stop, works)
  {
    var d: Disk := map[Path(DhcpRelay, Live) := BLANK, Path(DhcpRelay, Test) := "", Path(DhcpRelay, Bak) := "",
                       Path(DhcpRelayNvue, Test) := "", Path(DhcpRelayNvue, Bak) := ""];
    assert Leftovers(d) == 4;
    LeftoversGoOneByOne(d, r, stop, works);
    hide Calls, AfterUpdate, Leftovers;
    RunsExactlyWhenDue(d, r, stop, works, true);
  }

  lemma {:induction false} LeftoversGoOneByOne(d: Disk, r: Rendered, stop: bool, works: seq<bool>)
    requires Complete(r)
    requires |works| <= Leftovers(d)
    requires Get(d, Path(DhcpRelay, Live)) == Some(BLANK)
    requires Path(DhcpRelay, Tmp) !in d && Path(DhcpRelayNvue, Tmp) !in d
    ensures var d' := Calls(d, r, stop, false, works);
      && Leftovers(d') == Leftovers(d) - |works|
      && Get(d', Path(DhcpRelay, Live)) == Some(BLANK)
      && Path(DhcpRelay, Tmp) !in d' && Path(DhcpRelayNvue, Tmp) !in d'
    decreases |works|
  {
    hide AfterUpdate, Leftovers;
    if works != [] {
      var n := |works| - 1;
      LeftoversGoOneByOne(d, r, stop, works[..n]);
      OneLeftoverGoes(Calls(d, r, stop, false, works[..n]), r, stop, works[n]);
    }
  }

  lemma OneLeftoverGoes(d: Disk, r: Rendered, stop: bool, works: bool)
    requires Complete(r)
    requires Leftovers(d) > 0
    requires Get(d, Path(DhcpRelay, Live)) == Some(BLANK)
    requires Path(DhcpRelay, Tmp) !in d && Path(DhcpRelayNvue, Tmp) !in d
    ensures var d' := AfterUpdate(d, r, stop, false, works).disk;
      && Leftovers(d') == Leftovers(d) - 1
      && Get(d', Path(DhcpRelay, Live)) == Some(BLANK)
      && Path(DhcpRelay, Tmp) !in d' && Path(DhcpRelayNvue, Tmp) !in d'
  {
    hide AfterRelayCleanup, AfterServerFiles, AfterPosts, AfterDrops, Leftovers, Settled;
    var io := WorkingUpdate(works);
    var d1 := AfterRelayCleanup(d, WORKING_RELAY_CLEANUP).0;
    RelayCleanupEffect(d);
    CleanupTakesOne(d);
    ServerFilesKeepRelays(d1, r);
    var d2 := AfterServerFiles(d1, r, WORKING_FILES).0;
    var d3 := AfterPosts(d2, false, [PostAction(DhcpServer, io.post)]).0;
    ServerFilesEffect(d1, r);
    ServerPostEffect(d2, false, works);
    DropsKeepOthers(d3, io.drops.(server := false));
    var d' := AfterUpdate(d, r, stop, false, works).disk;
    assert d' == AfterDrops(d3, io.drops.(server := false));
    assert Get(d2, Path(DhcpRelayNvue, Tmp)) == Get(d1, Path(DhcpRelayNvue, Tmp));
    SameLeftovers(d1, d');
  }

  lemma CleanupTakesOne(d: Disk)
    requires Leftovers(d) > 0
    requires Path(DhcpRelay, Tmp) !in d && Path(DhcpRelayNvue, Tmp) !in d
    ensures var d' := AfterRelayCleanup(d, WORKING_RELAY_CLEANUP).0;
      && Leftovers(d') == Leftovers(d) - 1
      && Path(DhcpRelay, Tmp) !in d' && Path(DhcpRelayNvue, Tmp) !in d'
  {
  }

  lemma SameLeftovers(d: Disk, d': Disk)
    requires forall p: Path :: (p.file == DhcpRelay || p.file == DhcpRelayNvue) && (p.role == Test || p.role == Bak) ==>
      Get(d', p) == Get(d, p)
    requires Path(DhcpRelay, Tmp) !in d && Path(DhcpRelayNvue, Tmp) !in d
    requires Path(DhcpRelay, Tmp) !in d' && Path(DhcpRelayNvue, Tmp) !in d'
    ensures Leftovers(d') == Leftovers(d)
  {
    assert Get(d', Path(DhcpRelay, Test)) == Get(d, Path(DhcpRelay, Test));
    assert Get(d', Path(DhcpRelay, Bak)) == Get(d, Path(DhcpRelay, Bak));
    assert Get(d', Path(DhcpRelayNvue, Test)) == Get(d, Path(DhcpRelayNvue, Test));
    assert Get(d', Path(DhcpRelayNvue, Bak)) == Get(d, Path(DhcpRelayNvue, Bak));
  }

  lemma ServerFilesKeepRelays(d: Disk, r: Rendered)
    requires Complete(r)
    requires Get(d, Path(DhcpRelay, Live)) == Some(BLANK)
    ensures var d' := AfterServerFiles(d, r, WORKING_FILES).0;
      forall p: Path :: (p.file == DhcpRelay || p.file == DhcpRelayNvue) && p.role != Tmp && p.role != Error ==>
        Get(d', p) == Get(d, p)
  {
    hide AfterReplace, Settled;
    var d1 := AfterReplace(d, DhcpRelay, BLANK, WORKING_REPLACE).0;
    var d2 := AfterReplace(d1, DhcpServer, r.server.value, WORKING_REPLACE).0;
    var d3 := AfterReplace(d2, DhcpServerConfig, r.config.value, WORKING_REPLACE).0;
    ReplaceEffect(d, DhcpRelay, BLANK);
    BlankIsUpToDate(d);
    ReplaceEffect(d1, DhcpServer, r.server.value);
    ReplaceEffect(d2, DhcpServerConfig, r.config.value);
    ReplaceEffect(d3, DhcpServerHostConfig, r.hostConfig.value);
  }

  lemma BlankIsUpToDate(d: Disk)
    requires Get(d, Path(DhcpRelay, Live)) == Some(BLANK)
    ensures UpToDate(d, DhcpRelay, BLANK)
  {
  }

  // ---------------------------------------------------------------- commands that fail

  /** A failed command leaves a server file that the next call rewrites. */
  predicate LeavesServerOutdated(d: Disk, r: Rendered)
    requires Complete(r)
  {
    && |r.server.value| <= MAX_EXPECTED_SIZE
    && match AfterFailedCommand(d, r)
       case None => true
       case Some(backup) => |backup| <= MAX_EXPECTED_SIZE && backup != r.server.value
  }

  /**
   * A failed command rarely brings the old server file back, because `write_dhcp_v4_server_config` deletes the backup
   * that `do_post` restores from. Exactly when the file ends as it was: it was absent and could be written, or it was
   * left alone and a backup equal to it (or none beside no file) lay around. And exactly when the next call retries.
   */
  lemma FailedReloadLosesServerFile(d: Disk, r: Rendered, stop: bool, w: bool)
    requires Complete(r)
    requires Due(d, r)
    ensures var s := AfterUpdate(d, r, stop, false, false);
      var live, bak := Get(d, Path(DhcpServer, Live)), Get(d, Path(DhcpServer, Bak));
      && s.result == Err
      && Get(s.disk, Path(DhcpServer, Live)) == AfterFailedCommand(d, r)
      && (Get(s.disk, Path(DhcpServer, Live)) == live <==>
            if UpToDate(d, DhcpServer, r.server.value) then bak == live else live == None)
      && (AfterUpdate(s.disk, r, stop, false, w).command.Some? <==> LeavesServerOutdated(d, r) || LeavesLeftover(d))
  {
    NextCallRunsExactlyWhen(d, r, stop, false, w);
    hide AfterUpdate, Leftovers, LeavesLeftover;
    UpdateEffect(d, r, stop, false, false);
  }

  /** Whether a call runs a command is decided by the call before it. */
  lemma NextCallRunsExactlyWhen(d: Disk, r: Rendered, stop: bool, w: bool, w': bool)
    requires Complete(r)
    ensures var s := AfterUpdate(d, r, stop, false, w);
      AfterUpdate(s.disk, r, stop, false, w').command.Some? <==>
      (Due(d, r) && !w && LeavesServerOutdated(d, r)) || LeavesLeftover(d)
  {
    hide AfterUpdate, Leftovers, LeavesLeftover;
    UpdateLeavesLeftover(d, r, stop, false, w);
    UpdateEffect(d, r, stop, false, w);
    UpdateEffect(AfterUpdate(d, r, stop, false, w).disk, r, stop, false, w');
  }

  /** If the next call runs a command although one was made, the one made ran a command too, and left no backup. */
  lemma NoisyCallsLeaveNoBackup(d: Disk, r: Rendered, stop: bool, works: seq<bool>)
    requires Complete(r)
    requires works != [] && Runs(d, r, stop, works)
    ensures Runs(d, r, stop, works[..|works| - 1])
    ensures Path(DhcpServer, Bak) !in Calls(d, r, stop, false, works)
  {
    hide AfterUpdate, Leftovers, LeavesLeftover;
    var n := |works| - 1;
    var e := Calls(d, r, stop, false, works[..n]);
    NextCallRunsExactlyWhen(e, r, stop, works[n], true);
    UpdateLeavesLeftover(e, r, stop, false, works[n]);
    UpdateShedsLeftovers(e, r, stop, false, works[n]);
    UpdateEffect(e, r, stop, false, works[n]);
    UpdateEffect(e, r, stop, false, true);
  }

  /**
   * From any disk and over any run with any outcomes: from the fifth call on, a command runs exactly if the fourth call
   * ran one, no command has worked since, and the server file fits the size limit. So commands are repeated up to and
   * including the first success and never after it.
   */
  lemma {:induction false} CommandsEndWithSuccess(d: Disk, r: Rendered, stop: bool, works: seq<bool>)
    requires Complete(r)
    requires |works| >= 4
    ensures Runs(d, r, stop, works) <==>
      Runs(d, r, stop, works[..3]) && true !in works[3..] && |r.server.value| <= MAX_EXPECTED_SIZE
    decreases |works|
  {
    var n := |works| - 1;
    hide AfterUpdate, Leftovers, Runs;
    LeftoversRunOut(d, r, stop, false, works);
    StepOfRun(d, r, stop, works);
    assert works[3..] == works[3..n] + [works[n]];
    if n > 3 {
      CommandsEndWithSuccess(d, r, stop, works[..n]);
      assert works[..n][3..] == works[3..n] && works[..n][..3] == works[..3];
    } else {
      assert works[..n] == works[..3] && works[3..n] == [];
    }
    if Runs(d, r, stop, works[..n]) {
      NoisyCallsLeaveNoBackup(d, r, stop, works[..n]);
    }
  }

  lemma StepOfRun(d: Disk, r: Rendered, stop: bool, works: seq<bool>)
    requires Complete(r)
    requires works != []
    ensures var n := |works| - 1;
      var e := Calls(d, r, stop, false, works[..n]);
      && (Runs(d, r, stop, works) <==>
            (Runs(d, r, stop, works[..n]) && !works[n] && LeavesServerOutdated(e, r))
            || Leftovers(Calls(d, r, stop, false, works)) > 0)
  {
    hide AfterUpdate, Leftovers, LeavesServerOutdated, LeavesLeftover;
    var n := |works| - 1;
    UpdateLeavesLeftover(Calls(d, r, stop, false, works[..n]), r, stop, false, works[n]);
    RunsExactlyWhenDue(d, r, stop, works[..n], true);
    NextCallRunsExactlyWhen(Calls(d, r, stop, false, works[..n]), r, stop, works[n], true);
  }

  /**
   * From a disk without relay leftovers and without a stale backup of an up-to-date server file this holds from the
   * first call on; and while commands fail there is no server file.
   */
  lemma {:induction false} CommandsRunUntilSuccess(d: Disk, r: Rendered, stop: bool, works: seq<bool>)
    requires Complete(r)
    requires Leftovers(d) == 0
    requires Path(DhcpServer, Bak) !in d || !UpToDate(d, DhcpServer, r.server.value)
    ensures Runs(d, r, stop, works) <==>
      !AllUpToDate(d, r) && true !in works && (works == [] || |r.server.value| <= MAX_EXPECTED_SIZE)
    ensures Leftovers(Calls(d, r, stop, false, works)) == 0
    ensures works != [] && Runs(d, r, stop, works) ==> Path(DhcpServer, Live) !in Calls(d, r, stop, false, works)
    ensures true in works ==> AllUpToDate(Calls(d, r, stop, false, works), r)
    decreases |works|
  {
    hide AfterUpdate, Leftovers, Runs;
    RunsExactlyWhenDue(d, r, stop, works, true);
    if works != [] {
      var n := |works| - 1;
      var e := Calls(d, r, stop, false, works[..n]);
      assert works == works[..n] + [works[n]];
      CommandsRunUntilSuccess(d, r, stop, works[..n]);
      RunsExactlyWhenDue(d, r, stop, works[..n], works[n]);
      UpdateShedsLeftovers(e, r, stop, false, works[n]);
      StepOfRun(d, r, stop, works);
      UpdateEffect(e, r, stop, false, works[n]);
      if n > 0 && Runs(d, r, stop, works[..n]) {
        NoisyCallsLeaveNoBackup(d, r, stop, works[..n]);
      }
    }
  }

  // ---------------------------------------------------------------- relay files that change

  /**
   * The relay must stop when its configuration goes, but only leftovers and server files count for the reload. Exactly
   * when a call changes a relay file and runs no command; and then no later call runs one either, whatever happens.
   */
  lemma RelayChangeIsLostExactlyWhen(d: Disk, r: Rendered, stop: bool, w: bool, works: seq<bool>)
    requires Complete(r)
    ensures var s := AfterUpdate(d, r, stop, false, w);
      var silent := !SameRelayFiles(d, s.disk) && s.command == None;
      && (silent <==> (!UpToDate(d, DhcpRelay, BLANK) || Path(DhcpRelayNvue, Live) in d) && !Due(d, r))
      && (silent ==> s.result == Ok(false) && !Runs(s.disk, r, stop, works))
  {
    hide AfterUpdate, Leftovers;
    UpdateEffect(d, r, stop, false, w);
    if !Due(d, r) {
      var e := AfterUpdate(d, r, stop, false, w).disk;
      UpdateShedsLeftovers(d, r, stop, false, w);
      assert !Due(e, r);
      QuietIsForever(e, r, stop, false, works, true);
    }
  }

  /** A disk with current server files and both relay configurations, and nothing else. */
  function WithRelays(r: Rendered, relay: Contents, nvue: Contents): Disk
    requires Complete(r)
  {
    map[Path(DhcpRelay, Live) := relay, Path(DhcpRelayNvue, Live) := nvue, Path(DhcpServer, Live) := r.server.value,
        Path(DhcpServerConfig, Live) := r.config.value, Path(DhcpServerHostConfig, Live) := r.hostConfig.value]
  }

  /** The code at fault: both relay configurations go, and no call ever reloads. */
  lemma RelaysGoUnannounced(r: Rendered, relay: Contents, nvue: Contents, stop: bool, w: bool, works: seq<bool>)
    requires Complete(r) && relay != BLANK && |relay| <= MAX_EXPECTED_SIZE
    ensures var s := AfterUpdate(WithRelays(r, relay, nvue), r, stop, false, w);
      && s.result == Ok(false) && s.command == None && !Runs(s.disk, r, stop, works)
      && Get(s.disk, Path(DhcpRelay, Live)) == Some(BLANK) && Path(DhcpRelayNvue, Live) !in s.disk
  {
    hide AfterUpdate;
    var d := WithRelays(r, relay, nvue);
    assert AllUpToDate(d, r) && Leftovers(d) == 0;
    UpdateEffect(d, r, stop, false, w);
    hide Leftovers;
    RelayChangeIsLostExactlyWhen(d, r, stop, w, works);
  }

  // ---------------------------------------------------------------- rendering that fails

  /** Where rendering stops. */
  datatype Stage = AtInputs | AtServer | AtConfig | AtHostConfig

  function FailedAt(r: Rendered, at: Stage): Rendered {
    match at
    case AtInputs => r.(inputs := false)
    case AtServer => r.(server := None)
    case AtConfig => r.(config := None)
    case AtHostConfig => r.(hostConfig := None)
  }

  /** The files that the failed call did not get to were up to date. */
  predicate RestUpToDate(d: Disk, r: Rendered, at: Stage)
    requires Complete(r)
  {
    && (at == AtInputs || at == AtServer ==> UpToDate(d, DhcpServer, r.server.value))
    && (at != AtHostConfig ==> UpToDate(d, DhcpServerConfig, r.config.value))
    && UpToDate(d, DhcpServerHostConfig, r.hostConfig.value)
  }

  /**
   * A call whose rendering fails, at any point, runs no command although it may have replaced files and deleted
   * leftovers. The next complete call makes up for it unless the files not reached were up to date and no leftover
   * remains. So a command that working rendering would have run is lost, and for good, exactly when one was due and
   * that is so.
   */
  lemma RenderFailureLosesReload(d: Disk, r: Rendered, at: Stage, stop: bool, w: bool, works: seq<bool>)
    requires Complete(r)
    ensures var first := AfterUpdate(d, FailedAt(r, at), stop, false, w);
      var nothingLeft := RestUpToDate(d, r, at) && !LeavesLeftover(d);
      && first.command == None && first.result == Err
      && (Runs(first.disk, r, stop, []) <==> !nothingLeft)
      && (Runs(d, r, stop, []) && !Runs(first.disk, r, stop, []) <==> Due(d, r) && nothingLeft)
      && (nothingLeft ==> !Runs(first.disk, r, stop, works))
      && (at == AtConfig || at == AtHostConfig ==> UpToDate(first.disk, DhcpServer, r.server.value))
      && Leftovers(first.disk) <= Leftovers(d)
  {
    hide AfterUpdate, Leftovers, Settled, LeavesLeftover;
    IncompleteUpdateEffect(d, FailedAt(r, at), stop, w);
    UpdateShedsLeftovers(d, FailedAt(r, at), stop, false, w);
    UpdateLeavesLeftover(d, FailedAt(r, at), stop, false, w);
    var first := AfterUpdate(d, FailedAt(r, at), stop, false, w);
    SettledTwice(Get(d, Path(DhcpServer, Live)), r.server.value);
    SettledTwice(Get(d, Path(DhcpServerConfig, Live)), r.config.value);
    RunsExactlyWhenDue(d, r, stop, [], true);
    RunsExactlyWhenDue(first.disk, r, stop, [], true);
    if !Due(first.disk, r) {
      QuietIsForever(first.disk, r, stop, false, works, true);
    }
  }

  lemma SettledTwice(c: Option<Contents>, next: Contents)
    ensures Settled(Settled(c, next), next) == Settled(c, next)
  {
  }

  lemma IncompleteUpdateEffect(d: Disk, r: Rendered, stop: bool, w: bool)
    requires !Complete(r)
    ensures var s := AfterUpdate(d, r, stop, false, w);
      && s.command == None && s.result == Err
      && Get(s.disk, Path(DhcpServer, Live)) == Reached(d, DhcpServer, ReachesServer(r), r.server)
      && Get(s.disk, Path(DhcpServerConfig, Live)) == Reached(d, DhcpServerConfig, ReachesConfig(r), r.config)
      && Get(s.disk, Path(DhcpServerHostConfig, Live)) == Get(d, Path(DhcpServerHostConfig, Live))
  {
    hide AfterRelayCleanup, AfterServerFiles, AfterDrops, Settled, Leftovers;
    var d1 := AfterRelayCleanup(d, WORKING_RELAY_CLEANUP).0;
    RelayCleanupEffect(d);
    ServerFilesEffect(d1, r);
    DropsKeepOthers(AfterServerFiles(d1, r, WORKING_FILES).0, WORKING_DROPS);
    assert Get(d1, Path(DhcpServer, Live)) == Get(d, Path(DhcpServer, Live));
    assert Get(d1, Path(DhcpServerConfig, Live)) == Get(d, Path(DhcpServerConfig, Live));
    assert Get(d1, Path(DhcpServerHostConfig, Live)) == Get(d, Path(DhcpServerHostConfig, Live));
  }
}
