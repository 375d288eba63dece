/** `reset`: blank the DHCP files, remove the NVUE startup file, reload what changed. */
module NetworkReset {
  import opened Text
  import opened ConfigFiles
  import opened DhcpFiles
  import opened DhcpRuns
  import NvueFiles

  /** How each file operation and each of the two reloads ends. */
  datatype ResetIo = ResetIo(
    relay: WriteIo, server: WriteIo, removeNvue: bool, relayReload: bool, serverReload: bool,
    dropRelay: bool, dropServer: bool, dropNvue: bool)

  function WorkingReset(relayReload: bool, serverReload: bool): ResetIo {
    ResetIo(WORKING_WRITE, WORKING_WRITE, true, relayReload, serverReload, true, true, true)
  }

  /** The disk, the reloads run and the errors collected for the log. */
  datatype ResetStep = ResetStep(disk: Disk, reloads: nat, errors: nat)

  /** The drop of the three paths. */
  function AfterResetDrops(d: Disk, io: ResetIo): Disk {
    Dropped(Dropped(Dropped(d, DhcpRelay, io.dropRelay), DhcpServer, io.dropServer), NvueStartup, io.dropNvue)
  }

  function AfterFaultyReset(d: Disk, skip: bool, io: ResetIo): ResetStep {
    var (d1, relay) := AfterWrite(d, DhcpRelay, BLANK, false, io.relay);
    var (d2, server) := AfterWrite(d1, DhcpServer, BLANK, false, io.server);
    var d3 := if io.removeNvue then d2 - {Path(NvueStartup, Live)} else d2;
    var relayPost, serverPost := !skip && relay == Ok(true), !skip && server == Ok(true);
    ResetStep(
      AfterResetDrops(d3, io),
      Flag(relayPost) + Flag(serverPost),
      Flag(relay == Err) + Flag(server == Err) + Flag(Path(NvueStartup, Live) in d3)
        + Flag(relayPost && !io.relayReload) + Flag(serverPost && !io.serverReload))
  }

  function Failures(postActions: seq<bool>): nat {
    if postActions == [] then 0 else Flag(!postActions[0]) + Failures(postActions[1..])
  }

  lemma {:induction false} FailuresConcat(a: seq<bool>, b: seq<bool>)
    ensures Failures(a + b) == Failures(a) + Failures(b)
  {
    if a == [] {
      assert a + b == b;
    } else {
      FailuresConcat(a[1..], b);
      assert (a + b)[1..] == a[1..] + b;
    }
  }

  /** One blank file; a post action is represented by whether its reload will work. */
  method Blank(fs: FileSystem, f: File, io: WriteIo, reload: bool) returns (postActions: seq<bool>, errors: nat)
    modifies fs
    ensures var (d, r) := AfterWrite(old(fs.disk), f, BLANK, false, io);
      && fs.disk == d && errors == Flag(r == Err)
      && |postActions| == Flag(r == Ok(true)) && Failures(postActions) == Flag(r == Ok(true) && !reload)
  {
    hide AfterWrite;
    postActions, errors := [], 0;
    var written := fs.Write(f, BLANK, false, io);
    match written {
      case Ok(true) => postActions := [reload];
      case Ok(false) =>
      case Err => errors := 1;
    }
  }

  method RunReloads(postActions: seq<bool>) returns (reloads: nat, failures: nat)
    ensures reloads == |postActions| && failures == Failures(postActions)
  {
    reloads, failures := 0, 0;
    while reloads < |postActions|
      invariant reloads <= |postActions|
      invariant failures + Failures(postActions[reloads..]) == Failures(postActions)
    {
      if !postActions[reloads] {
        failures := failures + 1;
      }
      reloads := reloads + 1;
    }
  }

  method Reset(fs: FileSystem, skip: bool, io: ResetIo) returns (reloads: nat, errors: nat)
    modifies fs
    ensures ResetStep(fs.disk, reloads, errors) == AfterFaultyReset(old(fs.disk), skip, io)
  {
    hide AfterWrite, Failures, AfterResetDrops;
    reloads := 0;
    var relayPosts, relayErrors := Blank(fs, DhcpRelay, io.relay, io.relayReload);
    var serverPosts, serverErrors := Blank(fs, DhcpServer, io.server, io.serverReload);
    FailuresConcat(relayPosts, serverPosts);
    errors := relayErrors + serverErrors;
    var _ := fs.Del(NvueStartup, Live, io.removeNvue);
    if Path(NvueStartup, Live) in fs.disk {
      errors := errors + 1;
    }
    if !skip {
      var failures;
      reloads, failures := RunReloads(relayPosts + serverPosts);
      errors := errors + failures;
    }
    DropResetPaths(fs, io);
  }

  method DropResetPaths(fs: FileSystem, io: ResetIo)
    modifies fs
    ensures fs.disk == AfterResetDrops(old(fs.disk), io)
  {
    var _ := fs.Del(DhcpRelay, Tmp, io.dropRelay);
    var _ := fs.Del(DhcpServer, Tmp, io.dropServer);
    var _ := fs.Del(NvueStartup, Tmp, io.dropNvue);
  }

  lemma ResetDropsKeepOthers(d: Disk, io: ResetIo)
    ensures forall p: Path :: p.role != Tmp || p.file !in {DhcpRelay, DhcpServer, NvueStartup} ==>
      Get(AfterResetDrops(d, io), p) == Get(d, p)
    ensures io.dropRelay ==> Path(DhcpRelay, Tmp) !in AfterResetDrops(d, io)
    ensures io.dropServer ==> Path(DhcpServer, Tmp) !in AfterResetDrops(d, io)
  {
  }

  /**
   * Whatever fails, each DHCP file is as before or blank, and nothing but the three files and their sidecars changes.
   */
  lemma FaultsNeverTearReset(d: Disk, skip: bool, io: ResetIo)
    ensures var s := AfterFaultyReset(d, skip, io);
      var d' := s.disk;
      && (Path(NvueStartup, Live) in d' ==> s.errors > 0)
      && (skip ==> s.reloads == 0)
      && (!io.relayReload && !io.serverReload ==> s.reloads <= s.errors)
      && (forall f :: f in {DhcpRelay, DhcpServer} ==>
            Get(d', Path(f, Live)) == Get(d, Path(f, Live)) || Get(d', Path(f, Live)) == Some(BLANK))
      && (forall p: Path :: p.file !in {DhcpRelay, DhcpServer, NvueStartup} ==> Get(d', p) == Get(d, p))
      && Get(d', Path(NvueStartup, Live)) == (if io.removeNvue then None else Get(d, Path(NvueStartup, Live)))
  {
    hide AfterWrite, AfterResetDrops;
    var d1 := AfterWrite(d, DhcpRelay, BLANK, false, io.relay).0;
    var d2 := AfterWrite(d1, DhcpServer, BLANK, false, io.server).0;
    WriteIsAtomic(d, DhcpRelay, BLANK, false, io.relay);
    WriteIsAtomic(d1, DhcpServer, BLANK, false, io.server);
    ResetDropsKeepOthers(if io.removeNvue then d2 - {Path(NvueStartup, Live)} else d2, io);
  }

  /** The backup that a working `write` leaves beside a file. */
  function BackupLeft(d: Disk, f: File, next: Contents): Option<Contents> {
    if !UpToDate(d, f, next) && Path(f, Live) in d then Get(d, Path(f, Live)) else Get(d, Path(f, Bak))
  }

  lemma WriteLeaves(d: Disk, f: File, next: Contents)
    ensures var (d', r) := AfterWrite(d, f, next, false, WORKING_WRITE);
      && (r == Ok(true) <==> !UpToDate(d, f, next))
      && (r == Err <==> |next| > MAX_EXPECTED_SIZE || Oversized(Get(d, Path(f, Live))))
      && Get(d', Path(f, Live)) == Settled(Get(d, Path(f, Live)), next)
      && Get(d', Path(f, Bak)) == BackupLeft(d, f, next)
      && forall p: Path :: p.file != f || p.role == Test ==> Get(d', p) == Get(d, p)
  {
    WorkingWrite(d, f, next);
  }

  /**
   * What one reset leaves: both DHCP files blank unless oversized, each old file as a `.BAK` that nothing removes, no
   * NVUE startup file, everything else as it was. One reload is run per file that changed; nothing is rolled back.
   */
  lemma ResetEffect(d: Disk, skip: bool, relayReload: bool, serverReload: bool)
    ensures var s := AfterFaultyReset(d, skip, WorkingReset(relayReload, serverReload));
      && (forall f :: f in {DhcpRelay, DhcpServer} ==>
            && Get(s.disk, Path(f, Live)) == Settled(Get(d, Path(f, Live)), BLANK)
            && Get(s.disk, Path(f, Bak)) == BackupLeft(d, f, BLANK)
            && Get(s.disk, Path(f, Test)) == Get(d, Path(f, Test))
            && Path(f, Tmp) !in s.disk)
      && Path(NvueStartup, Live) !in s.disk
      && (forall p: Path :: p.file !in {DhcpRelay, DhcpServer, NvueStartup} ==> Get(s.disk, p) == Get(d, p))
      && s.reloads == (if skip then 0 else Flag(!UpToDate(d, DhcpRelay, BLANK)) + Flag(!UpToDate(d, DhcpServer, BLANK)))
      && s.errors ==
           Flag(Oversized(Get(d, Path(DhcpRelay, Live)))) + Flag(Oversized(Get(d, Path(DhcpServer, Live))))
           + Flag(!skip && !UpToDate(d, DhcpRelay, BLANK) && !relayReload)
           + Flag(!skip && !UpToDate(d, DhcpServer, BLANK) && !serverReload)
  {
    hide AfterWrite, Settled, BackupLeft, AfterResetDrops;
    var io := WorkingReset(relayReload, serverReload);
    var d1 := AfterWrite(d, DhcpRelay, BLANK, false, WORKING_WRITE).0;
    WriteLeaves(d, DhcpRelay, BLANK);
    WriteLeaves(d1, DhcpServer, BLANK);
    ResetDropsKeepOthers(AfterWrite(d1, DhcpServer, BLANK, false, WORKING_WRITE).0 - {Path(NvueStartup, Live)}, io);
    assert Get(d1, Path(DhcpServer, Live)) == Get(d, Path(DhcpServer, Live));
    assert Get(d1, Path(DhcpServer, Bak)) == Get(d, Path(DhcpServer, Bak));
    assert Get(d1, Path(DhcpServer, Test)) == Get(d, Path(DhcpServer, Test));
    BackupLeftDependsOnFile(d, d1, DhcpServer, BLANK);
  }

  lemma BackupLeftDependsOnFile(d: Disk, d': Disk, f: File, next: Contents)
    requires Get(d', Path(f, Live)) == Get(d, Path(f, Live)) && Get(d', Path(f, Bak)) == Get(d, Path(f, Bak))
    ensures BackupLeft(d', f, next) == BackupLeft(d, f, next)
  {
  }

  /** The disk after resets whose reloads end as `outcomes` says. */
  function Resets(d: Disk, skip: bool, outcomes: seq<(bool, bool)>): Disk
    decreases |outcomes|
  {
    if outcomes == [] then d
    else
      var n := |outcomes| - 1;
      AfterFaultyReset(Resets(d, skip, outcomes[..n]), skip, WorkingReset(outcomes[n].0, outcomes[n].1)).disk
  }

  /**
   * Only the first of a run of resets reloads anything: a reload that fails is never retried, the file being blank by
   * then.
   */
  lemma {:induction false} FailedResetIsNeverRetried(
      d: Disk, skip: bool, outcomes: seq<(bool, bool)>, relay: bool, server: bool)
    requires outcomes != []
    ensures AfterFaultyReset(Resets(d, skip, outcomes), skip, WorkingReset(relay, server)).reloads == 0
    ensures SameLives(Resets(d, skip, outcomes), Resets(d, skip, outcomes[..1]))
    decreases |outcomes|
  {
    hide AfterFaultyReset, Settled;
    var n := |outcomes| - 1;
    var e := Resets(d, skip, outcomes[..n]);
    ResetEffect(e, skip, outcomes[n].0, outcomes[n].1);
    SettledTwice(Get(e, Path(DhcpRelay, Live)), BLANK);
    SettledTwice(Get(e, Path(DhcpServer, Live)), BLANK);
    ResetEffect(Resets(d, skip, outcomes), skip, relay, server);
    if n > 0 {
      FailedResetIsNeverRetried(d, skip, outcomes[..n], outcomes[n].0, outcomes[n].1);
      assert outcomes[..n][..1] == outcomes[..1];
      FirstResetSettles(d, skip, outcomes[..1]);
    } else {
      assert outcomes[..1] == outcomes;
    }
  }

  predicate SameLives(d: Disk, d': Disk) {
    && Get(d', Path(DhcpRelay, Live)) == Get(d, Path(DhcpRelay, Live))
    && Get(d', Path(DhcpServer, Live)) == Get(d, Path(DhcpServer, Live))
  }

  lemma FirstResetSettles(d: Disk, skip: bool, outcomes: seq<(bool, bool)>)
    requires |outcomes| == 1
    ensures var e := Resets(d, skip, outcomes);
      UpToDate(e, DhcpRelay, BLANK) && UpToDate(e, DhcpServer, BLANK)
  {
    hide AfterFaultyReset, Settled;
    assert outcomes[..0] == [] && Resets(d, skip, []) == d;
    ResetEffect(d, skip, outcomes[0].0, outcomes[0].1);
    SettledTwice(Get(d, Path(DhcpRelay, Live)), BLANK);
    SettledTwice(Get(d, Path(DhcpServer, Live)), BLANK);
  }

  /**
   * Exactly when the first `update_dhcp` call after a reset runs a command, from the disk before the reset. The backup
   * that blanking the relay file leaves is a leftover, so that alone makes the call noisy.
   */
  lemma NoisyAfterReset(d: Disk, skip: bool, relay: bool, server: bool, r: Rendered, stop: bool)
    requires Complete(r)
    ensures var e := AfterFaultyReset(d, skip, WorkingReset(relay, server)).disk;
      Runs(e, r, stop, []) <==>
      || (|r.server.value| <= MAX_EXPECTED_SIZE && !Oversized(Get(d, Path(DhcpServer, Live))) &&
           r.server.value != BLANK)
      || !UpToDate(d, DhcpServerConfig, r.config.value)
      || !UpToDate(d, DhcpServerHostConfig, r.hostConfig.value)
      || Path(DhcpRelay, Test) in d || Path(DhcpRelay, Bak) in d
      || (Path(DhcpRelay, Live) in d && !UpToDate(d, DhcpRelay, BLANK))
      || Path(DhcpRelayNvue, Test) in d || Path(DhcpRelayNvue, Tmp) in d || Path(DhcpRelayNvue, Bak) in d
  {
    hide AfterFaultyReset, AfterUpdate;
    var e := AfterFaultyReset(d, skip, WorkingReset(relay, server)).disk;
    ResetEffect(d, skip, relay, server);
    RunsExactlyWhenDue(e, r, stop, [], true);
    assert Get(e, Path(DhcpServer, Live)) == Settled(Get(d, Path(DhcpServer, Live)), BLANK);
    ResetSidecars(d, skip, relay, server);
    hide Leftovers;
    assert Get(e, Path(DhcpServerConfig, Live)) == Get(d, Path(DhcpServerConfig, Live));
    assert Get(e, Path(DhcpServerHostConfig, Live)) == Get(d, Path(DhcpServerHostConfig, Live));
  }

  lemma ResetSidecars(d: Disk, skip: bool, relay: bool, server: bool)
    ensures Leftovers(AfterFaultyReset(d, skip, WorkingReset(relay, server)).disk) > 0 <==>
      || Path(DhcpRelay, Test) in d || Path(DhcpRelay, Bak) in d
      || (Path(DhcpRelay, Live) in d && !UpToDate(d, DhcpRelay, BLANK))
      || Path(DhcpRelayNvue, Test) in d || Path(DhcpRelayNvue, Tmp) in d || Path(DhcpRelayNvue, Bak) in d
  {
    hide AfterFaultyReset, Settled;
    var e := AfterFaultyReset(d, skip, WorkingReset(relay, server)).disk;
    ResetEffect(d, skip, relay, server);
    assert Get(e, Path(DhcpRelay, Test)) == Get(d, Path(DhcpRelay, Test));
    assert Get(e, Path(DhcpRelay, Bak)) == BackupLeft(d, DhcpRelay, BLANK);
    assert Get(e, Path(DhcpRelayNvue, Test)) == Get(d, Path(DhcpRelayNvue, Test));
    assert Get(e, Path(DhcpRelayNvue, Tmp)) == Get(d, Path(DhcpRelayNvue, Tmp));
    assert Get(e, Path(DhcpRelayNvue, Bak)) == Get(d, Path(DhcpRelayNvue, Bak));
  }

  /** After a reset the next NVUE tick applies whatever fits the size limit, on either network. */
  lemma ResetMakesNvueApply(
      d: Disk, skip: bool, relay: bool, server: bool, next: Contents, admin: bool, run: NvueFiles.Run)
    ensures var e := AfterFaultyReset(d, skip, WorkingReset(relay, server)).disk;
      NvueFiles.AfterTick(e, next, admin, run).ran <==> |next| <= MAX_EXPECTED_SIZE
  {
    hide AfterFaultyReset, AfterWrite;
    var e := AfterFaultyReset(d, skip, WorkingReset(relay, server)).disk;
    ResetEffect(d, skip, relay, server);
    WorkingWrite(AfterCleanup(e, NvueStartup, WORKING_CLEANUP).0, NvueStartup, next);
  }
}
