/** Agents that crash in the middle of `update_dhcp`. */
module DhcpCrashes {
  import opened Text
  import opened ConfigFiles
  import opened DhcpFiles
  import opened DhcpRuns

  /** The disk after the first `ops` file operations of a replacement: `.TMP`, backup, rename, removal of the backup. */
  function Interrupted(d: Disk, f: File, next: Contents, ops: nat): Disk {
    var live, tmp, bak := Path(f, Live), Path(f, Tmp), Path(f, Bak);
    var d1 := d[tmp := next];
    var d2 := if live in d then d1[bak := d[live]] else d1;
    if ops == 0 then d
    else if ops == 1 || UpToDate(d, f, next) then d1
    else if ops == 2 then d2
    else if ops == 3 then Renamed(d2, tmp, live)
    else Renamed(d2, tmp, live) - {bak}
  }

  lemma InterruptedEndsInReplace(d: Disk, f: File, next: Contents)
    ensures Interrupted(d, f, next, 4) == AfterReplace(d, f, next, WORKING_REPLACE).0
  {
    WorkingWrite(d, f, next);
  }

  /** The disk after the first `ops` operations of the relay cleanup: one leftover, the NVUE relay file, its `.TMP`. */
  function CleanupInterrupted(d: Disk, ops: nat): Disk {
    var (d1, cleaned) := AfterCleanup(d, DhcpRelay, WORKING_CLEANUP);
    var d2 := if cleaned then d1 else AfterCleanup(d1, DhcpRelayNvue, WORKING_CLEANUP).0;
    var d3 := d2 - {Path(DhcpRelayNvue, Live)};
    if ops == 0 then d else if ops == 1 then d2 else if ops == 2 then d3 else d3 - {Path(DhcpRelayNvue, Tmp)}
  }

  lemma CleanupInterruptedEndsInCleanup(d: Disk)
    ensures CleanupInterrupted(d, 3) == AfterRelayCleanup(d, WORKING_RELAY_CLEANUP).0
  {
  }

  /**
   * After a crash inside the relay cleanup the next call runs a command exactly if a server file is out of date or a
   * leftover remains: before the deletion any one, after it a second one, and at the end one that the drop spares.
   */
  lemma CrashInCleanup(d: Disk, r: Rendered, ops: nat, stop: bool)
    requires Complete(r)
    ensures Runs(CleanupInterrupted(d, ops), r, stop, []) <==>
      || !AllUpToDate(d, r)
      || (ops == 0 && Leftovers(d) > 0)
      || (1 <= ops <= 2 && Leftovers(d) > 1)
      || (ops >= 3 && CrashLeavesLeftover(d, 0, 0))
    ensures Path(DhcpRelayNvue, Live) in CleanupInterrupted(d, ops) <==> Path(DhcpRelayNvue, Live) in d && ops < 2
  {
    hide AfterUpdate, Settled;
    var e := CleanupInterrupted(d, ops);
    RunsExactlyWhenDue(e, r, stop, [], true);
    CleanupInterruptedFiles(d, ops);
    CleanupInterruptedLeftovers(d, ops);
    hide CleanupInterrupted, Leftovers, CrashLeavesLeftover;
  }

  lemma CleanupInterruptedFiles(d: Disk, ops: nat)
    ensures SameServerFiles(d, CleanupInterrupted(d, ops))
    ensures Path(DhcpRelayNvue, Live) in CleanupInterrupted(d, ops) <==> Path(DhcpRelayNvue, Live) in d && ops < 2
  {
  }

  lemma CleanupInterruptedLeftovers(d: Disk, ops: nat)
    ensures Leftovers(CleanupInterrupted(d, ops)) > 0 <==>
      if ops == 0 then Leftovers(d) > 0 else if ops <= 2 then Leftovers(d) > 1 else CrashLeavesLeftover(d, 0, 0)
  {
    if ops >= 3 {
      hide CleanupInterrupted, KeepsRelayBackup, KeepsNvueLeftover;
      assert CleanupInterrupted(d, ops) == CleanupInterrupted(d, 3) by {
        CleanupTakesThree(d, ops);
      }
      CleanupInterruptedEndsInCleanup(d);
      CleanupLeaves(d);
    }
  }

  lemma CleanupTakesThree(d: Disk, ops: nat)
    requires ops >= 3
    ensures CleanupInterrupted(d, ops) == CleanupInterrupted(d, 3)
  {
  }

  /** The files in the order in which a call replaces them. */
  const ORDER: seq<File> := [DhcpRelay, DhcpServer, DhcpServerConfig, DhcpServerHostConfig]

  function NextOf(r: Rendered, k: nat): Contents
    requires Complete(r)
  {
    if k == 0 then BLANK else if k == 1 then r.server.value else if k == 2 then r.config.value else r.hostConfig.value
  }

  /** The disk after the first `files` files of a complete call. */
  function Replaced(d: Disk, r: Rendered, files: nat): Disk
    requires Complete(r) && files <= 4
  {
    if files == 0 then AfterRelayCleanup(d, WORKING_RELAY_CLEANUP).0
    else AfterReplace(Replaced(d, r, files - 1), ORDER[files - 1], NextOf(r, files - 1), WORKING_REPLACE).0
  }

  /**
   * The disk that a crash leaves behind before the call's command, `ops` operations into the file after `files` others.
   */
  function Crashed(d: Disk, r: Rendered, files: nat, ops: nat): Disk
    requires Complete(r) && files < 4
  {
    Interrupted(Replaced(d, r, files), ORDER[files], NextOf(r, files), ops)
  }

  /** Whether the crash came after the point at which file `k` would have been renamed into place. */
  predicate Past(k: nat, files: nat, ops: nat) {
    k < files || (k == files && ops >= 3)
  }

  /** Which relay sidecars a crash leaves, from the disk before the call: the `.TMP` file, ... */
  predicate CrashLeavesTmp(d: Disk, files: nat, ops: nat) {
    if files == 0 && ops == 0 then Path(DhcpRelay, Tmp) in d && Path(DhcpRelay, Test) in d
    else !Past(0, files, ops) || UpToDate(d, DhcpRelay, BLANK)
  }

  /** ... the backup, which the call may also just have made, ... */
  predicate CrashLeavesBackup(d: Disk, files: nat, ops: nat) {
    if UpToDate(d, DhcpRelay, BLANK) || (files == 0 && ops < 2) then KeepsRelayBackup(d)
    else files == 0 && ops < 4 && (KeepsRelayBackup(d) || Path(DhcpRelay, Live) in d)
  }

  /** ... or any. */
  predicate CrashLeavesLeftover(d: Disk, files: nat, ops: nat) {
    CrashLeavesTmp(d, files, ops) || CrashLeavesBackup(d, files, ops) || KeepsNvueLeftover(d)
  }

  /** The relay sidecars and the live file number `k` after the first `files` files. */
  lemma {:induction false} ReplacedEffect(d: Disk, r: Rendered, files: nat, k: nat)
    requires Complete(r) && files <= 4 && k < 4
    ensures var e := Replaced(d, r, files);
      && Get(e, Path(ORDER[k], Live)) ==
           (if k < files then Settled(Get(d, Path(ORDER[k], Live)), NextOf(r, k)) else Get(d, Path(ORDER[k], Live)))
      && Path(DhcpRelay, Test) !in e && Path(DhcpRelayNvue, Tmp) !in e
      && (Path(DhcpRelay, Tmp) in e <==> CrashLeavesTmp(d, files, 0))
      && (Path(DhcpRelay, Bak) in e <==> CrashLeavesBackup(d, files, 0))
      && (Path(DhcpRelayNvue, Test) in e || Path(DhcpRelayNvue, Bak) in e <==> KeepsNvueLeftover(d))
    decreases files
  {
    hide AfterReplace, Settled, KeepsRelayBackup, KeepsNvueLeftover;
    if files == 0 {
      hide AfterRelayCleanup, Leftovers;
      RelayCleanupEffect(d);
      CleanupLeaves(d);
    } else {
      ReplacedEffect(d, r, files - 1, k);
      ReplacedEffect(d, r, files - 1, files - 1);
      var e := Replaced(d, r, files - 1);
      ReplaceEffect(e, ORDER[files - 1], NextOf(r, files - 1));
      if files > 1 {
        assert ORDER[files - 1] != DhcpRelay && ORDER[files - 1] != DhcpRelayNvue;
      }
    }
  }

  lemma InterruptedEffect(d: Disk, f: File, next: Contents, ops: nat)
    ensures var e := Interrupted(d, f, next, ops);
      && Get(e, Path(f, Live)) == (if ops >= 3 then Settled(Get(d, Path(f, Live)), next) else Get(d, Path(f, Live)))
      && Get(e, Path(f, Test)) == Get(d, Path(f, Test))
      && (Path(f, Tmp) in e <==> if ops == 0 then Path(f, Tmp) in d else ops < 3 || UpToDate(d, f, next))
      && (Path(f, Bak) in e <==>
            if UpToDate(d, f, next) || ops < 2 then Path(f, Bak) in d
            else ops < 4 && (Path(f, Bak) in d || Path(f, Live) in d))
      && forall p: Path :: p.file != f ==> Get(e, p) == Get(d, p)
  {
  }

  lemma CrashEffect(d: Disk, r: Rendered, files: nat, ops: nat, k: nat)
    requires Complete(r) && files < 4 && k < 4
    ensures UpToDate(Crashed(d, r, files, ops), ORDER[k], NextOf(r, k))
       <==> Past(k, files, ops) || UpToDate(d, ORDER[k], NextOf(r, k))
  {
    hide Replaced, Interrupted, Settled, CrashLeavesTmp, CrashLeavesBackup, KeepsNvueLeftover;
    ReplacedEffect(d, r, files, k);
    ReplacedEffect(d, r, files, files);
    InterruptedEffect(Replaced(d, r, files), ORDER[files], NextOf(r, files), ops);
    SettledTwice(Get(d, Path(ORDER[k], Live)), NextOf(r, k));
  }

  lemma CrashSidecars(d: Disk, r: Rendered, files: nat, ops: nat)
    requires Complete(r) && files < 4
    ensures Leftovers(Crashed(d, r, files, ops)) > 0 <==> CrashLeavesLeftover(d, files, ops)
  {
    hide Replaced, Interrupted, Settled, KeepsRelayBackup, KeepsNvueLeftover;
    ReplacedEffect(d, r, files, files);
    var e, e' := Replaced(d, r, files), Crashed(d, r, files, ops);
    InterruptedEffect(e, ORDER[files], NextOf(r, files), ops);
    assert Get(e', Path(DhcpRelayNvue, Test)) == Get(e, Path(DhcpRelayNvue, Test));
    assert Get(e', Path(DhcpRelayNvue, Tmp)) == Get(e, Path(DhcpRelayNvue, Tmp));
    assert Get(e', Path(DhcpRelayNvue, Bak)) == Get(e, Path(DhcpRelayNvue, Bak));
    assert Get(e', Path(DhcpRelay, Test)) == Get(e, Path(DhcpRelay, Test));
    if files > 0 {
      assert Get(e', Path(DhcpRelay, Tmp)) == Get(e, Path(DhcpRelay, Tmp));
      assert Get(e', Path(DhcpRelay, Bak)) == Get(e, Path(DhcpRelay, Bak));
    } else {
      assert Get(e, Path(DhcpRelay, Live)) == Get(d, Path(DhcpRelay, Live));
      assert UpToDate(e, DhcpRelay, BLANK) == UpToDate(d, DhcpRelay, BLANK);
    }
  }

  /**
   * After a crash at any file operation before the command, the next call runs one exactly if a server file was still
   * to be renamed into place or a relay leftover remains. The relay's own `.TMP` is such a leftover, so once it is
   * written the command is lost only if this very call replaced the relay file, no other leftover remains and the rest
   * is current.
   */
  lemma CrashLosesReload(d: Disk, r: Rendered, files: nat, ops: nat, stop: bool)
    requires Complete(r) && files < 4
    ensures Runs(Crashed(d, r, files, ops), r, stop, []) <==>
      || CrashLeavesLeftover(d, files, ops)
      || exists k :: 1 <= k < 4 && !Past(k, files, ops) && !UpToDate(d, ORDER[k], NextOf(r, k))
  {
    hide AfterUpdate, Crashed, UpToDate, Leftovers, CrashLeavesLeftover;
    var e := Crashed(d, r, files, ops);
    RunsExactlyWhenDue(e, r, stop, [], true);
    CrashSidecars(d, r, files, ops);
    CrashEffect(d, r, files, ops, 1);
    CrashEffect(d, r, files, ops, 2);
    CrashEffect(d, r, files, ops, 3);
  }

  /**
   * The disk after a command and the first `ops` operations that follow it: two on the server file and its backup, then
   * the drops of the `.TMP` files, the relay's last.
   */
  function CrashedAfterCommand(d: Disk, r: Rendered, works: bool, ops: nat): Disk
    requires Complete(r)
  {
    var live, tmp, bak := Path(DhcpServer, Live), Path(DhcpServer, Tmp), Path(DhcpServer, Bak);
    var d0 := Replaced(d, r, 4);
    var d1 := if ops < 1 then d0 else if works then d0 - {bak} else if live in d0 then Renamed(d0, live, tmp) else d0;
    var d2 := if ops < 2 || works || bak !in d1 then d1 else Renamed(d1, bak, live);
    AfterDrops(d2, DropsIo(ops >= 6, ops >= 3, ops >= 4, ops >= 5))
  }

  lemma CrashedAfterCommandEndsInUpdate(d: Disk, r: Rendered, stop: bool, works: bool)
    requires Complete(r) && Due(d, r)
    ensures CrashedAfterCommand(d, r, works, 6) == AfterUpdate(d, r, stop, false, works).disk
  {
    hide AfterRelayCleanup, AfterReplace, Leftovers, UpToDate, AfterPosts, AllUpToDate;
    UpdateEffect(d, r, stop, false, works);
    ReplacedIsServerFiles(d, r);
    SinglePost(Replaced(d, r, 4), false, PostAction(DhcpServer, WorkingPost(works)));
    RelayCleanupEffect(d);
    ServerFilesEffect(AfterRelayCleanup(d, WORKING_RELAY_CLEANUP).0, r);
  }

  lemma ReplacedIsServerFiles(d: Disk, r: Rendered)
    requires Complete(r)
    ensures Replaced(d, r, 4) == AfterServerFiles(AfterRelayCleanup(d, WORKING_RELAY_CLEANUP).0, r, WORKING_FILES).0
  {
    hide AfterReplace, AfterRelayCleanup;
    var d0 := Replaced(d, r, 0);
    var d1 := AfterReplace(d0, DhcpRelay, BLANK, WORKING_REPLACE).0;
    assert d1 == Replaced(d, r, 1);
    var d2 := AfterReplace(d1, DhcpServer, r.server.value, WORKING_REPLACE).0;
    assert d2 == Replaced(d, r, 2);
    var d3 := AfterReplace(d2, DhcpServerConfig, r.config.value, WORKING_REPLACE).0;
    assert d3 == Replaced(d, r, 3);
    assert AfterReplace(d3, DhcpServerHostConfig, r.hostConfig.value, WORKING_REPLACE).0 == Replaced(d, r, 4);
  }

  /**
   * A crash between a command and the end of the call. A failed command is forgotten exactly if the server file was not
   * yet moved aside, or cannot be outdated, and no relay leftover remains; the relay's `.TMP` is one until it is
   * dropped.
   */
  lemma CrashAfterCommand(d: Disk, r: Rendered, works: bool, ops: nat, stop: bool)
    requires Complete(r) && Due(d, r)
    ensures Runs(CrashedAfterCommand(d, r, works, ops), r, stop, []) <==>
      || (!works && ops == 1 && |r.server.value| <= MAX_EXPECTED_SIZE)
      || (!works && ops >= 2 && LeavesServerOutdated(d, r))
      || (ops < 6 && UpToDate(d, DhcpRelay, BLANK))
      || LeavesLeftover(d)
  {
    hide AfterUpdate, Leftovers, CrashedAfterCommand, LeavesLeftover;
    var e := CrashedAfterCommand(d, r, works, ops);
    RunsExactlyWhenDue(e, r, stop, [], true);
    AfterCommandFiles(d, r, works, ops);
    AfterCommandSidecars(d, r, works, ops);
  }

  lemma AfterCommandFiles(d: Disk, r: Rendered, works: bool, ops: nat)
    requires Complete(r)
    ensures var e := CrashedAfterCommand(d, r, works, ops);
      && Get(e, Path(DhcpServerConfig, Live)) == Settled(Get(d, Path(DhcpServerConfig, Live)), r.config.value)
      && Get(e, Path(DhcpServerHostConfig, Live)) ==
           Settled(Get(d, Path(DhcpServerHostConfig, Live)), r.hostConfig.value)
      && Get(e, Path(DhcpServer, Live)) ==
           (if works || ops == 0 then Settled(Get(d, Path(DhcpServer, Live)), r.server.value)
            else if ops == 1 then None else AfterFailedCommand(d, r))
  {
    hide Replaced, AfterDrops, Settled, CrashLeavesTmp, CrashLeavesBackup, KeepsNvueLeftover;
    ReplacedEffect(d, r, 4, 1);
    ReplacedEffect(d, r, 4, 2);
    ReplacedEffect(d, r, 4, 3);
    ReplacedServerBackup(d, r);
    var live, tmp, bak := Path(DhcpServer, Live), Path(DhcpServer, Tmp), Path(DhcpServer, Bak);
    var d0 := Replaced(d, r, 4);
    var d1 := if ops < 1 then d0 else if works then d0 - {bak} else if live in d0 then Renamed(d0, live, tmp) else d0;
    var d2 := if ops < 2 || works || bak !in d1 then d1 else Renamed(d1, bak, live);
    DropsKeepOthers(d2, DropsIo(ops >= 6, ops >= 3, ops >= 4, ops >= 5));
  }

  lemma ReplacedServerBackup(d: Disk, r: Rendered)
    requires Complete(r)
    ensures Get(Replaced(d, r, 4), Path(DhcpServer, Bak)) ==
      if UpToDate(d, DhcpServer, r.server.value) then Get(d, Path(DhcpServer, Bak)) else None
  {
    hide Replaced, AfterRelayCleanup, AfterServerFiles, Settled, Leftovers;
    var d1 := AfterRelayCleanup(d, WORKING_RELAY_CLEANUP).0;
    ReplacedIsServerFiles(d, r);
    RelayCleanupEffect(d);
    ServerFilesEffect(d1, r);
    assert Get(d1, Path(DhcpServer, Live)) == Get(d, Path(DhcpServer, Live));
    assert Get(d1, Path(DhcpServer, Bak)) == Get(d, Path(DhcpServer, Bak));
  }

  lemma AfterCommandSidecars(d: Disk, r: Rendered, works: bool, ops: nat)
    requires Complete(r)
    ensures Leftovers(CrashedAfterCommand(d, r, works, ops)) > 0
       <==> (ops < 6 && UpToDate(d, DhcpRelay, BLANK)) || LeavesLeftover(d)
  {
    hide Replaced, Settled, KeepsRelayBackup, KeepsNvueLeftover, AfterDrops;
    ReplacedEffect(d, r, 4, 0);
    var live, tmp, bak := Path(DhcpServer, Live), Path(DhcpServer, Tmp), Path(DhcpServer, Bak);
    var d0 := Replaced(d, r, 4);
    var d1 := if ops < 1 then d0 else if works then d0 - {bak} else if live in d0 then Renamed(d0, live, tmp) else d0;
    var d2 := if ops < 2 || works || bak !in d1 then d1 else Renamed(d1, bak, live);
    assert forall p: Path :: p.file != DhcpServer ==> (p in d2 <==> p in d0);
    RelaySidecarsAfterDrops(d2, DropsIo(ops >= 6, ops >= 3, ops >= 4, ops >= 5));
  }

  lemma RelaySidecarsAfterDrops(d: Disk, io: DropsIo)
    ensures forall p: Path :: (p.file == DhcpRelay || p.file == DhcpRelayNvue) && p != Path(DhcpRelay, Tmp) ==>
      (p in AfterDrops(d, io) <==> p in d)
    ensures Path(DhcpRelay, Tmp) in AfterDrops(d, io) <==> Path(DhcpRelay, Tmp) in d && !io.relay
  {
  }
}
