/** The file path of `update_dhcp`: clean up leftovers, rewrite four files, run at most one command. */
module DhcpFiles {
  import opened Text
  import opened ConfigFiles

  const BLANK := "# Auto-generated by Forge!"

  datatype Command = ReloadServer | StopServer

  /** What the templates produced; `None` where rendering failed. `inputs` covers the checks before the first one. */
  datatype Rendered = Rendered(
    inputs: bool, server: Option<Contents>, config: Option<Contents>, hostConfig: Option<Contents>)

  /** Rendering gets as far as each file only if everything before it worked. */
  predicate ReachesServer(r: Rendered) {
    r.inputs && r.server.Some?
  }

  predicate ReachesConfig(r: Rendered) {
    ReachesServer(r) && r.config.Some?
  }

  predicate Complete(r: Rendered) {
    ReachesConfig(r) && r.hostConfig.Some?
  }

  // ---------------------------------------------------------------- the file operations of one call, and how they end

  datatype RelayCleanupIo = RelayCleanupIo(relay: CleanupIo, nvue: CleanupIo, removeNvue: bool, dropNvue: bool)
  const WORKING_RELAY_CLEANUP := RelayCleanupIo(WORKING_CLEANUP, WORKING_CLEANUP, true, true)

  datatype ReplaceIo = ReplaceIo(write: WriteIo, removeBak: bool)
  const WORKING_REPLACE := ReplaceIo(WORKING_WRITE, true)

  datatype FilesIo = FilesIo(relay: ReplaceIo, server: ReplaceIo, config: ReplaceIo, hostConfig: ReplaceIo)
  const WORKING_FILES := FilesIo(WORKING_REPLACE, WORKING_REPLACE, WORKING_REPLACE, WORKING_REPLACE)

  datatype DropsIo = DropsIo(relay: bool, server: bool, config: bool, hostConfig: bool)
  const WORKING_DROPS := DropsIo(true, true, true, true)

  datatype UpdateIo = UpdateIo(cleanup: RelayCleanupIo, files: FilesIo, post: PostIo, drops: DropsIo)

  function WorkingUpdate(command: bool): UpdateIo {
    UpdateIo(WORKING_RELAY_CLEANUP, WORKING_FILES, WorkingPost(command), WORKING_DROPS)
  }

  /** `write`, and on a change `del("BAK")`; an error is only logged. */
  function AfterReplace(d: Disk, f: File, next: Contents, io: ReplaceIo): (Disk, bool) {
    var (d1, r) := AfterWrite(d, f, next, false, io.write);
    if r == Ok(true) then (if io.removeBak then d1 - {Path(f, Bak)} else d1, true) else (d1, false)
  }

  /** `write_dhcp_v4_server_config`. */
  function AfterServerFiles(d: Disk, r: Rendered, io: FilesIo): (Disk, Outcome) {
    var d1 := AfterReplace(d, DhcpRelay, BLANK, io.relay).0;
    if !ReachesServer(r) then (d1, Err)
    else
      var (d2, s) := AfterReplace(d1, DhcpServer, r.server.value, io.server);
      if r.config.None? then (d2, Err)
      else
        var (d3, c) := AfterReplace(d2, DhcpServerConfig, r.config.value, io.config);
        if r.hostConfig.None? then (d3, Err)
        else
          var (d4, h) := AfterReplace(d3, DhcpServerHostConfig, r.hostConfig.value, io.hostConfig);
          (d4, Ok(s || c || h))
  }

  /** Both relay cleanups, the removal of the NVUE relay file and the drop of its path. */
  function AfterRelayCleanup(d: Disk, io: RelayCleanupIo): (Disk, bool) {
    var (d1, cleaned1) := AfterCleanup(d, DhcpRelay, io.relay);
    var (d2, cleaned2) := if cleaned1 then (d1, true) else AfterCleanup(d1, DhcpRelayNvue, io.nvue);
    var d3 := if io.removeNvue then d2 - {Path(DhcpRelayNvue, Live)} else d2;
    (Dropped(d3, DhcpRelayNvue, io.dropNvue), cleaned2)
  }

  /** The drop of the `FPath` values that are still owned at the end of the call. */
  function AfterDrops(d: Disk, io: DropsIo): Disk {
    Dropped(Dropped(Dropped(Dropped(d, DhcpServerHostConfig, io.hostConfig), DhcpServerConfig, io.config),
                    DhcpServer, io.server), DhcpRelay, io.relay)
  }

  datatype Step = Step(disk: Disk, result: Outcome, command: Option<Command>)

  /** One call of `update_dhcp`. A post action takes the server path along, so its drop is `do_post`'s. */
  function AfterFaultyUpdate(d: Disk, r: Rendered, stop: bool, skip: bool, io: UpdateIo): Step {
    var (d1, cleaned) := AfterRelayCleanup(d, io.cleanup);
    var (d2, written) := AfterServerFiles(d1, r, io.files);
    if written == Err || (written == Ok(false) && !cleaned) then Step(AfterDrops(d2, io.drops), written, None)
    else
      var cmd := if written == Ok(true) && stop then StopServer else ReloadServer;
      var (d3, failed) := AfterPosts(d2, skip, [PostAction(DhcpServer, io.post)]);
      Step(AfterDrops(d3, io.drops.(server := false)),
           if failed then Err else Ok(true),
           if skip then None else Some(cmd))
  }

  /** One call in which every file operation works. */
  function AfterUpdate(d: Disk, r: Rendered, stop: bool, skip: bool, commandWorks: bool): Step {
    AfterFaultyUpdate(d, r, stop, skip, WorkingUpdate(commandWorks))
  }

  method Replace(fs: FileSystem, f: File, next: Contents, io: ReplaceIo) returns (changed: bool)
    modifies fs
    ensures (fs.disk, changed) == AfterReplace(old(fs.disk), f, next, io)
  {
    var r := fs.Write(f, next, false, io.write);
    changed := r == Ok(true);
    if changed {
      var _ := fs.Del(f, Bak, io.removeBak);
    }
  }

  method WriteServerFiles(fs: FileSystem, r: Rendered, io: FilesIo) returns (result: Outcome)
    modifies fs
    ensures (fs.disk, result) == AfterServerFiles(old(fs.disk), r, io)
  {
    var _ := Replace(fs, DhcpRelay, BLANK, io.relay);
    if !r.inputs || r.server.None? {
      return Err;
    }
    var hasChanges := Replace(fs, DhcpServer, r.server.value, io.server);
    if r.config.None? {
      return Err;
    }
    var changed := Replace(fs, DhcpServerConfig, r.config.value, io.config);
    hasChanges := hasChanges || changed;
    if r.hostConfig.None? {
      return Err;
    }
    changed := Replace(fs, DhcpServerHostConfig, r.hostConfig.value, io.hostConfig);
    return Ok(hasChanges || changed);
  }

  method CleanupRelays(fs: FileSystem, io: RelayCleanupIo) returns (cleaned: bool)
    modifies fs
    ensures fs.disk == AfterRelayCleanup(old(fs.disk), io).0
    ensures cleaned == AfterRelayCleanup(old(fs.disk), io).1
  {
    cleaned := fs.Cleanup(DhcpRelay, io.relay);
    if !cleaned {
      cleaned := fs.Cleanup(DhcpRelayNvue, io.nvue);
    }
    var _ := fs.Del(DhcpRelayNvue, Live, io.removeNvue);
    var _ := fs.Del(DhcpRelayNvue, Tmp, io.dropNvue);
  }

  method DropPaths(fs: FileSystem, io: DropsIo)
    modifies fs
    ensures fs.disk == AfterDrops(old(fs.disk), io)
  {
    var _ := fs.Del(DhcpServerHostConfig, Tmp, io.hostConfig);
    var _ := fs.Del(DhcpServerConfig, Tmp, io.config);
    var _ := fs.Del(DhcpServer, Tmp, io.server);
    var _ := fs.Del(DhcpRelay, Tmp, io.relay);
  }

  method UpdateDhcp(fs: FileSystem, r: Rendered, stop: bool, skip: bool, io: UpdateIo)
    returns (result: Outcome, command: Option<Command>)
    modifies fs
    ensures Step(fs.disk, result, command) == AfterFaultyUpdate(old(fs.disk), r, stop, skip, io)
  {
    hide AfterRelayCleanup, AfterServerFiles, AfterPosts, AfterDrops;
    command := None;
    var cleaned := CleanupRelays(fs, io.cleanup);
    result := WriteServerFiles(fs, r, io.files);
    if result == Ok(true) || (result == Ok(false) && cleaned) {
      if !skip {
        command := Some(if result == Ok(true) && stop then StopServer else ReloadServer);
      }
      result := fs.DoPost(skip, [PostAction(DhcpServer, io.post)], 0);
      DropPaths(fs, io.drops.(server := false));
    } else {
      DropPaths(fs, io.drops);
    }
  }

  // ---------------------------------------------------------------- one call under any faults

  /** The write gets as far as the backup: all before it worked, and the file has to change. */
  predicate Rewrites(d: Disk, f: File, next: Contents, io: WriteIo) {
    var live := Get(d, Path(f, Live));
    && io.tmp.Finished? && io.stat && |next| <= MAX_EXPECTED_SIZE
    && (live.Some? ==> io.read && |live.value| <= MAX_EXPECTED_SIZE && live.value != next)
  }

  predicate Replaces(d: Disk, f: File, next: Contents, io: WriteIo) {
    Rewrites(d, f, next, io) && (Path(f, Live) in d ==> io.copy.Finished?) && io.rename
  }

  /** The live file after a replacement that was reached or not. */
  function LiveAfter(d: Disk, f: File, reached: bool, next: Option<Contents>, io: WriteIo): Option<Contents>
    requires reached ==> next.Some?
  {
    if reached && Replaces(d, f, next.value, io) then next else Get(d, Path(f, Live))
  }

  /** The backup after a replacement: a copy that breaks off leaves what it had written. */
  function BackupAfter(d: Disk, f: File, next: Contents, io: ReplaceIo): Option<Contents> {
    var live, bak, copy := Get(d, Path(f, Live)), Get(d, Path(f, Bak)), io.write.copy;
    if !Rewrites(d, f, next, io.write) then bak
    else if live.Some? && copy.Broken? then if copy.residue.Some? then copy.residue else bak
    else if io.write.rename && io.removeBak then None
    else if live.Some? then live
    else bak
  }

  lemma ReplaceUnderFaults(d: Disk, f: File, next: Contents, io: ReplaceIo)
    ensures var (d', changed) := AfterReplace(d, f, next, io);
      && (changed <==> Replaces(d, f, next, io.write))
      && Get(d', Path(f, Live)) == LiveAfter(d, f, true, Some(next), io.write)
      && Get(d', Path(f, Bak)) == BackupAfter(d, f, next, io)
      && forall p: Path :: p.file != f ==> Get(d', p) == Get(d, p)
  {
    ReplaceLive(d, f, next, io);
    ReplaceBackup(d, f, next, io);
    ReplaceIsLocal(d, f, next, io);
    hide AfterReplace, BackupAfter, LiveAfter, Replaces;
  }

  lemma ReplaceLive(d: Disk, f: File, next: Contents, io: ReplaceIo)
    ensures var (d', changed) := AfterReplace(d, f, next, io);
      && (changed <==> Replaces(d, f, next, io.write))
      && Get(d', Path(f, Live)) == LiveAfter(d, f, true, Some(next), io.write)
  {
  }

  lemma ReplaceBackup(d: Disk, f: File, next: Contents, io: ReplaceIo)
    ensures Get(AfterReplace(d, f, next, io).0, Path(f, Bak)) == BackupAfter(d, f, next, io)
  {
  }

  lemma ReplaceIsLocal(d: Disk, f: File, next: Contents, io: ReplaceIo)
    ensures forall p: Path :: p.file != f ==> Get(AfterReplace(d, f, next, io).0, p) == Get(d, p)
  {
    hide AfterWrite;
    WriteIsAtomic(d, f, next, false, io.write);
  }

  predicate ReplacesAny(d: Disk, r: Rendered, io: FilesIo)
    requires Complete(r)
  {
    || Replaces(d, DhcpServer, r.server.value, io.server.write)
    || Replaces(d, DhcpServerConfig, r.config.value, io.config.write)
    || Replaces(d, DhcpServerHostConfig, r.hostConfig.value, io.hostConfig.write)
  }

  /** Where rewriting leaves each file, whatever fails and however far rendering gets. */
  predicate FilesUnderFaults(d: Disk, d': Disk, r: Rendered, io: FilesIo) {
    && Get(d', Path(DhcpServer, Live)) == LiveAfter(d, DhcpServer, ReachesServer(r), r.server, io.server.write)
    && Get(d', Path(DhcpServerConfig, Live)) ==
         LiveAfter(d, DhcpServerConfig, ReachesConfig(r), r.config, io.config.write)
    && Get(d', Path(DhcpServerHostConfig, Live))
         == LiveAfter(d, DhcpServerHostConfig, Complete(r), r.hostConfig, io.hostConfig.write)
    && (ReachesServer(r) ==> Get(d', Path(DhcpServer, Bak)) == BackupAfter(d, DhcpServer, r.server.value, io.server))
  }

  lemma ServerFilesUnderFaults(d: Disk, r: Rendered, io: FilesIo)
    ensures var (d', written) := AfterServerFiles(d, r, io);
      && FilesUnderFaults(d, d', r, io)
      && written == (if Complete(r) then Ok(ReplacesAny(d, r, io)) else Err)
  {
    hide AfterReplace, Rewrites;
    var d1 := AfterReplace(d, DhcpRelay, BLANK, io.relay).0;
    ReplaceUnderFaults(d, DhcpRelay, BLANK, io.relay);
    SameFile(d, d1, r, io);
    if ReachesServer(r) {
      var d2 := AfterReplace(d1, DhcpServer, r.server.value, io.server).0;
      ReplaceUnderFaults(d1, DhcpServer, r.server.value, io.server);
      if ReachesConfig(r) {
        var d3 := AfterReplace(d2, DhcpServerConfig, r.config.value, io.config).0;
        ReplaceUnderFaults(d2, DhcpServerConfig, r.config.value, io.config);
        RewritesDependsOnFile(d, d2, DhcpServerConfig, r.config.value, io.config.write);
        if Complete(r) {
          ReplaceUnderFaults(d3, DhcpServerHostConfig, r.hostConfig.value, io.hostConfig);
          RewritesDependsOnFile(d, d3, DhcpServerHostConfig, r.hostConfig.value, io.hostConfig.write);
        }
      }
    }
  }

  lemma RewritesDependsOnFile(d: Disk, d': Disk, f: File, next: Contents, io: WriteIo)
    requires Get(d, Path(f, Live)) == Get(d', Path(f, Live))
    ensures Rewrites(d, f, next, io) == Rewrites(d', f, next, io)
    ensures Replaces(d, f, next, io) == Replaces(d', f, next, io)
  {
  }

  /** What becomes of the server files is decided by the server files. */
  lemma SameFile(d: Disk, d': Disk, r: Rendered, io: FilesIo)
    requires forall p: Path :: p.file in {DhcpServer, DhcpServerConfig, DhcpServerHostConfig} ==>
      Get(d', p) == Get(d, p)
    ensures SameServerFiles(d, d') && Get(d', Path(DhcpServer, Bak)) == Get(d, Path(DhcpServer, Bak))
    ensures forall d'' :: FilesUnderFaults(d', d'', r, io) <==> FilesUnderFaults(d, d'', r, io)
    ensures Complete(r) ==> ReplacesAny(d', r, io) == ReplacesAny(d, r, io)
    ensures r.server.Some? ==>
      Rewrites(d', DhcpServer, r.server.value, io.server.write) ==
        Rewrites(d, DhcpServer, r.server.value, io.server.write)
    ensures r.server.Some? ==>
      BackupAfter(d', DhcpServer, r.server.value, io.server) == BackupAfter(d, DhcpServer, r.server.value, io.server)
  {
    hide Rewrites;
    assert Get(d', Path(DhcpServer, Bak)) == Get(d, Path(DhcpServer, Bak));
    assert SameServerFiles(d, d');
    if r.server.Some? {
      RewritesDependsOnFile(d, d', DhcpServer, r.server.value, io.server.write);
    }
    if r.config.Some? {
      RewritesDependsOnFile(d, d', DhcpServerConfig, r.config.value, io.config.write);
    }
    if r.hostConfig.Some? {
      RewritesDependsOnFile(d, d', DhcpServerHostConfig, r.hostConfig.value, io.hostConfig.write);
    }
  }

  predicate SameServerFiles(d: Disk, d': Disk) {
    && Get(d', Path(DhcpServer, Live)) == Get(d, Path(DhcpServer, Live))
    && Get(d', Path(DhcpServerConfig, Live)) == Get(d, Path(DhcpServerConfig, Live))
    && Get(d', Path(DhcpServerHostConfig, Live)) == Get(d, Path(DhcpServerHostConfig, Live))
  }

  lemma RelayCleanupIsLocal(d: Disk, io: RelayCleanupIo)
    ensures var d' := AfterRelayCleanup(d, io).0;
      && Get(d', Path(DhcpRelay, Live)) == Get(d, Path(DhcpRelay, Live))
      && Get(d', Path(DhcpRelayNvue, Live)) == (if io.removeNvue then None else Get(d, Path(DhcpRelayNvue, Live)))
      && forall p: Path :: p.file != DhcpRelay && p.file != DhcpRelayNvue ==> Get(d', p) == Get(d, p)
  {
  }

  lemma DropsKeepOthers(d: Disk, io: DropsIo)
    ensures forall p: Path :: p.role != Tmp ==> Get(AfterDrops(d, io), p) == Get(d, p)
    ensures io.relay ==> Path(DhcpRelay, Tmp) !in AfterDrops(d, io)
    ensures forall p: Path :: p in AfterDrops(d, io) ==> p in d
  {
  }

  /** What a failed command leaves of the server file, given the backup beside it. */
  function AfterRollback(live: Option<Contents>, bak: Option<Contents>, io: PostIo): Option<Contents> {
    if bak.Some? && io.restore then bak else if io.moveAside then None else live
  }

  lemma ServerPostUnderFaults(d: Disk, skip: bool, io: PostIo)
    ensures var (d', failed) := AfterPosts(d, skip, [PostAction(DhcpServer, io)]);
      && (failed <==> !skip && (!io.command || (Path(DhcpServer, Bak) in d && !io.removeBak)))
      && Get(d', Path(DhcpServer, Live)) ==
           (if skip || io.command then Get(d, Path(DhcpServer, Live))
            else AfterRollback(Get(d, Path(DhcpServer, Live)), Get(d, Path(DhcpServer, Bak)), io))
      && forall p: Path :: p.file != DhcpServer ==> Get(d', p) == Get(d, p)
  {
    hide AfterPosts;
    SinglePost(d, skip, PostAction(DhcpServer, io));
  }

  /** Whatever fails, this decides whether the call runs a command. */
  predicate CommandRuns(d: Disk, r: Rendered, skip: bool, io: UpdateIo) {
    Complete(r) && !skip && (AfterRelayCleanup(d, io.cleanup).1 || ReplacesAny(d, r, io.files))
  }

  /** The command fails, or the backup that it finds cannot be removed after it. */
  predicate PostFails(d: Disk, r: Rendered, io: UpdateIo)
    requires Complete(r)
  {
    !io.post.command || (BackupAfter(d, DhcpServer, r.server.value, io.files.server).Some? && !io.post.removeBak)
  }

  /** The server file after a failed command. */
  function ServerAfterFailure(d: Disk, r: Rendered, io: UpdateIo): Option<Contents>
    requires Complete(r)
  {
    AfterRollback(LiveAfter(d, DhcpServer, true, r.server, io.files.server.write),
                  BackupAfter(d, DhcpServer, r.server.value, io.files.server), io.post)
  }

  /** Whatever fails, a relay leftover is deleted exactly if one of the six sidecars is there and may be deleted. */
  lemma RelayCleanedExactlyWhen(d: Disk, io: RelayCleanupIo)
    ensures AfterRelayCleanup(d, io).1 <==>
      || IsDeletable(d, DhcpRelay, Test, io.relay.test) || IsDeletable(d, DhcpRelay, Tmp, io.relay.tmp)
      || IsDeletable(d, DhcpRelay, Bak, io.relay.bak) || IsDeletable(d, DhcpRelayNvue, Test, io.nvue.test)
      || IsDeletable(d, DhcpRelayNvue, Tmp, io.nvue.tmp) || IsDeletable(d, DhcpRelayNvue, Bak, io.nvue.bak)
  {
    hide AfterCleanup;
    CleanupDeletesFirst(d, DhcpRelay, io.relay);
    var d1 := AfterCleanup(d, DhcpRelay, io.relay).0;
    CleanupIsLocal(d, DhcpRelay, io.relay);
    CleanupDeletesFirst(d1, DhcpRelayNvue, io.nvue);
    assert Get(d1, Path(DhcpRelayNvue, Test)) == Get(d, Path(DhcpRelayNvue, Test));
    assert Get(d1, Path(DhcpRelayNvue, Tmp)) == Get(d, Path(DhcpRelayNvue, Tmp));
    assert Get(d1, Path(DhcpRelayNvue, Bak)) == Get(d, Path(DhcpRelayNvue, Bak));
  }

  lemma RelayUnderFaults(d: Disk, r: Rendered, io: FilesIo)
    ensures var d' := AfterServerFiles(d, r, io).0;
      && Get(d', Path(DhcpRelay, Live)) == LiveAfter(d, DhcpRelay, true, Some(BLANK), io.relay.write)
      && forall p: Path :: p.file !in {DhcpRelay, DhcpServer, DhcpServerConfig, DhcpServerHostConfig} ==>
           Get(d', p) == Get(d, p)
  {
    hide AfterReplace, Replaces, BackupAfter;
    var d1 := AfterReplace(d, DhcpRelay, BLANK, io.relay).0;
    ReplaceUnderFaults(d, DhcpRelay, BLANK, io.relay);
    if ReachesServer(r) {
      var d2 := AfterReplace(d1, DhcpServer, r.server.value, io.server).0;
      ReplaceUnderFaults(d1, DhcpServer, r.server.value, io.server);
      if ReachesConfig(r) {
        var d3 := AfterReplace(d2, DhcpServerConfig, r.config.value, io.config).0;
        ReplaceUnderFaults(d2, DhcpServerConfig, r.config.value, io.config);
        if Complete(r) {
          ReplaceUnderFaults(d3, DhcpServerHostConfig, r.hostConfig.value, io.hostConfig);
        }
      }
    }
  }

  /** The two relay files after a call, and all files that are not the call's business. */
  lemma RelaysAfterUpdate(d: Disk, r: Rendered, stop: bool, skip: bool, io: UpdateIo)
    ensures var d' := AfterFaultyUpdate(d, r, stop, skip, io).disk;
      && Get(d', Path(DhcpRelay, Live)) == LiveAfter(d, DhcpRelay, true, Some(BLANK), io.files.relay.write)
      && Get(d', Path(DhcpRelayNvue, Live)) ==
           (if io.cleanup.removeNvue then None else Get(d, Path(DhcpRelayNvue, Live)))
      && forall p: Path ::
           p.file !in {DhcpRelay, DhcpRelayNvue, DhcpServer, DhcpServerConfig, DhcpServerHostConfig} ==>
           Get(d', p) == Get(d, p)
  {
    hide AfterRelayCleanup, AfterServerFiles, AfterPosts, AfterDrops, Replaces;
    var d1 := AfterRelayCleanup(d, io.cleanup).0;
    var d2 := AfterServerFiles(d1, r, io.files).0;
    var d3 := AfterPosts(d2, skip, [PostAction(DhcpServer, io.post)]).0;
    RelayCleanupIsLocal(d, io.cleanup);
    RelayUnderFaults(d1, r, io.files);
    RewritesDependsOnFile(d, d1, DhcpRelay, BLANK, io.files.relay.write);
    ServerPostUnderFaults(d2, skip, io.post);
    DropsKeepOthers(d2, io.drops);
    DropsKeepOthers(d3, io.drops.(server := false));
    DropsAreLocal(d2, io.drops);
    DropsAreLocal(d3, io.drops.(server := false));
  }

  lemma DropsAreLocal(d: Disk, io: DropsIo)
    ensures forall p: Path :: p.file !in {DhcpRelay, DhcpServer, DhcpServerConfig, DhcpServerHostConfig} ==>
      Get(AfterDrops(d, io), p) == Get(d, p)
  {
  }

  /** One call whatever fails: the command, the result and every live file, from the disk of before. */
  lemma FaultyUpdateEffect(d: Disk, r: Rendered, stop: bool, skip: bool, io: UpdateIo)
    ensures var s := AfterFaultyUpdate(d, r, stop, skip, io);
      var files := io.files;
      && (s.command.Some? <==> CommandRuns(d, r, skip, io))
      && (!Complete(r) ==> s.result == Err)
      && (Complete(r) ==> (s.result == Ok(false) <==> !AfterRelayCleanup(d, io.cleanup).1 && !ReplacesAny(d, r, files)))
      && (s.result == Err <==> !Complete(r) || (CommandRuns(d, r, skip, io) && PostFails(d, r, io)))
      && (s.command == Some(StopServer) <==> CommandRuns(d, r, skip, io) && stop && ReplacesAny(d, r, files))
      && Get(s.disk, Path(DhcpRelay, Live)) == LiveAfter(d, DhcpRelay, true, Some(BLANK), files.relay.write)
      && Get(s.disk, Path(DhcpRelayNvue, Live)) ==
           (if io.cleanup.removeNvue then None else Get(d, Path(DhcpRelayNvue, Live)))
      && Get(s.disk, Path(DhcpServerConfig, Live))
           == LiveAfter(d, DhcpServerConfig, ReachesConfig(r), r.config, files.config.write)
      && Get(s.disk, Path(DhcpServerHostConfig, Live))
           == LiveAfter(d, DhcpServerHostConfig, Complete(r), r.hostConfig, files.hostConfig.write)
      && Get(s.disk, Path(DhcpServer, Live)) ==
           (if CommandRuns(d, r, skip, io) && !io.post.command then ServerAfterFailure(d, r, io)
            else LiveAfter(d, DhcpServer, ReachesServer(r), r.server, files.server.write))
  {
    hide AfterRelayCleanup, AfterServerFiles, AfterPosts, AfterDrops, Replaces, BackupAfter;
    var d1 := AfterRelayCleanup(d, io.cleanup).0;
    var d2 := AfterServerFiles(d1, r, io.files).0;
    var d3 := AfterPosts(d2, skip, [PostAction(DhcpServer, io.post)]).0;
    RelayCleanupIsLocal(d, io.cleanup);
    ServerFilesUnderFaults(d1, r, io.files);
    SameFile(d, d1, r, io.files);
    assert FilesUnderFaults(d, d2, r, io.files);
    ServerPostUnderFaults(d2, skip, io.post);
    DropsKeepOthers(d2, io.drops);
    DropsKeepOthers(d3, io.drops.(server := false));
    RelaysAfterUpdate(d, r, stop, skip, io);
  }

  /** A live file is as before or holds exactly what was rendered for it. */
  predicate Whole(d: Disk, d': Disk, f: File, next: Option<Contents>) {
    Get(d', Path(f, Live)) == Get(d, Path(f, Live)) || (next.Some? && Get(d', Path(f, Live)) == next)
  }

  /**
   * Whatever file operations fail, the two configuration files are never torn and no change of a server file is silent:
   * a call that completes without a command, when commands are not skipped, has left all three alone. This is not so
   * for the relay files; see `RelayChangesSilentlyExactlyWhen`.
   */
  lemma FaultsNeverHideServerChanges(d: Disk, r: Rendered, stop: bool, skip: bool, io: UpdateIo)
    ensures var s := AfterFaultyUpdate(d, r, stop, skip, io);
      && Whole(d, s.disk, DhcpServerConfig, r.config)
      && Whole(d, s.disk, DhcpServerHostConfig, r.hostConfig)
      && (s.result == Ok(false) ==> s.command == None && SameServerFiles(d, s.disk))
      && (Complete(r) && !skip && s.command == None ==> s.result == Ok(false))
      && (!Complete(r) ==> s.result == Err && s.command == None)
  {
    hide AfterFaultyUpdate, AfterRelayCleanup, Replaces, BackupAfter;
    FaultyUpdateEffect(d, r, stop, skip, io);
  }

  predicate SameRelayFiles(d: Disk, d': Disk) {
    && Get(d', Path(DhcpRelay, Live)) == Get(d, Path(DhcpRelay, Live))
    && Get(d', Path(DhcpRelayNvue, Live)) == Get(d, Path(DhcpRelayNvue, Live))
  }

  /** A relay configuration gives way: the one file is blanked or the other is removed. */
  predicate RelayChanges(d: Disk, io: UpdateIo) {
    || Replaces(d, DhcpRelay, BLANK, io.files.relay.write)
    || (Path(DhcpRelayNvue, Live) in d && io.cleanup.removeNvue)
  }

  /**
   * Whatever fails and however far rendering gets, exactly when a relay file changes although the call runs no command,
   * and exactly when it does although the call reports no change: the change of a relay file counts for neither.
   */
  lemma RelayChangesSilentlyExactlyWhen(d: Disk, r: Rendered, stop: bool, skip: bool, io: UpdateIo)
    ensures var s := AfterFaultyUpdate(d, r, stop, skip, io);
      var counted := AfterRelayCleanup(d, io.cleanup).1 || (Complete(r) && ReplacesAny(d, r, io.files));
      && (!SameRelayFiles(d, s.disk) && s.command == None <==> RelayChanges(d, io) && !CommandRuns(d, r, skip, io))
      && (!SameRelayFiles(d, s.disk) && s.result == Ok(false) <==> RelayChanges(d, io) && Complete(r) && !counted)
  {
    hide AfterFaultyUpdate, AfterRelayCleanup, ReplacesAny, BackupAfter;
    FaultyUpdateEffect(d, r, stop, skip, io);
  }

  /** The file holds the new contents, or this call puts them there. */
  predicate EndsNew(d: Disk, f: File, next: Contents, io: WriteIo) {
    Get(d, Path(f, Live)) == Some(next) || Replaces(d, f, next, io)
  }

  /**
   * Whatever fails, exactly which server files hold the new contents after a call that reports success: a write that
   * fails is only logged, so the call can succeed although a file was never written.
   */
  lemma SuccessUnderFaults(d: Disk, r: Rendered, stop: bool, skip: bool, io: UpdateIo)
    requires AfterFaultyUpdate(d, r, stop, skip, io).result.Ok?
    ensures Complete(r)
    ensures var d' := AfterFaultyUpdate(d, r, stop, skip, io).disk;
      && (Get(d', Path(DhcpServer, Live)) == r.server <==>
            EndsNew(d, DhcpServer, r.server.value, io.files.server.write))
      && (Get(d', Path(DhcpServerConfig, Live)) == r.config <==>
            EndsNew(d, DhcpServerConfig, r.config.value, io.files.config.write))
      && (Get(d', Path(DhcpServerHostConfig, Live)) == r.hostConfig <==>
            EndsNew(d, DhcpServerHostConfig, r.hostConfig.value, io.files.hostConfig.write))
  {
    hide AfterFaultyUpdate, AfterRelayCleanup, ReplacesAny, Replaces, BackupAfter;
    FaultyUpdateEffect(d, r, stop, skip, io);
  }

  /** The roll back ends with the server file of before or the new one. */
  predicate RollbackKeepsWhole(d: Disk, r: Rendered, io: UpdateIo)
    requires Complete(r)
  {
    match if io.post.restore then BackupAfter(d, DhcpServer, r.server.value, io.files.server) else None
    case Some(backup) => backup == r.server.value || Get(d, Path(DhcpServer, Live)) == Some(backup)
    case None => !io.post.moveAside || Path(DhcpServer, Live) !in d
  }

  /**
   * The server file is as before or new, whatever fails, exactly unless a command runs and fails and the roll back
   * either removes the file or installs a backup that is neither: a stale one, or one whose copy broke off
   * half-written.
   */
  lemma ServerIsWholeExactlyWhen(d: Disk, r: Rendered, stop: bool, skip: bool, io: UpdateIo)
    ensures Whole(d, AfterFaultyUpdate(d, r, stop, skip, io).disk, DhcpServer, r.server) <==>
      !CommandRuns(d, r, skip, io) || io.post.command || RollbackKeepsWhole(d, r, io)
  {
    hide AfterFaultyUpdate, AfterRelayCleanup, ReplacesAny, Rewrites, BackupAfter;
    FaultyUpdateEffect(d, r, stop, skip, io);
  }

  /** A call in which only the backup copy of the server file, which leaves `torn` behind, and the command fail. */
  function TornBackup(torn: Contents): UpdateIo {
    var write := WORKING_WRITE.(copy := Broken(Some(torn)));
    WorkingUpdate(false).(files := WORKING_FILES.(server := ReplaceIo(write, true)))
  }

  /** The code at fault: a half-written backup is installed although the server file was never replaced. */
  lemma TornBackupIsInstalled(r: Rendered, before: Contents, torn: Contents, stop: bool)
    requires Complete(r) && r.server.value != before && torn != before && torn != r.server.value
    requires |before| <= MAX_EXPECTED_SIZE && |r.server.value| <= MAX_EXPECTED_SIZE &&
      |r.config.value| <= MAX_EXPECTED_SIZE
    ensures var d: Disk := map[Path(DhcpServer, Live) := before];
      var s := AfterFaultyUpdate(d, r, stop, false, TornBackup(torn));
      Get(s.disk, Path(DhcpServer, Live)) == Some(torn) && !Whole(d, s.disk, DhcpServer, r.server)
  {
    hide AfterFaultyUpdate, AfterRelayCleanup;
    var d: Disk := map[Path(DhcpServer, Live) := before];
    FaultyUpdateEffect(d, r, stop, false, TornBackup(torn));
    assert Replaces(d, DhcpServerConfig, r.config.value, WORKING_WRITE);
  }

  // ---------------------------------------------------------------- one call with working file operations

  /** Where a working unforced `write` leaves a live file: oversized files, old or new, are stuck. */
  function Settled(before: Option<Contents>, next: Contents): Option<Contents> {
    if |next| > MAX_EXPECTED_SIZE || Oversized(before) then before else Some(next)
  }

  /** A file is up to date when one more `write` would leave it alone. */
  predicate UpToDate(d: Disk, f: File, next: Contents) {
    Settled(Get(d, Path(f, Live)), next) == Get(d, Path(f, Live))
  }

  lemma ReplaceEffect(d: Disk, f: File, next: Contents)
    ensures var (d', changed) := AfterReplace(d, f, next, WORKING_REPLACE);
      && Get(d', Path(f, Live)) == Settled(Get(d, Path(f, Live)), next)
      && (changed <==> !UpToDate(d, f, next))
      && Get(d', Path(f, Bak)) == (if changed then None else Get(d, Path(f, Bak)))
      && Get(d', Path(f, Tmp)) == (if changed then None else Some(next))
      && Get(d', Path(f, Test)) == Get(d, Path(f, Test))
      && forall p: Path :: p.file != f ==> Get(d', p) == Get(d, p)
  {
    WorkingWrite(d, f, next);
  }

  predicate AllUpToDate(d: Disk, r: Rendered)
    requires Complete(r)
  {
    && UpToDate(d, DhcpServer, r.server.value)
    && UpToDate(d, DhcpServerConfig, r.config.value)
    && UpToDate(d, DhcpServerHostConfig, r.hostConfig.value)
  }

  /** What rewriting the files does, with rendering failing at any point: exactly the files it reached are settled. */
  lemma ServerFilesEffect(d: Disk, r: Rendered)
    ensures var (d', written) := AfterServerFiles(d, r, WORKING_FILES);
      && written == (if Complete(r) then Ok(!AllUpToDate(d, r)) else Err)
      && Get(d', Path(DhcpServer, Live)) == Reached(d, DhcpServer, ReachesServer(r), r.server)
      && Get(d', Path(DhcpServerConfig, Live)) == Reached(d, DhcpServerConfig, ReachesConfig(r), r.config)
      && Get(d', Path(DhcpServerHostConfig, Live)) == Reached(d, DhcpServerHostConfig, Complete(r), r.hostConfig)
      && Get(d', Path(DhcpServer, Bak)) ==
           (if ReachesServer(r) && !UpToDate(d, DhcpServer, r.server.value) then None
            else Get(d, Path(DhcpServer, Bak)))
      && (Path(DhcpRelay, Test) in d' <==> Path(DhcpRelay, Test) in d)
      && (Path(DhcpRelay, Bak) in d' <==> Path(DhcpRelay, Bak) in d && UpToDate(d, DhcpRelay, BLANK))
      && forall role: Role :: Get(d', Path(DhcpRelayNvue, role)) == Get(d, Path(DhcpRelayNvue, role))
  {
    hide AfterReplace, Settled;
    var d1 := AfterReplace(d, DhcpRelay, BLANK, WORKING_REPLACE).0;
    ReplaceEffect(d, DhcpRelay, BLANK);
    if ReachesServer(r) {
      var d2 := AfterReplace(d1, DhcpServer, r.server.value, WORKING_REPLACE).0;
      ReplaceEffect(d1, DhcpServer, r.server.value);
      if ReachesConfig(r) {
        var d3 := AfterReplace(d2, DhcpServerConfig, r.config.value, WORKING_REPLACE).0;
        ReplaceEffect(d2, DhcpServerConfig, r.config.value);
        if Complete(r) {
          ReplaceEffect(d3, DhcpServerHostConfig, r.hostConfig.value);
        }
      }
    }
  }

  function Reached(d: Disk, f: File, reached: bool, next: Option<Contents>): Option<Contents>
    requires reached ==> next.Some?
  {
    if reached then Settled(Get(d, Path(f, Live)), next.value) else Get(d, Path(f, Live))
  }

  function Flag(b: bool): nat {
    if b then 1 else 0
  }

  /** Leftover sidecars of the two relay files: what `cleanup` looks for. */
  function Leftovers(d: Disk): nat {
    Flag(Path(DhcpRelay, Test) in d) + Flag(Path(DhcpRelay, Tmp) in d) + Flag(Path(DhcpRelay, Bak) in d)
    + Flag(Path(DhcpRelayNvue, Test) in d) + Flag(Path(DhcpRelayNvue, Tmp) in d) + Flag(Path(DhcpRelayNvue, Bak) in d)
  }

  lemma RelayCleanupEffect(d: Disk)
    ensures var (d', cleaned) := AfterRelayCleanup(d, WORKING_RELAY_CLEANUP);
      && (cleaned <==> Leftovers(d) > 0)
      && Leftovers(d') <= Leftovers(d) && (cleaned ==> Leftovers(d') < Leftovers(d))
      && Leftovers(d') - Flag(Path(DhcpRelay, Tmp) in d') <= 3
      && Path(DhcpRelayNvue, Tmp) !in d'
      && Get(d', Path(DhcpRelay, Live)) == Get(d, Path(DhcpRelay, Live))
      && forall p: Path :: p.file != DhcpRelay && p.file != DhcpRelayNvue ==> Get(d', p) == Get(d, p)
  {
  }

  lemma ServerPostEffect(d: Disk, skip: bool, works: bool)
    ensures var (d', failed) := AfterPosts(d, skip, [PostAction(DhcpServer, WorkingPost(works))]);
      && (failed <==> !skip && !works)
      && Get(d', Path(DhcpServer, Live)) ==
           Get(d, if skip || works then Path(DhcpServer, Live) else Path(DhcpServer, Bak))
      && (!skip ==> Path(DhcpServer, Bak) !in d')
      && forall p: Path :: p.file != DhcpServer ==> Get(d', p) == Get(d, p)
  {
    hide AfterPosts;
    SinglePost(d, skip, PostAction(DhcpServer, WorkingPost(works)));
  }

  predicate RelayHasLeftover(d: Disk) {
    Path(DhcpRelay, Test) in d || Path(DhcpRelay, Tmp) in d || Path(DhcpRelay, Bak) in d
  }

  /** The relay's backup survives the cleanup behind another leftover. */
  predicate KeepsRelayBackup(d: Disk) {
    Path(DhcpRelay, Bak) in d && (Path(DhcpRelay, Test) in d || Path(DhcpRelay, Tmp) in d)
  }

  /** A sidecar of the NVUE relay file survives the cleanup behind another leftover. */
  predicate KeepsNvueLeftover(d: Disk) {
    || (Path(DhcpRelayNvue, Test) in d && RelayHasLeftover(d))
    || (Path(DhcpRelayNvue, Bak) in d
        && (RelayHasLeftover(d) || Path(DhcpRelayNvue, Test) in d || Path(DhcpRelayNvue, Tmp) in d))
  }

  /** One call leaves a leftover: an NVUE one, or the relay's backup unless replacing the relay file removes it. */
  predicate LeavesLeftover(d: Disk) {
    (KeepsRelayBackup(d) && UpToDate(d, DhcpRelay, BLANK)) || KeepsNvueLeftover(d)
  }

  /** Which leftovers the cleanup leaves. */
  lemma CleanupLeaves(d: Disk)
    ensures var d' := AfterRelayCleanup(d, WORKING_RELAY_CLEANUP).0;
      && Path(DhcpRelay, Test) !in d' && Path(DhcpRelayNvue, Tmp) !in d'
      && (Path(DhcpRelay, Tmp) in d' <==> Path(DhcpRelay, Tmp) in d && Path(DhcpRelay, Test) in d)
      && (Path(DhcpRelay, Bak) in d' <==> KeepsRelayBackup(d))
      && (Path(DhcpRelayNvue, Test) in d' || Path(DhcpRelayNvue, Bak) in d' <==> KeepsNvueLeftover(d))
  {
  }

  /** Something for a call to do: a server file is out of date, or a relay file has a leftover. */
  predicate Due(d: Disk, r: Rendered)
    requires Complete(r)
  {
    !AllUpToDate(d, r) || Leftovers(d) > 0
  }

  /** What a failed command leaves of the server file: the backup, if the call had not just deleted it. */
  function AfterFailedCommand(d: Disk, r: Rendered): Option<Contents>
    requires Complete(r)
  {
    if UpToDate(d, DhcpServer, r.server.value) then Get(d, Path(DhcpServer, Bak)) else None
  }

  lemma WorkingLive(d: Disk, f: File, next: Contents)
    ensures LiveAfter(d, f, true, Some(next), WORKING_WRITE) == Settled(Get(d, Path(f, Live)), next)
    ensures Replaces(d, f, next, WORKING_WRITE) <==> !UpToDate(d, f, next)
  {
  }

  /**
   * What one call does when rendering works: it runs a command exactly when something is due, settles the relay and
   * configuration files, removes the NVUE relay file, and settles the server file too unless the command fails.
   */
  lemma UpdateEffect(d: Disk, r: Rendered, stop: bool, skip: bool, works: bool)
    requires Complete(r)
    ensures var s := AfterUpdate(d, r, stop, skip, works);
      var fails := Due(d, r) && !skip && !works;
      && (s.command.Some? <==> Due(d, r) && !skip)
      && s.result == (if !Due(d, r) then Ok(false) else if fails then Err else Ok(true))
      && (s.command == Some(StopServer) <==> stop && !skip && !AllUpToDate(d, r))
      && Get(s.disk, Path(DhcpServerConfig, Live)) == Settled(Get(d, Path(DhcpServerConfig, Live)), r.config.value)
      && Get(s.disk, Path(DhcpServerHostConfig, Live)) ==
           Settled(Get(d, Path(DhcpServerHostConfig, Live)), r.hostConfig.value)
      && Get(s.disk, Path(DhcpServer, Live)) ==
           (if fails then AfterFailedCommand(d, r) else Settled(Get(d, Path(DhcpServer, Live)), r.server.value))
      && (Due(d, r) && !skip ==> Path(DhcpServer, Bak) !in s.disk)
      && Get(s.disk, Path(DhcpRelay, Live)) == Settled(Get(d, Path(DhcpRelay, Live)), BLANK)
      && Path(DhcpRelayNvue, Live) !in s.disk
  {
    hide AfterRelayCleanup, AfterServerFiles, AfterPosts, AfterDrops, Settled, Leftovers, LiveAfter;
    var io := WorkingUpdate(works);
    RelaysAfterUpdate(d, r, stop, skip, io);
    WorkingLive(d, DhcpRelay, BLANK);
    var d1 := AfterRelayCleanup(d, WORKING_RELAY_CLEANUP).0;
    var d2 := AfterServerFiles(d1, r, WORKING_FILES).0;
    var d3 := AfterPosts(d2, skip, [PostAction(DhcpServer, io.post)]).0;
    RelayCleanupEffect(d);
    ServerFilesEffect(d1, r);
    assert Get(d1, Path(DhcpServer, Live)) == Get(d, Path(DhcpServer, Live));
    assert Get(d1, Path(DhcpServerConfig, Live)) == Get(d, Path(DhcpServerConfig, Live));
    assert Get(d1, Path(DhcpServerHostConfig, Live)) == Get(d, Path(DhcpServerHostConfig, Live));
    assert Get(d1, Path(DhcpServer, Bak)) == Get(d, Path(DhcpServer, Bak));
    assert AllUpToDate(d1, r) == AllUpToDate(d, r);
    ServerPostEffect(d2, skip, works);
    DropsKeepOthers(d2, io.drops);
    DropsKeepOthers(d3, io.drops.(server := false));
  }

  /**
   * However far rendering gets: no `.TMP` of a relay survives a call, leftovers never grow, each call with
   * some deletes one, and one call leaves at most three.
   */
  lemma UpdateShedsLeftovers(d: Disk, r: Rendered, stop: bool, skip: bool, works: bool)
    ensures var d' := AfterUpdate(d, r, stop, skip, works).disk;
      && Leftovers(d') <= Leftovers(d) && Leftovers(d') <= 3
      && (Leftovers(d) > 0 ==> Leftovers(d') < Leftovers(d))
  {
    hide AfterRelayCleanup, AfterServerFiles, AfterPosts, AfterDrops, Settled, AllUpToDate, Leftovers;
    var io := WorkingUpdate(works);
    var d1 := AfterRelayCleanup(d, WORKING_RELAY_CLEANUP).0;
    var d2 := AfterServerFiles(d1, r, WORKING_FILES).0;
    var d3 := AfterPosts(d2, skip, [PostAction(DhcpServer, io.post)]).0;
    RelayCleanupEffect(d);
    ServerFilesEffect(d1, r);
    ServerPostEffect(d2, skip, works);
    DropsKeepOthers(d2, io.drops);
    DropsKeepOthers(d3, io.drops.(server := false));
    var d' := AfterUpdate(d, r, stop, skip, works).disk;
    assert forall p: Path :: p.file == DhcpRelay || p.file == DhcpRelayNvue ==> p in d' ==> p in d2;
    RelaysDecideLeftovers(d1, d');
  }

  /**
   * Whether a call leaves a leftover can be read off the disk before it, however far rendering gets and whatever the
   * command does.
   */
  lemma UpdateLeavesLeftover(d: Disk, r: Rendered, stop: bool, skip: bool, works: bool)
    ensures Leftovers(AfterUpdate(d, r, stop, skip, works).disk) > 0 <==> LeavesLeftover(d)
  {
    hide AfterRelayCleanup, AfterServerFiles, AfterPosts, AfterDrops, Settled, AllUpToDate, KeepsRelayBackup,
      KeepsNvueLeftover;
    var io := WorkingUpdate(works);
    var d1 := AfterRelayCleanup(d, WORKING_RELAY_CLEANUP).0;
    var d2 := AfterServerFiles(d1, r, WORKING_FILES).0;
    var d3 := AfterPosts(d2, skip, [PostAction(DhcpServer, io.post)]).0;
    RelayCleanupEffect(d);
    CleanupLeaves(d);
    ServerFilesEffect(d1, r);
    assert forall role: Role :: Path(DhcpRelayNvue, role) in d2 <==> Path(DhcpRelayNvue, role) in d1;
    ServerPostEffect(d2, skip, works);
    DropsKeepOthers(d2, io.drops);
    DropsKeepOthers(d3, io.drops.(server := false));
    var d' := AfterUpdate(d, r, stop, skip, works).disk;
    assert forall p: Path :: p.file == DhcpRelay || p.file == DhcpRelayNvue ==> p.role != Tmp ==>
      Get(d', p) == Get(d2, p);
    assert Path(DhcpRelayNvue, Tmp) !in d2;
    SidecarsOf(d2, d');
  }

  lemma SidecarsOf(d: Disk, d': Disk)
    requires forall p: Path :: p.file == DhcpRelay || p.file == DhcpRelayNvue ==> p.role != Tmp ==>
      Get(d', p) == Get(d, p)
    requires Path(DhcpRelay, Tmp) !in d' && Path(DhcpRelayNvue, Tmp) !in d'
    ensures Leftovers(d') > 0 <==>
      || Path(DhcpRelay, Test) in d || Path(DhcpRelay, Bak) in d
      || Path(DhcpRelayNvue, Test) in d || Path(DhcpRelayNvue, Bak) in d
  {
    assert Get(d', Path(DhcpRelay, Test)) == Get(d, Path(DhcpRelay, Test));
    assert Get(d', Path(DhcpRelay, Bak)) == Get(d, Path(DhcpRelay, Bak));
    assert Get(d', Path(DhcpRelayNvue, Test)) == Get(d, Path(DhcpRelayNvue, Test));
    assert Get(d', Path(DhcpRelayNvue, Bak)) == Get(d, Path(DhcpRelayNvue, Bak));
  }

  /** With working file operations no `.TMP` file of the five survives a call. */
  lemma NoTmpSurvives(d: Disk, r: Rendered, stop: bool, skip: bool, works: bool)
    ensures var d' := AfterUpdate(d, r, stop, skip, works).disk;
      forall f :: f in {DhcpRelay, DhcpRelayNvue, DhcpServer, DhcpServerConfig, DhcpServerHostConfig} ==>
        Path(f, Tmp) !in d'
  {
    hide AfterRelayCleanup, AfterServerFiles, AfterPosts, AfterDrops, Settled, AllUpToDate, Leftovers;
    var io := WorkingUpdate(works);
    var d1 := AfterRelayCleanup(d, WORKING_RELAY_CLEANUP).0;
    var d2 := AfterServerFiles(d1, r, WORKING_FILES).0;
    var d3 := AfterPosts(d2, skip, [PostAction(DhcpServer, io.post)]).0;
    RelayCleanupEffect(d);
    ServerFilesEffect(d1, r);
    assert Get(d2, Path(DhcpRelayNvue, Tmp)) == Get(d1, Path(DhcpRelayNvue, Tmp));
    ServerPostEffect(d2, skip, works);
    ServerPostDropsTmp(d2, skip, works);
    DropsKeepOthers(d2, io.drops);
    DropsKeepOthers(d3, io.drops.(server := false));
    DropsTakeTmp(d2, io.drops);
    DropsTakeTmp(d3, io.drops.(server := false));
  }

  lemma DropsTakeTmp(d: Disk, io: DropsIo)
    ensures io.server ==> Path(DhcpServer, Tmp) !in AfterDrops(d, io)
    ensures io.config ==> Path(DhcpServerConfig, Tmp) !in AfterDrops(d, io)
    ensures io.hostConfig ==> Path(DhcpServerHostConfig, Tmp) !in AfterDrops(d, io)
  {
  }

  lemma ServerPostDropsTmp(d: Disk, skip: bool, works: bool)
    ensures Path(DhcpServer, Tmp) !in AfterPosts(d, skip, [PostAction(DhcpServer, WorkingPost(works))]).0
  {
    hide AfterPosts;
    SinglePost(d, skip, PostAction(DhcpServer, WorkingPost(works)));
  }

  lemma RelaysDecideLeftovers(d: Disk, d': Disk)
    requires Path(DhcpRelay, Test) in d' ==> Path(DhcpRelay, Test) in d
    requires Path(DhcpRelay, Bak) in d' ==> Path(DhcpRelay, Bak) in d
    requires forall role: Role :: Path(DhcpRelayNvue, role) in d' ==> Path(DhcpRelayNvue, role) in d
    requires Path(DhcpRelay, Tmp) !in d'
    ensures Leftovers(d') <= Leftovers(d) - Flag(Path(DhcpRelay, Tmp) in d)
  {
  }

  /**
   * After a call that reports success, changed or not, each server file holds exactly the new contents unless these or
   * the file of before are over the size limit; such a file is left as it was, and the agent reports success all the
   * same.
   */
  lemma SuccessMeansCurrent(d: Disk, r: Rendered, stop: bool, skip: bool, works: bool)
    requires Complete(r)
    requires AfterUpdate(d, r, stop, skip, works).result.Ok?
    ensures var d' := AfterUpdate(d, r, stop, skip, works).disk;
      && IsCurrentUnlessOversized(d, d', DhcpServer, r.server.value)
      && IsCurrentUnlessOversized(d, d', DhcpServerConfig, r.config.value)
      && IsCurrentUnlessOversized(d, d', DhcpServerHostConfig, r.hostConfig.value)
  {
    hide AfterUpdate, Leftovers;
    UpdateEffect(d, r, stop, skip, works);
  }

  predicate IsCurrentUnlessOversized(d: Disk, d': Disk, f: File, next: Contents) {
    if |next| <= MAX_EXPECTED_SIZE && !Oversized(Get(d, Path(f, Live))) then Get(d', Path(f, Live)) == Some(next)
    else Get(d', Path(f, Live)) == Get(d, Path(f, Live))
  }

  /**
   * On a DPU whose server must be stopped, the call restarts the server instead, exactly when the
   * three files are up to date and a relay leftover was deleted.
   */
  lemma CleanupRestartsStoppedServer(d: Disk, r: Rendered, works: bool)
    requires Complete(r)
    ensures AfterUpdate(d, r, true, false, works).command == Some(ReloadServer)
       <==> AllUpToDate(d, r) && Leftovers(d) > 0
  {
    UpdateEffect(d, r, true, false, works);
  }
}
