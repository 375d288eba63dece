/**
 * The transactional configuration files of the DPU agent: write to `.TMP`, back up to `.BAK`,
 * rename into place, run a reload command, and roll back when the command fails.
 */
module ConfigFiles {
  import opened Text

  /** The configuration files the agent owns. */
  datatype File =
    | DhcpRelay | DhcpRelayNvue | DhcpServer | DhcpServerConfig | DhcpServerHostConfig
    | BridgingScript | NvueStartup | NvueAcl

  /** `FPath` and the paths `with_ext` derives from it. */
  datatype Role = Live | Test | Tmp | Bak | Error
  datatype Path = Path(file: File, role: Role)

  /** A path as directory, file name up to its extension, and extension, the part `set_extension` replaces. */
  datatype Location = Location(dir: string, stem: string, ext: string)

  function LiveLocation(f: File): Location {
    match f
    case DhcpRelay => Location("etc/supervisor/conf.d", "default-isc-dhcp-relay", "conf")
    case DhcpRelayNvue => Location("etc/supervisor/conf.d", "isc-dhcp-relay-default", "")
    case DhcpServer => Location("etc/supervisor/conf.d", "default-forge-dhcp-server", "conf")
    case DhcpServerConfig => Location("var/support/forge-dhcp/conf", "dhcp", "yaml")
    case DhcpServerHostConfig => Location("var/support/forge-dhcp/conf", "host", "yaml")
    case BridgingScript => Location("/tmp", "update_intercept_bridging", "sh")
    case NvueStartup => Location("var/support", "nvue_startup", "yaml")
    case NvueAcl => Location("etc/cumulus/acl/policy.d", "70-forge_nvue", "rules")
  }

  /** `with_ext`. */
  function LocationOf(p: Path): Location {
    match p.role
    case Live => LiveLocation(p.file)
    case Test => LiveLocation(p.file).(ext := "TEST")
    case Tmp => LiveLocation(p.file).(ext := "TMP")
    case Bak => LiveLocation(p.file).(ext := "BAK")
    case Error => LiveLocation(p.file).(ext := "error")
  }

  /** Length and first character tell the file names apart. */
  lemma StemsAreDistinct(f: File, g: File)
    requires LiveLocation(f).stem == LiveLocation(g).stem
    ensures f == g
  {
    StemShape(f);
    StemShape(g);
    hide LiveLocation;
  }

  lemma StemShape(f: File)
    ensures var stem := LiveLocation(f).stem;
      match f
      case DhcpRelay => |stem| == 22 && stem[0] == 'd'
      case DhcpRelayNvue => |stem| == 22 && stem[0] == 'i'
      case DhcpServer => |stem| == 25 && stem[0] == 'd'
      case DhcpServerConfig => |stem| == 4 && stem[0] == 'd'
      case DhcpServerHostConfig => |stem| == 4 && stem[0] == 'h'
      case BridgingScript => |stem| == 25 && stem[0] == 'u'
      case NvueStartup => |stem| == 12
      case NvueAcl => |stem| == 13
  {
  }

  lemma ExtensionsAreDistinct(f: File, r: Role, r': Role)
    requires LocationOf(Path(f, r)).ext == LocationOf(Path(f, r')).ext
    ensures r == r'
  {
    var live := LiveLocation(f).ext;
    assert live == "" || live == "sh" || (|live| == 4 && live[0] != 'T') || (|live| == 5 && live[0] == 'r');
    hide LiveLocation;
    assert |"TEST"| == 4 && |"TMP"| == 3 && |"BAK"| == 3 && |"error"| == 5 && |"sh"| == 2;
    assert "TMP"[0] != "BAK"[0] && "error"[0] == 'e';
  }

  /** No two files share a sidecar, although sidecars replace the extension: file and role identify a path. */
  lemma SidecarsNeverCollide(p: Path, q: Path)
    requires LocationOf(p) == LocationOf(q)
    ensures p == q
  {
    assert LocationOf(p).stem == LiveLocation(p.file).stem && LocationOf(q).stem == LiveLocation(q.file).stem;
    hide LocationOf, LiveLocation;
    StemsAreDistinct(p.file, q.file);
    ExtensionsAreDistinct(p.file, p.role, q.role);
  }

  /** File contents, one character per byte. */
  type Contents = string
  type Disk = map<Path, Contents>

  const MAX_EXPECTED_SIZE: nat := 1048576

  /** `eyre::Result<bool>`, where the flag says whether something changed. */
  datatype Outcome = Ok(changed: bool) | Err

  function Get(d: Disk, p: Path): Option<Contents> {
    if p in d then Some(d[p]) else None
  }

  function Renamed(d: Disk, from: Path, to: Path): Disk
    requires from in d
  {
    (d - {from})[to := d[from]]
  }

  /** How an operation that moves bytes ended; a broken one may leave a residue in its target. */
  datatype Transfer = Finished | Broken(residue: Option<Contents>)

  function Transferred(d: Disk, to: Path, c: Contents, t: Transfer): Disk {
    match t
    case Finished => d[to := c]
    case Broken(None) => d
    case Broken(Some(residue)) => d[to := residue]
  }

  /** Which of the deletions of one `cleanup` the operating system allows. */
  datatype CleanupIo = CleanupIo(test: bool, tmp: bool, bak: bool)
  const WORKING_CLEANUP := CleanupIo(true, true, true)

  /** `FPath::cleanup` short-circuits: it deletes the first leftover it can and no other. */
  function AfterCleanup(d: Disk, f: File, io: CleanupIo): (Disk, bool) {
    if Path(f, Test) in d && io.test then (d - {Path(f, Test)}, true)
    else if Path(f, Tmp) in d && io.tmp then (d - {Path(f, Tmp)}, true)
    else if Path(f, Bak) in d && io.bak then (d - {Path(f, Bak)}, true)
    else (d, false)
  }

  /** What the operating system does to each file operation of one `write`. */
  datatype WriteIo = WriteIo(tmp: Transfer, stat: bool, read: bool, copy: Transfer, rename: bool)
  const WORKING_WRITE := WriteIo(Finished, true, true, Finished, true)

  function AfterWrite(d: Disk, f: File, next: Contents, force: bool, io: WriteIo): (Disk, Outcome) {
    var live, tmp, bak := Path(f, Live), Path(f, Tmp), Path(f, Bak);
    var d1 := Transferred(d, tmp, next, io.tmp);
    if io.tmp.Broken? || (!force && (!io.stat || |next| > MAX_EXPECTED_SIZE)) then (d1, Err)
    else if !force && live in d1 && (!io.read || |d1[live]| > MAX_EXPECTED_SIZE) then (d1, Err)
    else if !force && live in d1 && d1[live] == next then (d1, Ok(false))
    else
      var d2 := if live in d1 then Transferred(d1, bak, d1[live], io.copy) else d1;
      if (live in d1 && io.copy.Broken?) || !io.rename then (d2, Err)
      else (Renamed(d2, tmp, live), Ok(true))
  }

  /** What happens to one post action: its command, then each file operation. */
  datatype PostIo = PostIo(command: bool, removeBak: bool, moveAside: bool, restore: bool, dropTmp: bool)

  function WorkingPost(command: bool): PostIo {
    PostIo(command, true, true, true, true)
  }

  /** `Drop for FPath`. */
  function Dropped(d: Disk, f: File, works: bool): Disk {
    if works then d - {Path(f, Tmp)} else d
  }

  /** One round of the loop in `do_post`, up to the drop of the action's path; true if it reported an error. */
  function AfterPost(d: Disk, f: File, io: PostIo): (Disk, bool) {
    var live, tmp, bak := Path(f, Live), Path(f, Tmp), Path(f, Bak);
    if io.command then
      var fails := bak in d && !io.removeBak;
      (Dropped(if fails then d else d - {bak}, f, io.dropTmp), fails)
    else
      var d1 := if live in d && io.moveAside then Renamed(d, live, tmp) else d;
      var d2 := if bak in d1 && io.restore then Renamed(d1, bak, live) else d1;
      (Dropped(d2, f, io.dropTmp), true)
  }

  datatype PostAction = PostAction(file: File, io: PostIo)

  function AfterPosts(d: Disk, skip: bool, actions: seq<PostAction>): (Disk, bool)
    decreases actions
  {
    if actions == [] then (d, false)
    else
      var a := actions[0];
      var (d1, failed) := if skip then (Dropped(d, a.file, a.io.dropTmp), false) else AfterPost(d, a.file, a.io);
      var (d2, laterFailed) := AfterPosts(d1, skip, actions[1..]);
      (d2, failed || laterFailed)
  }

  /** What happens to each file operation after a configuration was applied, or failed to. */
  datatype ApplyIo = ApplyIo(removeBak: bool, removeError: bool, moveAside: bool, restore: bool)
  const WORKING_APPLY := ApplyIo(true, true, true, true)

  /** `apply` of both `nvue` and `traffic_intercept_bridging`, given whether `run_apply` worked. */
  function AfterApply(d: Disk, f: File, applied: bool, io: ApplyIo): Disk {
    var live, bak, error := Path(f, Live), Path(f, Bak), Path(f, Error);
    if applied then if io.removeBak then d - {bak} else d
    else
      var d1 := if io.removeError then d - {error} else d;
      if live !in d1 || !io.moveAside then d1
      else
        var d2 := Renamed(d1, live, error);
        if bak in d2 && io.restore then Renamed(d2, bak, live) else d2
  }

  /** The disk as the agent drives it. */
  class FileSystem {
    var disk: Disk

    constructor (d: Disk)
      ensures disk == d
    {
      disk := d;
    }

    method Transfer(to: Path, c: Contents, t: Transfer)
      modifies this
      ensures disk == Transferred(old(disk), to, c, t)
    {
      match t {
        case Finished => disk := disk[to := c];
        case Broken(None) =>
        case Broken(Some(residue)) => disk := disk[to := residue];
      }
    }

    /** `fs::rename`; fails on a missing source. */
    method Rename(from: Path, to: Path, works: bool) returns (ok: bool)
      modifies this
      ensures ok == (works && from in old(disk))
      ensures disk == if ok then Renamed(old(disk), from, to) else old(disk)
    {
      ok := works && from in disk;
      if ok {
        var c := disk[from];
        disk := disk - {from};
        disk := disk[to := c];
      }
    }

    /** `FPath::del`. */
    method Del(f: File, role: Role, works: bool) returns (deleted: bool)
      modifies this
      ensures deleted == (works && Path(f, role) in old(disk))
      ensures disk == if works then old(disk) - {Path(f, role)} else old(disk)
    {
      deleted := works && Path(f, role) in disk;
      if deleted {
        disk := disk - {Path(f, role)};
      }
    }

    method Cleanup(f: File, io: CleanupIo) returns (deleted: bool)
      modifies this
      ensures disk == AfterCleanup(old(disk), f, io).0
      ensures deleted == AfterCleanup(old(disk), f, io).1
    {
      deleted := Del(f, Test, io.test);
      if !deleted {
        deleted := Del(f, Tmp, io.tmp);
      }
      if !deleted {
        deleted := Del(f, Bak, io.bak);
      }
    }

    method Write(f: File, next: Contents, force: bool, io: WriteIo) returns (r: Outcome)
      modifies this
      ensures (disk, r) == AfterWrite(old(disk), f, next, force, io)
    {
      Transfer(Path(f, Tmp), next, io.tmp);
      if io.tmp.Broken? {
        return Err;
      }
      if !force {
        if !io.stat || |next| > MAX_EXPECTED_SIZE {
          return Err;
        }
      }
      var hasChanged := true;
      if !force && Path(f, Live) in disk {
        if !io.read || |disk[Path(f, Live)]| > MAX_EXPECTED_SIZE {
          return Err;
        }
        hasChanged := disk[Path(f, Live)] != next;
      }
      if !hasChanged {
        return Ok(false);
      }
      if Path(f, Live) in disk {
        Transfer(Path(f, Bak), disk[Path(f, Live)], io.copy);
        if io.copy.Broken? {
          return Err;
        }
      }
      var renamed := Rename(Path(f, Tmp), Path(f, Live), io.rename);
      return if renamed then Ok(true) else Err;
    }

    method Apply(f: File, applied: bool, io: ApplyIo)
      modifies this
      ensures disk == AfterApply(old(disk), f, applied, io)
    {
      if applied {
        var _ := Del(f, Bak, io.removeBak);
        return;
      }
      if Path(f, Error) in disk {
        var _ := Del(f, Error, io.removeError);
      }
      var aside := Rename(Path(f, Live), Path(f, Error), io.moveAside);
      if aside && Path(f, Bak) in disk {
        var _ := Rename(Path(f, Bak), Path(f, Live), io.restore);
      }
    }

    method DoPost(skip: bool, actions: seq<PostAction>, errs: nat) returns (r: Outcome)
      modifies this
      ensures disk == AfterPosts(old(disk), skip, actions).0
      ensures r == if errs > 0 || AfterPosts(old(disk), skip, actions).1 then Err else Ok(actions != [])
    {
      var errors := errs;
      var i := 0;
      while i < |actions|
        invariant 0 <= i <= |actions| && errs <= errors
        invariant AfterPosts(old(disk), skip, actions).0 == AfterPosts(disk, skip, actions[i..]).0
        invariant (errs > 0 || AfterPosts(old(disk), skip, actions).1) ==
          (errors > 0 || AfterPosts(disk, skip, actions[i..]).1)
      {
        var f, io := actions[i].file, actions[i].io;
        ghost var before, errorsBefore := disk, errors;
        if !skip {
          if io.command {
            if Path(f, Bak) in disk {
              var removed := Del(f, Bak, io.removeBak);
              if !removed {
                errors := errors + 1;
              }
            }
          } else {
            errors := errors + 1;
            var aside := Rename(Path(f, Live), Path(f, Tmp), io.moveAside);
            if Path(f, Bak) in disk {
              var restored := Rename(Path(f, Bak), Path(f, Live), io.restore);
            }
          }
        }
        var _ := Del(f, Tmp, io.dropTmp);
        assert disk == if skip then Dropped(before, f, io.dropTmp) else AfterPost(before, f, io).0;
        assert (errors > errorsBefore) == (!skip && AfterPost(before, f, io).1);
        assert actions[i..][1..] == actions[i + 1..];
        i := i + 1;
      }
      return if errors > 0 then Err else Ok(actions != []);
    }
  }

  /**
   * Whatever the operating system does, `write` replaces the live file in one step: it is either
   * untouched or holds exactly the new contents, the old contents are then in `.BAK`, and no other
   * file is touched.
   */
  lemma WriteIsAtomic(d: Disk, f: File, next: Contents, force: bool, io: WriteIo)
    ensures var (d', r) := AfterWrite(d, f, next, force, io);
      && Get(d', Path(f, Live)) == (if r == Ok(true) then Some(next) else Get(d, Path(f, Live)))
      && (r == Ok(true) && Path(f, Live) in d ==> Get(d', Path(f, Bak)) == Get(d, Path(f, Live)))
      && (r == Ok(true) && Path(f, Live) !in d ==> Get(d', Path(f, Bak)) == Get(d, Path(f, Bak)))
      && (r == Ok(false) ==> Get(d, Path(f, Live)) == Some(next) && !force)
      && (r == Ok(true) ==> force || Get(d, Path(f, Live)) != Some(next))
      && forall p: Path :: p !in {Path(f, Live), Path(f, Tmp), Path(f, Bak)} ==> Get(d', p) == Get(d, p)
  {
  }

  /** The sidecar is there and may be deleted. */
  predicate IsDeletable(d: Disk, f: File, role: Role, works: bool) {
    Path(f, role) in d && works
  }

  /**
   * `cleanup` deletes exactly the first deletable one of `.TEST`, `.TMP` and `.BAK`, and says whether there was one.
   */
  lemma CleanupDeletesFirst(d: Disk, f: File, io: CleanupIo)
    ensures var (d', deleted) := AfterCleanup(d, f, io);
      var test, tmp := IsDeletable(d, f, Test, io.test), IsDeletable(d, f, Tmp, io.tmp);
      var bak := IsDeletable(d, f, Bak, io.bak);
      && (deleted <==> test || tmp || bak)
      && (Path(f, Test) in d' <==> Path(f, Test) in d && !test)
      && (Path(f, Tmp) in d' <==> Path(f, Tmp) in d && !(tmp && !test))
      && (Path(f, Bak) in d' <==> Path(f, Bak) in d && !(bak && !test && !tmp))
      && forall p: Path :: p in d' ==> p in d && d'[p] == d[p]
  {
  }

  lemma CleanupIsLocal(d: Disk, f: File, io: CleanupIo)
    ensures forall p: Path :: p.file != f || p.role == Live ==> Get(AfterCleanup(d, f, io).0, p) == Get(d, p)
  {
  }

  lemma ApplyIsLocal(d: Disk, f: File, applied: bool, io: ApplyIo)
    ensures forall p: Path :: p.file != f ==> Get(AfterApply(d, f, applied, io), p) == Get(d, p)
  {
  }

  predicate Oversized(c: Option<Contents>) {
    c.Some? && |c.value| > MAX_EXPECTED_SIZE
  }

  /** With working file operations an unforced `write` fails exactly on an oversized old or new file. */
  lemma WorkingWrite(d: Disk, f: File, next: Contents)
    ensures var (d', r) := AfterWrite(d, f, next, false, WORKING_WRITE);
      var stuck := |next| > MAX_EXPECTED_SIZE || Oversized(Get(d, Path(f, Live)));
      && r == (if stuck then Err else Ok(Get(d, Path(f, Live)) != Some(next)))
      && d' == (if r != Ok(true) then d[Path(f, Tmp) := next]
                else if Path(f, Live) in d then
                  (d - {Path(f, Tmp)})[Path(f, Bak) := d[Path(f, Live)]][Path(f, Live) := next]
                else (d - {Path(f, Tmp)})[Path(f, Live) := next])
  {
  }

  /**
   * A reload failure rolls the live file back to what it was before `write`, absent included, exactly
   * when the file existed or no stale `.BAK` lay around; the next `write` then retries.
   */
  lemma RollbackIsExact(d: Disk, f: File, next: Contents, io: WriteIo)
    requires AfterWrite(d, f, next, false, io).1 == Ok(true)
    ensures var d1 := AfterWrite(d, f, next, false, io).0;
      var (d2, failed) := AfterPost(d1, f, WorkingPost(false));
      && failed
      && (Get(d2, Path(f, Live)) == Get(d, Path(f, Live)) <==> (Path(f, Live) in d || Path(f, Bak) !in d))
      && (Path(f, Live) in d || Path(f, Bak) !in d ==> AfterWrite(d2, f, next, false, WORKING_WRITE).1 == Ok(true))
  {
  }

  lemma NewContentsFit(d: Disk, f: File, next: Contents, io: WriteIo)
    requires AfterWrite(d, f, next, false, io).1 == Ok(true)
    ensures |next| <= MAX_EXPECTED_SIZE && !Oversized(Get(d, Path(f, Live)))
  {
  }

  lemma SinglePost(d: Disk, skip: bool, a: PostAction)
    ensures AfterPosts(d, skip, [a]) ==
      if skip then (Dropped(d, a.file, a.io.dropTmp), false) else AfterPost(d, a.file, a.io)
  {
    var d1 := if skip then Dropped(d, a.file, a.io.dropTmp) else AfterPost(d, a.file, a.io).0;
    assert AfterPosts(d1, skip, [a][1..]) == (d1, false);
  }

  /** Without a failure the new contents stay, and writing them again changes nothing whatever the I/O does. */
  lemma SuccessIsStable(d: Disk, f: File, next: Contents, io: WriteIo, skip: bool, post: PostIo, io': WriteIo)
    requires AfterWrite(d, f, next, false, io).1 == Ok(true)
    requires skip || post.command
    ensures var d1 := AfterWrite(d, f, next, false, io).0;
      var d2 := AfterPosts(d1, skip, [PostAction(f, post)]).0;
      var (d3, r) := AfterWrite(d2, f, next, false, io');
      && Get(d2, Path(f, Live)) == Some(next)
      && r != Ok(true)
      && (io' == WORKING_WRITE ==> r == Ok(false))
      && Get(d3, Path(f, Live)) == Some(next)
  {
    hide AfterWrite, AfterPosts;
    var d1 := AfterWrite(d, f, next, false, io).0;
    WriteIsAtomic(d, f, next, false, io);
    SinglePost(d1, skip, PostAction(f, post));
    var d2 := AfterPosts(d1, skip, [PostAction(f, post)]).0;
    assert Get(d2, Path(f, Live)) == Some(next);
    WriteIsAtomic(d2, f, next, false, io');
    NewContentsFit(d, f, next, io);
    WorkingWrite(d2, f, next);
  }

  /** Actions on different files do not interfere: each file ends as if its action had run alone. */
  lemma {:induction false} PostsAreIndependent(d: Disk, skip: bool, actions: seq<PostAction>, i: nat, role: Role)
    requires i < |actions|
    requires forall j, k :: 0 <= j < k < |actions| ==> actions[j].file != actions[k].file
    ensures Get(AfterPosts(d, skip, actions).0, Path(actions[i].file, role))
         == Get(AfterPosts(d, skip, [actions[i]]).0, Path(actions[i].file, role))
    decreases actions
  {
    var a := actions[0];
    var d1 := if skip then Dropped(d, a.file, a.io.dropTmp) else AfterPost(d, a.file, a.io).0;
    if i == 0 {
      PostsLeaveOthers(d1, skip, actions[1..], a.file, role);
    } else {
      PostsAreIndependent(d1, skip, actions[1..], i - 1, role);
      var b := actions[i];
      assert forall r: Role :: Get(d1, Path(b.file, r)) == Get(d, Path(b.file, r));
      PostIsLocal(d, d1, skip, b, role);
    }
  }

  lemma {:induction false} PostsLeaveOthers(d: Disk, skip: bool, actions: seq<PostAction>, f: File, role: Role)
    requires forall j :: 0 <= j < |actions| ==> actions[j].file != f
    ensures Get(AfterPosts(d, skip, actions).0, Path(f, role)) == Get(d, Path(f, role))
    decreases actions
  {
    if actions != [] {
      var a := actions[0];
      var d1 := if skip then Dropped(d, a.file, a.io.dropTmp) else AfterPost(d, a.file, a.io).0;
      PostsLeaveOthers(d1, skip, actions[1..], f, role);
    }
  }

  lemma PostIsLocal(d: Disk, d': Disk, skip: bool, a: PostAction, role: Role)
    requires forall r: Role :: Get(d, Path(a.file, r)) == Get(d', Path(a.file, r))
    ensures Get(AfterPosts(d, skip, [a]).0, Path(a.file, role)) == Get(AfterPosts(d', skip, [a]).0, Path(a.file, role))
  {
    hide AfterPosts;
    SinglePost(d, skip, a);
    SinglePost(d', skip, a);
    assert Get(d, Path(a.file, Live)) == Get(d', Path(a.file, Live));
    assert Get(d, Path(a.file, Bak)) == Get(d', Path(a.file, Bak));
    assert Get(d, Path(a.file, role)) == Get(d', Path(a.file, role));
  }
}
