/** The traffic-intercept bridging script: written like a config file, then executed. */
module Bridging {
  import opened Text
  import opened ConfigFiles

  /** How `bash <script>` ended. */
  datatype Run = Success | ExitNonZero | TimedOut | CannotStart

  const LIVE := Path(BridgingScript, Live)
  const TMP := Path(BridgingScript, Tmp)
  const BAK := Path(BridgingScript, Bak)
  const TEST := Path(BridgingScript, Test)
  const ERROR := Path(BridgingScript, Error)

  /** What happens to the file operations of one tick. */
  datatype TickIo = TickIo(cleanup: CleanupIo, write: WriteIo, setAside: bool, apply: ApplyIo, dropTmp: bool)
  const WORKING_TICK := TickIo(WORKING_CLEANUP, WORKING_WRITE, true, WORKING_APPLY, true)

  /** `run_apply`: a script that ran and failed is renamed away, yet the call succeeds. */
  function AfterRun(d: Disk, run: Run, setAside: bool): (Disk, bool) {
    match run
    case Success => (d, true)
    case ExitNonZero => if LIVE in d && setAside then (Renamed(d, LIVE, ERROR), true) else (d, false)
    case _ => (d, false)
  }

  datatype Step = Step(disk: Disk, result: Outcome, ran: bool)

  /** `update_traffic_intercept_bridging` once the script is rendered. */
  function AfterFaultyTick(d: Disk, next: Contents, admin: bool, skip: bool, run: Run, io: TickIo): Step {
    var d1 := AfterCleanup(d, BridgingScript, io.cleanup).0;
    if admin then Step(Dropped(d1, BridgingScript, io.dropTmp), Ok(false), false)
    else
      var (d2, written) := AfterWrite(d1, BridgingScript, next, false, io.write);
      if written != Ok(true) || skip then Step(Dropped(d2, BridgingScript, io.dropTmp), written, false)
      else
        var (d3, ok) := AfterRun(d2, run, io.setAside);
        var d4 := AfterApply(d3, BridgingScript, ok, io.apply);
        Step(Dropped(d4, BridgingScript, io.dropTmp), if ok then Ok(true) else Err, true)
  }

  /** A tenant-network tick in which every file operation works. */
  function AfterTick(d: Disk, next: Contents, run: Run): Step {
    AfterFaultyTick(d, next, false, false, run, WORKING_TICK)
  }

  method RunApply(fs: FileSystem, run: Run, setAside: bool) returns (ok: bool)
    modifies fs
    ensures (fs.disk, ok) == AfterRun(old(fs.disk), run, setAside)
  {
    if run == TimedOut || run == CannotStart {
      return false;
    }
    ok := true;
    if run != Success {
      ok := fs.Rename(LIVE, ERROR, setAside);
    }
  }

  method UpdateBridging(fs: FileSystem, next: Contents, admin: bool, skip: bool, run: Run, io: TickIo)
    returns (result: Outcome, ran: bool)
    modifies fs
    ensures Step(fs.disk, result, ran) == AfterFaultyTick(old(fs.disk), next, admin, skip, run, io)
  {
    ran := false;
    var _ := fs.Cleanup(BridgingScript, io.cleanup);
    if admin {
      result := Ok(false);
    } else {
      result := fs.Write(BridgingScript, next, false, io.write);
      if result == Ok(true) && !skip {
        ran := true;
        var ok := RunApply(fs, run, io.setAside);
        fs.Apply(BridgingScript, ok, io.apply);
        result := if ok then Ok(true) else Err;
      }
    }
    var _ := fs.Del(BridgingScript, Tmp, io.dropTmp);
  }

  /**
   * Whatever operations fail: a tick that does not run the script leaves it alone, or on a skipped run replaces it
   * whole; the script is run only if it changed; and after a successful run it holds exactly the new contents.
   */
  lemma FaultsNeverTearScript(d: Disk, next: Contents, admin: bool, skip: bool, run: Run, io: TickIo)
    ensures var s := AfterFaultyTick(d, next, admin, skip, run, io);
      && (!s.ran ==> Get(s.disk, LIVE) == if s.result == Ok(true) then Some(next) else Get(d, LIVE))
      && (s.ran ==> !admin && !skip && Get(d, LIVE) != Some(next))
      && (s.ran && run == Success ==> s.result == Ok(true) && Get(s.disk, LIVE) == Some(next))
      && (s.result == Ok(false) ==> admin || Get(d, LIVE) == Some(next))
      && (admin ==> s.result == Ok(false))
      && (s.ran ==>
            (s.result == Err <==> run == TimedOut || run == CannotStart || (run == ExitNonZero && !io.setAside)))
  {
    hide AfterWrite;
    WriteIsAtomic(AfterCleanup(d, BridgingScript, io.cleanup).0, BridgingScript, next, false, io.write);
  }

  /**
   * Whatever fails, exactly when a failed run ends with the script of before, absent included. With working renames
   * that is when the script did not run to completion, unless it was absent and a stale backup survived the cleanup; a
   * script that exits with an error is renamed away and not rolled back.
   */
  lemma FailedRunRestoresExactlyWhen(d: Disk, next: Contents, admin: bool, skip: bool, run: Run, io: TickIo)
    requires run != Success
    requires AfterFaultyTick(d, next, admin, skip, run, io).ran
    ensures var s := AfterFaultyTick(d, next, admin, skip, run, io);
      var stale := BAK in AfterCleanup(d, BridgingScript, io.cleanup).0;
      Get(s.disk, LIVE) == Get(d, LIVE) <==>
        if run == ExitNonZero && io.setAside then LIVE !in d
        else io.apply.moveAside && if LIVE in d then io.apply.restore else !(stale && io.apply.restore)
  {
    hide AfterWrite;
    WriteIsAtomic(AfterCleanup(d, BridgingScript, io.cleanup).0, BridgingScript, next, false, io.write);
  }

  /** A backup that survives `cleanup`, because that deletes one leftover only, while the script is missing. */
  predicate StaleBackup(d: Disk) {
    LIVE !in d && BAK in d && (TEST in d || TMP in d)
  }

  /**
   * On the tenant network a failed run leaves the new contents in place in exactly one case: the script
   * could not run to completion and a stale backup with those very contents was restored.
   */
  lemma FailedRunKeepsScript(d: Disk, next: Contents, run: Run)
    requires run != Success
    requires AfterTick(d, next, run).ran
    ensures var s := AfterTick(d, next, run);
      && (Get(s.disk, LIVE) == Some(next) <==> run != ExitNonZero && StaleBackup(d) && d[BAK] == next)
      && s.result == (if run == ExitNonZero then Ok(true) else Err)
  {
    WorkingWrite(AfterCleanup(d, BridgingScript, WORKING_CLEANUP).0, BridgingScript, next);
  }

  /**
   * The next tick runs the script again, unless a restored stale backup equals the new contents or is too large to
   * read.
   */
  lemma FailedRunIsRetried(d: Disk, next: Contents, run: Run, run': Run)
    requires run != Success
    requires AfterTick(d, next, run).ran
    ensures var s := AfterTick(d, next, run);
      AfterTick(s.disk, next, run').ran <==>
      !(run != ExitNonZero && StaleBackup(d) && (d[BAK] == next || |d[BAK]| > MAX_EXPECTED_SIZE))
  {
    hide AfterWrite;
    var d1 := AfterCleanup(d, BridgingScript, WORKING_CLEANUP).0;
    WorkingWrite(d1, BridgingScript, next);
    var s := AfterTick(d, next, run);
    WorkingWrite(AfterCleanup(s.disk, BridgingScript, WORKING_CLEANUP).0, BridgingScript, next);
    assert Get(AfterCleanup(s.disk, BridgingScript, WORKING_CLEANUP).0, LIVE) == Get(s.disk, LIVE);
  }

  /** The script must be written: it differs and neither version is over the size limit. */
  predicate Due(d: Disk, next: Contents) {
    |next| <= MAX_EXPECTED_SIZE && !Oversized(Get(d, LIVE)) && Get(d, LIVE) != Some(next)
  }

  lemma TickEffect(d: Disk, next: Contents, run: Run)
    requires LIVE in d || BAK !in d
    ensures var s := AfterTick(d, next, run);
      && (s.ran <==> Due(d, next))
      && (!s.ran ==>
            s.result == if |next| > MAX_EXPECTED_SIZE || Oversized(Get(d, LIVE)) then Err else Ok(false))
      && (Due(s.disk, next) <==> Due(d, next) && run != Success)
      && (Get(s.disk, LIVE) == Some(next) <==> Get(d, LIVE) == Some(next) || (Due(d, next) && run == Success))
      && (LIVE in s.disk || BAK !in s.disk)
  {
    WorkingWrite(AfterCleanup(d, BridgingScript, WORKING_CLEANUP).0, BridgingScript, next);
  }

  function Ticks(d: Disk, next: Contents, runs: seq<Run>): (Disk, seq<bool>)
    decreases runs
  {
    if runs == [] then (d, [])
    else
      var s := AfterTick(d, next, runs[0]);
      var (d', rest) := Ticks(s.disk, next, runs[1..]);
      (d', [s.ran] + rest)
  }

  /**
   * Over any run of tenant-network ticks with unchanged contents, the script runs on every tick up to and
   * including its first success, whatever mix of failures precedes it, and never again.
   */
  lemma {:induction false} ScriptRunsUntilSuccess(d: Disk, next: Contents, runs: seq<Run>)
    requires LIVE in d || BAK !in d
    ensures var (d', ran) := Ticks(d, next, runs);
      && |ran| == |runs|
      && (forall i :: 0 <= i < |ran| ==> (ran[i] <==> Due(d, next) && Success !in runs[..i]))
      && (Get(d', LIVE) == Some(next) <==> Get(d, LIVE) == Some(next) || (Due(d, next) && Success in runs))
    decreases runs
  {
    hide AfterTick, Due;
    if runs != [] {
      TickEffect(d, next, runs[0]);
      ScriptRunsUntilSuccess(AfterTick(d, next, runs[0]).disk, next, runs[1..]);
      assert runs == [runs[0]] + runs[1..];
      var ran := Ticks(d, next, runs).1;
      forall i | 0 < i < |ran|
        ensures ran[i] <==> Due(d, next) && Success !in runs[..i]
      {
        assert runs[..i] == [runs[0]] + runs[1..][..i - 1];
      }
    }
  }
}
