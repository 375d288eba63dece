/** The startup file of NVUE: written like a config file, applied through `nv config`, rolled back on failure. */
module NvueFiles {
  import opened Text
  import opened ConfigFiles

  /** How `run_apply` ended: the configuration was applied, was found equal to the applied one, or failed. */
  datatype Run = Applied | Detached | Failed

  const LIVE := Path(NvueStartup, Live)
  const BAK := Path(NvueStartup, Bak)
  const ERROR := Path(NvueStartup, Error)

  /** What happens to the file operations of one tick. */
  datatype TickIo = TickIo(cleanup: CleanupIo, metadata: bool, write: WriteIo, apply: ApplyIo, dropTmp: bool)
  const WORKING_TICK := TickIo(WORKING_CLEANUP, true, WORKING_WRITE, WORKING_APPLY, true)

  datatype Step = Step(disk: Disk, result: Outcome, ran: bool)

  /** The write is forced when the admin network takes over from a file that is too large to compare. */
  predicate Forced(d: Disk, admin: bool) {
    admin && Oversized(Get(d, LIVE))
  }

  /** The end of `update_nvue`, from the cleanup of the startup file on. */
  function AfterFaultyTick(d: Disk, next: Contents, admin: bool, skip: bool, run: Run, io: TickIo): Step {
    var d1 := AfterCleanup(d, NvueStartup, io.cleanup).0;
    if admin && LIVE in d1 && !io.metadata then Step(Dropped(d1, NvueStartup, io.dropTmp), Err, false)
    else
      var (d2, written) := AfterWrite(d1, NvueStartup, next, Forced(d1, admin), io.write);
      if written != Ok(true) || skip then Step(Dropped(d2, NvueStartup, io.dropTmp), written, false)
      else
        var d3 := AfterApply(d2, NvueStartup, run != Failed, io.apply);
        Step(Dropped(d3, NvueStartup, io.dropTmp), if run == Failed then Err else Ok(run == Applied), true)
  }

  method UpdateNvue(fs: FileSystem, next: Contents, admin: bool, skip: bool, run: Run, io: TickIo)
    returns (result: Outcome, ran: bool)
    modifies fs
    ensures Step(fs.disk, result, ran) == AfterFaultyTick(old(fs.disk), next, admin, skip, run, io)
  {
    ran := false;
    var _ := fs.Cleanup(NvueStartup, io.cleanup);
    if admin && LIVE in fs.disk && !io.metadata {
      result := Err;
    } else {
      var force := admin && LIVE in fs.disk && |fs.disk[LIVE]| > MAX_EXPECTED_SIZE;
      result := fs.Write(NvueStartup, next, force, io.write);
      if result == Ok(true) && !skip {
        ran := true;
        fs.Apply(NvueStartup, run != Failed, io.apply);
        result := if run == Failed then Err else Ok(run == Applied);
      }
    }
    var _ := fs.Del(NvueStartup, Tmp, io.dropTmp);
  }

  /**
   * Whatever fails, exactly when a configuration that NVUE rejects is rolled back to the file of before, absent
   * included. With working renames that is always, unless the file was absent and a stale backup survived the cleanup.
   */
  lemma RejectedConfigIsRolledBack(d: Disk, next: Contents, admin: bool, io: TickIo)
    requires AfterFaultyTick(d, next, admin, false, Failed, io).ran
    ensures var s := AfterFaultyTick(d, next, admin, false, Failed, io);
      var stale := BAK in AfterCleanup(d, NvueStartup, io.cleanup).0;
      && s.result == Err
      && (Get(s.disk, LIVE) == Get(d, LIVE) <==>
            if !io.apply.moveAside then Get(d, LIVE) == Some(next)
            else if LIVE in d then io.apply.restore
            else !(stale && io.apply.restore))
      && Get(s.disk, ERROR) ==
           (if io.apply.moveAside then Some(next) else if io.apply.removeError then None else Get(d, ERROR))
  {
    hide AfterWrite;
    var d1 := AfterCleanup(d, NvueStartup, io.cleanup).0;
    WriteIsAtomic(d1, NvueStartup, next, Forced(d1, admin), io.write);
    var d2 := AfterWrite(d1, NvueStartup, next, Forced(d1, admin), io.write).0;
    assert Get(d2, ERROR) == Get(d1, ERROR) == Get(d, ERROR);
  }

  /**
   * Whatever fails, an accepted configuration is on disk whole, and a tick that applies nothing never alters the file.
   */
  lemma FaultsNeverTearConfig(d: Disk, next: Contents, admin: bool, skip: bool, run: Run, io: TickIo)
    ensures var s := AfterFaultyTick(d, next, admin, skip, run, io);
      && (s.ran && run != Failed ==> Get(s.disk, LIVE) == Some(next) && s.result == Ok(run == Applied))
      && (s.ran && run != Failed && io.apply.removeBak ==> BAK !in s.disk)
      && (s.ran && run == Failed ==> s.result == Err)
      && (!s.ran ==> Get(s.disk, LIVE) == if s.result == Ok(true) then Some(next) else Get(d, LIVE))
      && (s.ran ==> !skip && (Forced(d, admin) || Get(d, LIVE) != Some(next)))
      && (admin && LIVE in d && !io.metadata ==> !s.ran && s.result == Err)
  {
    hide AfterWrite;
    var d1 := AfterCleanup(d, NvueStartup, io.cleanup).0;
    WriteIsAtomic(d1, NvueStartup, next, Forced(d1, admin), io.write);
  }

  function AfterTick(d: Disk, next: Contents, admin: bool, run: Run): Step {
    AfterFaultyTick(d, next, admin, false, run, WORKING_TICK)
  }

  /** The configuration must be applied: the write is forced, or the file differs and neither version is oversized. */
  predicate Due(d: Disk, next: Contents, admin: bool) {
    || (admin && Oversized(Get(d, LIVE)))
    || (|next| <= MAX_EXPECTED_SIZE && !Oversized(Get(d, LIVE)) && Get(d, LIVE) != Some(next))
  }

  lemma TickEffect(d: Disk, next: Contents, admin: bool, run: Run)
    requires LIVE in d || BAK !in d
    ensures var s := AfterTick(d, next, admin, run);
      && (s.ran <==> Due(d, next, admin))
      && s.result ==
           (if Due(d, next, admin) then if run == Failed then Err else Ok(run == Applied)
            else if |next| > MAX_EXPECTED_SIZE || Oversized(Get(d, LIVE)) then Err else Ok(false))
      && Get(s.disk, LIVE) == (if Due(d, next, admin) && run != Failed then Some(next) else Get(d, LIVE))
      && (LIVE in s.disk || BAK !in s.disk)
  {
    var d1 := AfterCleanup(d, NvueStartup, WORKING_CLEANUP).0;
    if !Forced(d1, admin) {
      WorkingWrite(d1, NvueStartup, next);
    }
  }

  function Ticks(d: Disk, next: Contents, admin: bool, runs: seq<Run>): (Disk, seq<bool>)
    decreases runs
  {
    if runs == [] then (d, [])
    else
      var s := AfterTick(d, next, admin, runs[0]);
      var (d', rest) := Ticks(s.disk, next, admin, runs[1..]);
      (d', [s.ran] + rest)
  }

  /** NVUE has accepted the configuration in one of these runs. */
  predicate Accepted(runs: seq<Run>) {
    Applied in runs || Detached in runs
  }

  /**
   * Over any run of ticks with unchanged contents NVUE is asked to apply on every tick up to and including the first
   * that works and on none after it; the startup file is exactly the original before and the new one from then on. One
   * configuration escapes this: over the size limit on the admin network, where a due write stays due for ever.
   */
  lemma {:induction false} AppliesUntilSuccess(d: Disk, next: Contents, admin: bool, runs: seq<Run>)
    requires LIVE in d || BAK !in d
    ensures var (d', ran) := Ticks(d, next, admin, runs);
      && |ran| == |runs|
      && (forall i :: 0 <= i < |ran| ==>
            (ran[i] <==> Due(d, next, admin) && (|next| > MAX_EXPECTED_SIZE || !Accepted(runs[..i]))))
      && Get(d', LIVE) == (if Due(d, next, admin) && Accepted(runs) then Some(next) else Get(d, LIVE))
    decreases runs
  {
    hide AfterTick;
    if runs != [] {
      var d1 := AfterTick(d, next, admin, runs[0]).disk;
      TickEffect(d, next, admin, runs[0]);
      AppliesUntilSuccess(d1, next, admin, runs[1..]);
      assert runs == [runs[0]] + runs[1..];
      var ran := Ticks(d, next, admin, runs).1;
      assert Due(d1, next, admin) <==> Due(d, next, admin) && (|next| > MAX_EXPECTED_SIZE || runs[0] == Failed);
      forall i | 0 < i < |ran|
        ensures ran[i] <==> Due(d, next, admin) && (|next| > MAX_EXPECTED_SIZE || !Accepted(runs[..i]))
      {
        assert runs[..i] == [runs[0]] + runs[1..][..i - 1];
      }
    }
  }
}
