/**
 * The register traffic of the TTC phase-alignment scan
 * (`ttcMMCMPhaseShiftLocal` and `checkPLLLockLocal`) and of the TTC command
 * counter lookup (`getTTCCounterLocal`), driven over the register bus.
 *
 * The scan writes and reads back twelve control registers, checks once more
 * that automatic phase alignment has been disabled, and then shifts the GTH phase interpolator (and, on
 * the marked GTH counts, the MMCM) step by step, sampling the BC0 and PLL
 * lock after each shift; the lock policy of `TtcPolicy` decides when the
 * best lock is found.
 */
module Ttc {
  import opened RegisterBus
  import opened Wrappers
  import opened TtcPolicy

  const CTRL_BASE: Path := "GEM_AMC.TTC.CTRL."
  const MMCM_SHIFT_CNT: Path := "GEM_AMC.TTC.STATUS.CLK.PA_MANUAL_SHIFT_CNT"
  const GTH_SHIFT_CNT: Path := "GEM_AMC.TTC.STATUS.CLK.PA_MANUAL_GTH_SHIFT_CNT"
  /** The MMCM count read back after an MMCM shift; the source names it without the `GEM_AMC.` prefix. */
  const MMCM_SHIFT_CNT_CHECK: Path := "TTC.STATUS.CLK.PA_MANUAL_SHIFT_CNT"
  const CNT_RESET: Path := "GEM_AMC.TTC.CTRL.CNT_RESET"
  const GTH_SHIFT_EN: Path := "GEM_AMC.TTC.CTRL.PA_GTH_MANUAL_SHIFT_EN"
  const PLL_RESET: Path := "GEM_AMC.TTC.CTRL.PA_MANUAL_PLL_RESET"
  const PHASE_LOCKED: Path := "GEM_AMC.TTC.STATUS.CLK.PHASE_LOCKED"
  const PM_PHASE_MEAN: Path := "GEM_AMC.TTC.STATUS.CLK.TTC_PM_PHASE_MEAN"
  /** The GTH phase mean, also named without the `GEM_AMC.` prefix. */
  const GTH_PM_PHASE_MEAN: Path := "TTC.STATUS.CLK.GTH_PM_PHASE_MEAN"
  const BC0_LOCKED: Path := "GEM_AMC.TTC.STATUS.BC0.LOCKED"
  const SHIFT_DIR: Path := "GEM_AMC.TTC.CTRL.PA_MANUAL_SHIFT_DIR"
  const GTH_SHIFT_DIR: Path := "GEM_AMC.TTC.CTRL.PA_GTH_MANUAL_SHIFT_DIR"
  const MMCM_RESET: Path := "GEM_AMC.TTC.CTRL.MMCM_RESET"
  /**
   * Set to 1 by the configuration and read back once more before the scan:
   * a zero there means automatic phase alignment is still enabled.
   */
  const DISABLE_ALIGNMENT: Path := "GEM_AMC.TTC.CTRL.DISABLE_PHASE_ALIGNMENT"

  /** The control registers the scan sets up, in order, with the value each must read back. */
  const CONFIG_REGS: seq<(string, Word)> := [
    ("DISABLE_PHASE_ALIGNMENT", 0x1),
    ("PA_DISABLE_GTH_PHASE_TRACKING", 0x1),
    ("PA_MANUAL_OVERRIDE", 0x1),
    ("PA_MANUAL_SHIFT_DIR", 0x1),
    ("PA_GTH_MANUAL_OVERRIDE", 0x1),
    ("PA_GTH_MANUAL_SHIFT_DIR", 0x0),
    ("PA_GTH_MANUAL_SHIFT_STEP", 0x1),
    ("PA_GTH_MANUAL_SEL_OVERRIDE", 0x1),
    ("PA_GTH_MANUAL_COMBINED", 0x1),
    ("GTH_TXDLYBYPASS", 0x1),
    ("PA_MANUAL_PLL_RESET", 0x1),
    ("CNT_RESET", 0x1)]

  /**
   * Why a scan ends without a lock.  `GthShiftStuck` and
   * `TableIndexOutOfRange` exist only in the model: the source retries a
   * GTH shift without limit, and indexes past the end of its table.
   */
  datatype ScanError =
    | ReadbackFailed(path: Path, value: Word, expected: Word)
    | AlignmentStillEnabled
    | LockNotFound
    | GthShiftStuck(expected: Word, reported: Word)
    | TableIndexOutOfRange(index: Word)

  /** A trace extended by a piece is the trace followed by the pieces so far and the new one. */
  lemma Extend(t0: seq<Access>, sofar: seq<Access>, piece: seq<Access>, t: seq<Access>)
    requires t == t0 + sofar + piece
    requires NoWriteTo(sofar, MMCM_RESET) && NoWriteTo(piece, MMCM_RESET)
    ensures t == t0 + (sofar + piece)
    ensures NoWriteTo(sofar + piece, MMCM_RESET)
  {
    AppendAssoc(t0, sofar, piece);
    NoWriteToAppend(sofar, piece, MMCM_RESET);
  }

  // ---------------------------------------------------------------------------
  // Configuration

  /** The write and the readback of the first `|readbacks|` registers of `regs`. */
  function ConfigTrace(regs: seq<(string, Word)>, readbacks: seq<Word>): seq<Access>
    requires |readbacks| <= |regs|
    decreases |readbacks|
  {
    if readbacks == [] then []
    else
      var i := |readbacks| - 1;
      ConfigTrace(regs, readbacks[..i]) + [Write(CTRL_BASE + regs[i].0, regs[i].1)]
      + [Read(CTRL_BASE + regs[i].0, readbacks[i])]
  }

  /** Every readback so far returned the value written. */
  predicate ConfigMatches(regs: seq<(string, Word)>, readbacks: seq<Word>)
    requires |readbacks| <= |regs|
  {
    forall j | 0 <= j < |readbacks| :: readbacks[j] == regs[j].1
  }

  lemma ConfigTraceSnoc(regs: seq<(string, Word)>, t: seq<Access>, readbacks: seq<Word>, v: Word)
    requires |readbacks| < |regs|
    ensures var i := |readbacks|;
      t + ConfigTrace(regs, readbacks) + [Write(CTRL_BASE + regs[i].0, regs[i].1)] + [Read(CTRL_BASE + regs[i].0, v)]
        == t + ConfigTrace(regs, readbacks + [v])
  {
    var i := |readbacks|;
    var front := ConfigTrace(regs, readbacks);
    var w, r := [Write(CTRL_BASE + regs[i].0, regs[i].1)], [Read(CTRL_BASE + regs[i].0, v)];
    assert (readbacks + [v])[..i] == readbacks;
    assert ConfigTrace(regs, readbacks + [v]) == front + w + r;
    AppendAssoc(t, front, w);
    AppendAssoc(t, front + w, r);
  }

  /**
   * The configuration traffic is, register by register, the write of its
   * value followed by a read of the same register.
   */
  lemma {:induction false} ConfigTraceAt(regs: seq<(string, Word)>, readbacks: seq<Word>, j: nat)
    requires |readbacks| <= |regs| && j < |readbacks|
    ensures |ConfigTrace(regs, readbacks)| == 2 * |readbacks|
    ensures ConfigTrace(regs, readbacks)[2 * j] == Write(CTRL_BASE + regs[j].0, regs[j].1)
    ensures ConfigTrace(regs, readbacks)[2 * j + 1] == Read(CTRL_BASE + regs[j].0, readbacks[j])
    decreases |readbacks|
  {
    var i := |readbacks| - 1;
    var front := readbacks[..i];
    if j < i {
      ConfigTraceAt(regs, front, j);
    } else if i > 0 {
      ConfigTraceAt(regs, front, i - 1);
    }
  }

  /**
   * The write-and-readback of the control registers `regs`, in list order.
   * The first readback that differs from the value written ends it with an
   * error naming that register; no later register is written.
   */
  method Configure(bus: Bus, regs: seq<(string, Word)>) returns (err: Option<ScanError>, ghost readbacks: seq<Word>)
    requires bus.Valid()
    modifies bus
    ensures bus.Valid()
    ensures |readbacks| <= |regs| && bus.trace == old(bus.trace) + ConfigTrace(regs, readbacks)
    ensures err.None? <==> |readbacks| == |regs| && ConfigMatches(regs, readbacks)
    ensures err.Some? ==> 1 <= |readbacks| && var k := |readbacks| - 1;
      && ConfigMatches(regs, readbacks[..k]) && readbacks[k] != regs[k].1
      && err.value == ReadbackFailed(CTRL_BASE + regs[k].0, readbacks[k], regs[k].1)
  {
    readbacks := [];
    assert bus.trace == old(bus.trace) + [];
    for i := 0 to |regs|
      invariant bus.Valid()
      invariant |readbacks| == i && ConfigMatches(regs, readbacks)
      invariant bus.trace == old(bus.trace) + ConfigTrace(regs, readbacks)
    {
      var (name, value) := regs[i];
      bus.WriteReg(CTRL_BASE + name, value);
      var readback := bus.ReadReg(CTRL_BASE + name);
      ConfigTraceSnoc(regs, old(bus.trace), readbacks, readback);
      ghost var before := readbacks;
      readbacks := readbacks + [readback];
      if readback != value {
        assert readbacks[..i] == before;
        err := Some(ReadbackFailed(CTRL_BASE + name, readback, value));
        return;
      }
    }
    err := None;
  }

  // ---------------------------------------------------------------------------
  // checkPLLLockLocal

  /** The traffic of the PLL check: one relock write and one lock read per attempt. */
  function PllTrace(locks: seq<Word>): seq<Access>
    decreases |locks|
  {
    if locks == [] then []
    else PllTrace(locks[..|locks| - 1]) + [Write(PLL_RESET, 1)] + [Read(PHASE_LOCKED, locks[|locks| - 1])]
  }

  /** The number of lock reads that were not zero. */
  function LockCount(locks: seq<Word>): (n: nat)
    ensures n <= |locks|
    ensures n == |locks| <==> forall j | 0 <= j < |locks| :: locks[j] != 0
    ensures n == 0 <==> forall j | 0 <= j < |locks| :: locks[j] == 0
    decreases |locks|
  {
    if locks == [] then 0
    else
      var front := locks[..|locks| - 1];
      assert forall j | 0 <= j < |front| :: front[j] == locks[j];
      LockCount(front) + (if locks[|locks| - 1] != 0 then 1 else 0)
  }

  lemma {:induction false} PllTraceSparesReset(locks: seq<Word>)
    ensures NoWriteTo(PllTrace(locks), MMCM_RESET)
    decreases |locks|
  {
    if locks != [] {
      PllTraceSparesReset(locks[..|locks| - 1]);
      NoWriteToAppend(PllTrace(locks[..|locks| - 1]),
                      [Write(PLL_RESET, 1)] + [Read(PHASE_LOCKED, locks[|locks| - 1])], MMCM_RESET);
    }
  }

  /** Attempt `j` of the PLL check is a relock write followed by the lock read `locks[j]`. */
  lemma {:induction false} PllTraceAt(locks: seq<Word>, j: nat)
    requires j < |locks|
    ensures |PllTrace(locks)| == 2 * |locks|
    ensures PllTrace(locks)[2 * j] == Write(PLL_RESET, 1)
    ensures PllTrace(locks)[2 * j + 1] == Read(PHASE_LOCKED, locks[j])
    decreases |locks|
  {
    var i := |locks| - 1;
    var front := locks[..i];
    if j < i {
      PllTraceAt(front, j);
    } else if i > 0 {
      PllTraceAt(front, i - 1);
    }
  }

  /**
   * `checkPLLLockLocal`: `readAttempts` rounds of a PLL reset followed by a
   * lock read; the result is the number of rounds that read locked.
   */
  method CheckPLLLock(bus: Bus, readAttempts: nat) returns (lockCnt: int, ghost locks: seq<Word>)
    requires bus.Valid()
    modifies bus
    ensures bus.Valid()
    ensures |locks| == readAttempts
    ensures bus.trace == old(bus.trace) + PllTrace(locks)
    ensures lockCnt == LockCount(locks)
    ensures 0 <= lockCnt <= readAttempts
  {
    lockCnt := 0;
    locks := [];
    for i := 0 to readAttempts
      invariant bus.Valid()
      invariant |locks| == i && lockCnt == LockCount(locks)
      invariant bus.trace == old(bus.trace) + PllTrace(locks)
    {
      bus.WriteReg(PLL_RESET, 0x1);
      var locked := bus.ReadReg(PHASE_LOCKED);
      if locked != 0 {
        lockCnt := lockCnt + 1;
      }
      ghost var before := locks;
      locks := locks + [locked];
      assert locks[..|locks| - 1] == before;
    }
  }

  // ---------------------------------------------------------------------------
  // One shift of the scan

  /** The traffic of the GTH shift retries: a new shift request, then a read of the count. */
  function RetryTrace(counts: seq<Word>): seq<Access>
    decreases |counts|
  {
    if counts == [] then []
    else RetryTrace(counts[..|counts| - 1]) + [Write(GTH_SHIFT_EN, 1)] + [Read(GTH_SHIFT_CNT, counts[|counts| - 1])]
  }

  lemma RetryTraceSnoc(t: seq<Access>, retried: seq<Word>, v: Word)
    ensures t + RetryTrace(retried) + [Write(GTH_SHIFT_EN, 1)] + [Read(GTH_SHIFT_CNT, v)] == t + RetryTrace(retried + [v])
  {
    assert (retried + [v])[..|retried|] == retried;
  }

  lemma {:induction false} RetryTraceSparesReset(counts: seq<Word>)
    ensures NoWriteTo(RetryTrace(counts), MMCM_RESET)
    decreases |counts|
  {
    if counts != [] {
      RetryTraceSparesReset(counts[..|counts| - 1]);
      NoWriteToAppend(RetryTrace(counts[..|counts| - 1]),
                      [Write(GTH_SHIFT_EN, 1)] + [Read(GTH_SHIFT_CNT, counts[|counts| - 1])], MMCM_RESET);
    }
  }

  /** The GTH count read last: the first one, or the last retry's. */
  function LastCount(first: Word, retried: seq<Word>): Word
  {
    if retried == [] then first else retried[|retried| - 1]
  }

  /** Every GTH count read before the last one missed `expected`. */
  predicate MissedBeforeLast(first: Word, retried: seq<Word>, expected: Word)
  {
    && (retried != [] ==> first != expected)
    && forall j | 0 <= j < |retried| - 1 :: retried[j] != expected
  }

  lemma MissedSnoc(first: Word, retried: seq<Word>, expected: Word, v: Word)
    requires MissedBeforeLast(first, retried, expected) && LastCount(first, retried) != expected
    ensures MissedBeforeLast(first, retried + [v], expected)
  {
    var r := retried + [v];
    forall j | 0 <= j < |r| - 1 ensures r[j] != expected {
      assert r[j] == retried[j];
    }
  }

  /** The traffic of the first GTH count check and its retries. */
  function GthTrace(first: Word, retried: seq<Word>, mmcmRead: Word): seq<Access>
  {
    [Read(GTH_SHIFT_CNT, first)] + [Read(MMCM_SHIFT_CNT, mmcmRead)] + RetryTrace(retried)
  }

  /**
   * Reading back the GTH count after a shift, and repeating the shift while
   * the count read is not the `expected` one.  The source repeats without
   * limit; the model gives up after `maxRetries` repeats and reports so.
   * `first` is the GTH count read first, `retried` those read after each
   * repeat, `mmcmRead` the MMCM count read alongside the first.
   */
  method ShiftGth(bus: Bus, expected: Word, maxRetries: nat)
    returns (ok: bool, last: Word, ghost first: Word, ghost retried: seq<Word>, ghost mmcmRead: Word)
    requires bus.Valid()
    modifies bus
    ensures bus.Valid()
    ensures bus.trace == old(bus.trace) + GthTrace(first, retried, mmcmRead)
    ensures |retried| <= maxRetries
    ensures MissedBeforeLast(first, retried, expected)
    ensures last == LastCount(first, retried) && (ok <==> last == expected)
    ensures !ok ==> |retried| == maxRetries
  {
    var tmpGth := bus.ReadReg(GTH_SHIFT_CNT);
    mmcmRead := bus.ReadReg(MMCM_SHIFT_CNT);
    first := tmpGth;
    retried := [];
    ghost var head := bus.trace;
    assert head + [] == head;
    var retries := 0;
    while tmpGth != expected && retries < maxRetries
      invariant bus.Valid()
      invariant 0 <= retries <= maxRetries && |retried| == retries
      invariant tmpGth == LastCount(first, retried)
      invariant MissedBeforeLast(first, retried, expected)
      invariant bus.trace == head + RetryTrace(retried)
      decreases maxRetries - retries
    {
      bus.WriteReg(GTH_SHIFT_EN, 0x1);
      tmpGth := bus.ReadReg(GTH_SHIFT_CNT);
      MissedSnoc(first, retried, expected, tmpGth);
      RetryTraceSnoc(head, retried, tmpGth);
      retried := retried + [tmpGth];
      retries := retries + 1;
    }
    AppendAssoc(old(bus.trace), [Read(GTH_SHIFT_CNT, first)] + [Read(MMCM_SHIFT_CNT, mmcmRead)], RetryTrace(retried));
    ok := tmpGth == expected;
    last := tmpGth;
  }

  /** The values one shift reads from the hardware. */
  datatype Observed = Observed(
    gthFirst: Word,
    gthRetries: seq<Word>,
    mmcmRead: Word,
    mmcmCheck: Option<Word>,
    pllReads: seq<Word>,
    phase: Word,
    gthPhase: Word,
    bc0Locked: Word)

  /** The MMCM readback, present only when the MMCM was shifted. */
  function CheckTrace(check: Option<Word>): seq<Access>
  {
    if check.Some? then [Read(MMCM_SHIFT_CNT_CHECK, check.value)] else []
  }

  /** The writes of a direction change. */
  function DirTrace(dirs: seq<Direction>): seq<Access>
  {
    if dirs == [] then []
    else if dirs[0] == Forward then [Write(SHIFT_DIR, 1)] + [Write(GTH_SHIFT_DIR, 0)] + DirTrace(dirs[1..])
    else [Write(SHIFT_DIR, 0)] + [Write(GTH_SHIFT_DIR, 1)] + DirTrace(dirs[1..])
  }

  /** Write the direction registers as the policy decided. */
  method WriteDirections(bus: Bus, dirs: seq<Direction>)
    requires bus.Valid() && |dirs| <= 1
    modifies bus
    ensures bus.Valid()
    ensures bus.trace == old(bus.trace) + DirTrace(dirs)
  {
    if dirs == [] {
      assert bus.trace + [] == bus.trace;
    } else if dirs[0] == Forward {
      bus.WriteReg(SHIFT_DIR, 1);
      bus.WriteReg(GTH_SHIFT_DIR, 0);
      assert DirTrace(dirs) == [Write(SHIFT_DIR, 1)] + [Write(GTH_SHIFT_DIR, 0)] + [];
    } else {
      bus.WriteReg(SHIFT_DIR, 0);
      bus.WriteReg(GTH_SHIFT_DIR, 1);
      assert DirTrace(dirs) == [Write(SHIFT_DIR, 0)] + [Write(GTH_SHIFT_DIR, 1)] + [];
    }
  }

  lemma DirTraceSparesReset(dirs: seq<Direction>)
    requires |dirs| <= 1
    ensures NoWriteTo(DirTrace(dirs), MMCM_RESET)
  {
  }

  /** The traffic of sampling the locks after a shift. */
  function SampleTrace(locks: seq<Word>, phase: Word, gthPhase: Word, bc0Locked: Word): seq<Access>
  {
    PllTrace(locks) + [Read(PM_PHASE_MEAN, phase)] + [Read(GTH_PM_PHASE_MEAN, gthPhase)] + [Read(BC0_LOCKED, bc0Locked)]
  }

  /** The traffic of a shift request: the shift, and the GTH count check with its retries. */
  function RequestTrace(o: Observed): seq<Access>
  {
    [Write(CNT_RESET, 1)] + [Write(GTH_SHIFT_EN, 1)] + GthTrace(o.gthFirst, o.gthRetries, o.mmcmRead)
  }

  /** The traffic of one completed shift that read `o` and changed direction as `dirs` says. */
  function ShiftTrace(o: Observed, dirs: seq<Direction>): seq<Access>
  {
    RequestTrace(o) + CheckTrace(o.mmcmCheck) + SampleTrace(o.pllReads, o.phase, o.gthPhase, o.bc0Locked) + DirTrace(dirs)
  }

  /** The sample the lock policy gets from a shift's reads. */
  function SampleOf(o: Observed): Sample
  {
    Sample(o.bc0Locked, LockCount(o.pllReads))
  }

  /**
   * The MMCM part of a shift: the new GTH count selects a table entry, and
   * where it is marked the expected MMCM count advances and the MMCM count is
   * read back.  A mismatch there is only logged by the source, so the value
   * read changes nothing.  An index past the table is an error of the model.
   */
  method ShiftMmcm(bus: Bus, gth: Word, mmcm: Word, reversing: bool)
    returns (mmcm': Word, err: Option<ScanError>, ghost check: Option<Word>)
    requires bus.Valid()
    modifies bus
    ensures bus.Valid()
    ensures bus.trace == old(bus.trace) + CheckTrace(check)
    ensures err.Some? <==> TableIndex(gth) as int >= |MMCM_SHIFT_TABLE|
    ensures err.Some? ==> err.value == TableIndexOutOfRange(TableIndex(gth)) && check == None
    ensures err.None? ==>
      && check.Some? == MMCM_SHIFT_TABLE[TableIndex(gth) as int]
      && mmcm' == (if check.Some? then AdvanceMmcm(mmcm, reversing) else mmcm)
  {
    mmcm' := mmcm;
    check := None;
    var index := TableIndex(gth);
    if index as int >= |MMCM_SHIFT_TABLE| {
      err := Some(TableIndexOutOfRange(index));
      assert bus.trace == bus.trace + [];
      return;
    }
    err := None;
    if MMCM_SHIFT_TABLE[index as int] {
      mmcm' := AdvanceMmcm(mmcm, reversing);
      var readback := bus.ReadReg(MMCM_SHIFT_CNT_CHECK);
      check := Some(readback);
    } else {
      assert bus.trace == bus.trace + [];
    }
  }

  /**
   * The sample taken after a shift: the PLL lock count over `readAttempts`
   * relocks, the two phase means (only logged by the source) and the BC0
   * lock.
   */
  method ReadSample(bus: Bus, readAttempts: nat)
    returns (x: Sample, ghost locks: seq<Word>, ghost phase: Word, ghost gthPhase: Word, ghost bc0Locked: Word)
    requires bus.Valid()
    modifies bus
    ensures bus.Valid()
    ensures bus.trace == old(bus.trace) + SampleTrace(locks, phase, gthPhase, bc0Locked)
    ensures |locks| == readAttempts
    ensures x == Sample(bc0Locked, LockCount(locks))
  {
    ghost var t0 := bus.trace;
    var pllLockCnt;
    pllLockCnt, locks := CheckPLLLock(bus, readAttempts);
    phase := bus.ReadReg(PM_PHASE_MEAN);
    AppendAssoc(t0, PllTrace(locks), [Read(PM_PHASE_MEAN, phase)]);
    gthPhase := bus.ReadReg(GTH_PM_PHASE_MEAN);
    AppendAssoc(t0, PllTrace(locks) + [Read(PM_PHASE_MEAN, phase)], [Read(GTH_PM_PHASE_MEAN, gthPhase)]);
    var bc0 := bus.ReadReg(BC0_LOCKED);
    AppendAssoc(t0, PllTrace(locks) + [Read(PM_PHASE_MEAN, phase)] + [Read(GTH_PM_PHASE_MEAN, gthPhase)], [Read(BC0_LOCKED, bc0)]);
    bc0Locked := bc0;
    x := Sample(bc0, pllLockCnt);
  }

  lemma SampleTraceSparesReset(locks: seq<Word>, phase: Word, gthPhase: Word, bc0Locked: Word)
    ensures NoWriteTo(SampleTrace(locks, phase, gthPhase, bc0Locked), MMCM_RESET)
  {
    PllTraceSparesReset(locks);
    var tail := [Read(PM_PHASE_MEAN, phase)] + [Read(GTH_PM_PHASE_MEAN, gthPhase)] + [Read(BC0_LOCKED, bc0Locked)];
    NoWriteToAppend(PllTrace(locks), tail, MMCM_RESET);
    AppendAssoc(PllTrace(locks), [Read(PM_PHASE_MEAN, phase)] + [Read(GTH_PM_PHASE_MEAN, gthPhase)], [Read(BC0_LOCKED, bc0Locked)]);
    AppendAssoc(PllTrace(locks), [Read(PM_PHASE_MEAN, phase)], [Read(GTH_PM_PHASE_MEAN, gthPhase)]);
  }

  lemma GthTraceSparesReset(first: Word, retried: seq<Word>, mmcmRead: Word)
    ensures NoWriteTo(GthTrace(first, retried, mmcmRead), MMCM_RESET)
  {
    RetryTraceSparesReset(retried);
    NoWriteToAppend([Read(GTH_SHIFT_CNT, first)] + [Read(MMCM_SHIFT_CNT, mmcmRead)], RetryTrace(retried), MMCM_RESET);
  }

  /**
   * The shift request of one iteration: ask for a GTH shift, check the GTH
   * count against the expected one (retrying), and shift the MMCM count where
   * the table says so.
   */
  method RequestShift(bus: Bus, gth: Word, mmcm: Word, reversing: bool, maxRetries: nat)
    returns (gth': Word, mmcm': Word, err: Option<ScanError>,
             ghost first: Word, ghost retried: seq<Word>, ghost mmcmRead: Word, ghost check: Option<Word>,
             ghost piece: seq<Access>)
    requires bus.Valid()
    modifies bus
    ensures bus.Valid()
    ensures bus.trace == old(bus.trace) + piece && NoWriteTo(piece, MMCM_RESET)
    ensures gth' == AdvanceGth(gth, reversing)
    ensures err.None? || err.value.GthShiftStuck? || err.value.TableIndexOutOfRange?
    ensures MissedBeforeLast(first, retried, gth') && |retried| <= maxRetries
    ensures err.Some? && err.value.GthShiftStuck? ==>
      && err.value == GthShiftStuck(gth', LastCount(first, retried))
      && LastCount(first, retried) != gth' && |retried| == maxRetries
    ensures err.Some? && err.value.TableIndexOutOfRange? ==>
      && err.value == TableIndexOutOfRange(TableIndex(gth'))
      && LastCount(first, retried) == gth' && TableIndex(gth') as int >= |MMCM_SHIFT_TABLE|
    ensures err.Some? ==> piece == [Write(CNT_RESET, 1)] + [Write(GTH_SHIFT_EN, 1)] + GthTrace(first, retried, mmcmRead)
    ensures err.None? ==>
      && LastCount(first, retried) == gth'
      && TableIndex(gth') as int < |MMCM_SHIFT_TABLE|
      && check.Some? == MMCM_SHIFT_TABLE[TableIndex(gth') as int]
      && mmcm' == (if check.Some? then AdvanceMmcm(mmcm, reversing) else mmcm)
      && piece == [Write(CNT_RESET, 1)] + [Write(GTH_SHIFT_EN, 1)] + GthTrace(first, retried, mmcmRead) + CheckTrace(check)
  {
    ghost var t0 := bus.trace;
    bus.WriteReg(CNT_RESET, 0x1);
    bus.WriteReg(GTH_SHIFT_EN, 0x1);
    piece := [Write(CNT_RESET, 1)] + [Write(GTH_SHIFT_EN, 1)];
    gth' := AdvanceGth(gth, reversing);
    mmcm' := mmcm;
    check := None;

    var ok, last;
    ok, last, first, retried, mmcmRead := ShiftGth(bus, gth', maxRetries);
    GthTraceSparesReset(first, retried, mmcmRead);
    Extend(t0, piece, GthTrace(first, retried, mmcmRead), bus.trace);
    piece := piece + GthTrace(first, retried, mmcmRead);
    if !ok {
      err := Some(GthShiftStuck(gth', last));
      return;
    }

    mmcm', err, check := ShiftMmcm(bus, gth', mmcm, reversing);
    Extend(t0, piece, CheckTrace(check), bus.trace);
    if err.Some? {
      assert piece + CheckTrace(check) == piece + [];
    }
    piece := piece + CheckTrace(check);
  }

  /**
   * One iteration of the scan loop: request a GTH shift, check the GTH count,
   * shift the MMCM count where the table says so, sample the PLL and BC0
   * lock, and apply the lock policy.  `o` holds what it read.  On success the
   * new state is `Step` of the old one on the sample read, the GTH count read
   * back is the expected one, and the traffic is `ShiftTrace`; on an error
   * the traffic is the shift request alone.
   */
  method ShiftOnce(bus: Bus, c: ScanConfig, s: ScanState, gth: Word, mmcm: Word, readAttempts: nat, maxRetries: nat)
    returns (r: StepResult, gth': Word, mmcm': Word, err: Option<ScanError>,
             ghost o: Observed, ghost piece: seq<Access>)
    requires bus.Valid()
    modifies bus
    ensures bus.Valid()
    ensures bus.trace == old(bus.trace) + piece && NoWriteTo(piece, MMCM_RESET)
    ensures gth' == AdvanceGth(gth, s.reversingForLock)
    ensures err.None? || err.value.GthShiftStuck? || err.value.TableIndexOutOfRange?
    ensures MissedBeforeLast(o.gthFirst, o.gthRetries, gth') && |o.gthRetries| <= maxRetries
    ensures err.Some? && err.value.GthShiftStuck? ==>
      && err.value == GthShiftStuck(gth', LastCount(o.gthFirst, o.gthRetries))
      && LastCount(o.gthFirst, o.gthRetries) != gth' && |o.gthRetries| == maxRetries
    ensures err.Some? && err.value.TableIndexOutOfRange? ==>
      && err.value == TableIndexOutOfRange(TableIndex(gth'))
      && LastCount(o.gthFirst, o.gthRetries) == gth' && TableIndex(gth') as int >= |MMCM_SHIFT_TABLE|
    ensures err.Some? ==> piece == RequestTrace(o)
    ensures err.None? ==>
      && LastCount(o.gthFirst, o.gthRetries) == gth'
      && TableIndex(gth') as int < |MMCM_SHIFT_TABLE|
      && o.mmcmCheck.Some? == MMCM_SHIFT_TABLE[TableIndex(gth') as int]
      && mmcm' == (if o.mmcmCheck.Some? then AdvanceMmcm(mmcm, s.reversingForLock) else mmcm)
      && |o.pllReads| == readAttempts
      && r == Step(c, s, SampleOf(o))
      && piece == ShiftTrace(o, r.dirs)
  {
    ghost var t0 := bus.trace;
    ghost var first, retried, mmcmRead, check;
    gth', mmcm', err, first, retried, mmcmRead, check, piece := RequestShift(bus, gth, mmcm, s.reversingForLock, maxRetries);
    r := StepResult(s, [], false);
    o := Observed(first, retried, mmcmRead, None, [], 0, 0, 0);
    if err.Some? {
      return;
    }

    var sample;
    ghost var locks, phase, gthPhase, bc0Locked;
    sample, locks, phase, gthPhase, bc0Locked := ReadSample(bus, readAttempts);
    SampleTraceSparesReset(locks, phase, gthPhase, bc0Locked);
    Extend(t0, piece, SampleTrace(locks, phase, gthPhase, bc0Locked), bus.trace);
    piece := piece + SampleTrace(locks, phase, gthPhase, bc0Locked);

    r := Step(c, s, sample);
    WriteDirections(bus, r.dirs);
    DirTraceSparesReset(r.dirs);
    Extend(t0, piece, DirTrace(r.dirs), bus.trace);
    piece := piece + DirTrace(r.dirs);
    o := Observed(first, retried, mmcmRead, check, locks, phase, gthPhase, bc0Locked);
  }


  // ---------------------------------------------------------------------------
  // The scan

  /** Where the shift loop stands after some completed shifts: the lock policy's state and the traffic so far. */
  datatype Progress = Progress(s: ScanState, trace: seq<Access>)

  /**
   * The completed shifts that read `os`: each one's sample goes to the lock
   * policy, and its traffic is `ShiftTrace` of what it read and of the
   * direction change the policy then made.
   */
  ghost function Shifts(c: ScanConfig, os: seq<Observed>): Progress
    decreases |os|, 0
  {
    if os == [] then Progress(INITIAL, []) else Next(c, os[..|os| - 1], os[|os| - 1])
  }

  /** The shifts `front`, then one more that read `o`. */
  ghost function Next(c: ScanConfig, front: seq<Observed>, o: Observed): Progress
    decreases |front|, 1
  {
    var p := Shifts(c, front);
    var r := Step(c, p.s, SampleOf(o));
    Progress(r.state, p.trace + ShiftTrace(o, r.dirs))
  }

  /** One more shift extends `Shifts` by its state and traffic. */
  lemma ShiftsSnoc(c: ScanConfig, os: seq<Observed>, o: Observed)
    ensures var p := Shifts(c, os);
      var r := Step(c, p.s, SampleOf(o));
      Shifts(c, os + [o]) == Progress(r.state, p.trace + ShiftTrace(o, r.dirs))
  {
    assert (os + [o])[..|os|] == os;
  }

  /** The traffic of the shift loop: the completed shifts, then the request of a failed one. */
  ghost function LoopTrace(c: ScanConfig, os: seq<Observed>, failed: Option<Observed>): seq<Access>
  {
    Shifts(c, os).trace + (if failed.Some? then RequestTrace(failed.value) else [])
  }

  /** The samples `xs` are those the shifts `os` read, one each, each over `readAttempts` PLL lock checks. */
  predicate SamplesRead(xs: seq<Sample>, os: seq<Observed>, readAttempts: nat)
  {
    && |xs| == |os|
    && forall i | 0 <= i < |os| :: xs[i] == SampleOf(os[i]) && |os[i].pllReads| == readAttempts
  }

  lemma SamplesReadSnoc(xs: seq<Sample>, os: seq<Observed>, readAttempts: nat, o: Observed)
    requires SamplesRead(xs, os, readAttempts) && |o.pllReads| == readAttempts
    ensures SamplesRead(xs + [SampleOf(o)], os + [o], readAttempts)
  {
  }

  /**
   * The samples `xs` are those the completed shifts `os` read, and
   * `loopTrace` is the traffic that read them, followed by that of the
   * failed shift `failed`, if any.
   */
  ghost predicate ReadByShifts(c: ScanConfig, os: seq<Observed>, failed: Option<Observed>,
                               xs: seq<Sample>, loopTrace: seq<Access>)
  {
    SamplesRead(xs, os, ReadAttempts(c)) && loopTrace == LoopTrace(c, os, failed)
  }

  /** No completed shift writes MMCM_RESET. */
  lemma {:induction false} ShiftsSpareReset(c: ScanConfig, os: seq<Observed>)
    ensures NoWriteTo(Shifts(c, os).trace, MMCM_RESET)
    decreases |os|
  {
    if os != [] {
      var n := |os| - 1;
      var o := os[n];
      var p := Shifts(c, os[..n]);
      var dirs := Step(c, p.s, SampleOf(o)).dirs;
      ShiftsSpareReset(c, os[..n]);
      GthTraceSparesReset(o.gthFirst, o.gthRetries, o.mmcmRead);
      SampleTraceSparesReset(o.pllReads, o.phase, o.gthPhase, o.bc0Locked);
      DirTraceSparesReset(dirs);
      var a := RequestTrace(o);
      NoWriteToAppend([Write(CNT_RESET, 1)] + [Write(GTH_SHIFT_EN, 1)], GthTrace(o.gthFirst, o.gthRetries, o.mmcmRead), MMCM_RESET);
      NoWriteToAppend(a, CheckTrace(o.mmcmCheck), MMCM_RESET);
      NoWriteToAppend(a + CheckTrace(o.mmcmCheck), SampleTrace(o.pllReads, o.phase, o.gthPhase, o.bc0Locked), MMCM_RESET);
      NoWriteToAppend(a + CheckTrace(o.mmcmCheck) + SampleTrace(o.pllReads, o.phase, o.gthPhase, o.bc0Locked), DirTrace(dirs), MMCM_RESET);
      NoWriteToAppend(p.trace, ShiftTrace(o, dirs), MMCM_RESET);
    }
  }

  /** Nor does the loop, a failed shift included. */
  lemma LoopTraceSparesReset(c: ScanConfig, os: seq<Observed>, failed: Option<Observed>)
    ensures NoWriteTo(LoopTrace(c, os, failed), MMCM_RESET)
  {
    ShiftsSpareReset(c, os);
    if failed.Some? {
      var f := failed.value;
      GthTraceSparesReset(f.gthFirst, f.gthRetries, f.mmcmRead);
      NoWriteToAppend([Write(CNT_RESET, 1)] + [Write(GTH_SHIFT_EN, 1)], GthTrace(f.gthFirst, f.gthRetries, f.mmcmRead), MMCM_RESET);
    }
    NoWriteToAppend(Shifts(c, os).trace, if failed.Some? then RequestTrace(failed.value) else [], MMCM_RESET);
  }

  /**
   * A shift that read `f` failed with `e`: every GTH count it read before the
   * last missed the expected one, and either the last missed it too after
   * `maxRetries` retries, or the last was the expected count and its table
   * index lies past the shift table.
   */
  predicate FailedShift(f: Observed, e: ScanError, maxRetries: nat)
  {
    var last := LastCount(f.gthFirst, f.gthRetries);
    match e
    case GthShiftStuck(expected, reported) =>
      && reported == last && last != expected && |f.gthRetries| == maxRetries
      && MissedBeforeLast(f.gthFirst, f.gthRetries, expected)
    case TableIndexOutOfRange(index) =>
      && index == TableIndex(last) && index as int >= |MMCM_SHIFT_TABLE|
      && MissedBeforeLast(f.gthFirst, f.gthRetries, last)
    case _ => false
  }

  /**
   * `ShiftOnce` after the completed shifts `os` with the samples `xs`: a
   * successful shift extends `Shifts`, the samples and `Run` by one; a failed
   * one leaves what it read in `o`.
   */
  method ShiftAfter(bus: Bus, c: ScanConfig, ghost xs: seq<Sample>, ghost os: seq<Observed>, ghost t: seq<Access>,
                    s: ScanState, gth: Word, mmcm: Word, maxRetries: nat)
    returns (r: StepResult, gth': Word, mmcm': Word, err: Option<ScanError>, ghost o: Observed, ghost piece: seq<Access>)
    requires bus.Valid()
    requires SamplesRead(xs, os, ReadAttempts(c)) && Run(c, INITIAL, xs) == RunResult(s, |xs|, false)
    requires Shifts(c, os) == Progress(s, t)
    modifies bus
    ensures bus.Valid()
    ensures bus.trace == old(bus.trace) + piece
    ensures gth' == AdvanceGth(gth, s.reversingForLock)
    ensures err.None? || err.value.GthShiftStuck? || err.value.TableIndexOutOfRange?
    ensures gth <= 39 ==> gth' <= 39 && (err.None? || err.value.GthShiftStuck?)
    ensures err.None? ==>
      && SamplesRead(xs + [SampleOf(o)], os + [o], ReadAttempts(c))
      && Run(c, INITIAL, xs + [SampleOf(o)]) == RunResult(r.state, |xs| + 1, r.stop)
      && Shifts(c, os + [o]) == Progress(r.state, t + piece)
    ensures err.Some? ==> piece == RequestTrace(o) && FailedShift(o, err.value, maxRetries)
  {
    r, gth', mmcm', err, o, piece := ShiftOnce(bus, c, s, gth, mmcm, ReadAttempts(c), maxRetries);
    if err.None? {
      ShiftsSnoc(c, os, o);
      SamplesReadSnoc(xs, os, ReadAttempts(c), o);
      RunSnoc(c, INITIAL, xs, SampleOf(o));
    }
    if gth <= 39 {
      AdvanceGthModulo40(gth, s.reversingForLock);
      TableIndexInBounds(gth');
    }
  }

  /**
   * The shift loop: at most `MaxShift(c)` iterations, each a `ShiftOnce`
   * whose sample feeds the lock policy, until the policy breaks.  `os` holds
   * what the completed shifts read and `failed` what a failed one read; the
   * samples are those read, the states are those of `Run` on them, and the
   * traffic is that of `Shifts`, then of the failed request.
   */
  method ScanLoop(bus: Bus, c: ScanConfig, gth0: Word, mmcm0: Word, maxRetries: nat)
    returns (s: ScanState, err: Option<ScanError>, ghost xs: seq<Sample>, ghost os: seq<Observed>,
             ghost failed: Option<Observed>, ghost loopTrace: seq<Access>)
    requires bus.Valid()
    modifies bus
    ensures bus.Valid()
    ensures bus.trace == old(bus.trace) + loopTrace
    ensures ReadByShifts(c, os, failed, xs, loopTrace) && (failed.Some? <==> err.Some?)
    ensures |xs| <= MaxShift(c)
    ensures s == Shifts(c, os).s && s == Run(c, INITIAL, xs).state
    ensures err.None? || err.value.GthShiftStuck? || err.value.TableIndexOutOfRange?
    ensures gth0 <= 39 ==> err.None? || err.value.GthShiftStuck?
    ensures err.None? ==> Run(c, INITIAL, xs).stopped || |xs| == MaxShift(c)
    ensures err.Some? ==>
      && !Run(c, INITIAL, xs).stopped && |xs| < MaxShift(c)
      && FailedShift(failed.value, err.value, maxRetries)
  {
    s := INITIAL;
    err := None;
    xs := [];
    os := [];
    failed := None;
    loopTrace := [];
    var gth := gth0;
    var mmcm := mmcm0;
    var maxShift := MaxShift(c);
    assert bus.trace == old(bus.trace) + [];
    for i := 0 to maxShift
      invariant bus.Valid()
      invariant |xs| == i && Run(c, INITIAL, xs) == RunResult(s, i, false)
      invariant SamplesRead(xs, os, ReadAttempts(c))
      invariant Shifts(c, os) == Progress(s, loopTrace)
      invariant bus.trace == old(bus.trace) + loopTrace
      invariant gth0 <= 39 ==> gth <= 39
    {
      var r, e;
      ghost var o, piece;
      r, gth, mmcm, e, o, piece := ShiftAfter(bus, c, xs, os, loopTrace, s, gth, mmcm, maxRetries);
      AppendAssoc(old(bus.trace), loopTrace, piece);
      loopTrace := loopTrace + piece;
      if e.Some? {
        err := e;
        failed := Some(o);
        return;
      }
      xs := xs + [SampleOf(o)];
      os := os + [o];
      s := r.state;
      if r.stop {
        break;
      }
    }
    assert loopTrace == loopTrace + [];
  }

  /** The traffic of the scan proper: the initial counts and PLL check, the shifts, and the final reset. */
  function ScanBody(mmcm0: Word, gth0: Word, pllReads: seq<Word>, loopTrace: seq<Access>, found: bool): seq<Access>
  {
    [Read(MMCM_SHIFT_CNT, mmcm0)] + [Read(GTH_SHIFT_CNT, gth0)] + PllTrace(pllReads)
    + loopTrace + (if found then [Write(MMCM_RESET, 1)] else [])
  }

  /** The scan's traffic, access by access, is `ScanBody`. */
  lemma ScanBodyJoin(t0: seq<Access>, mmcm0: Word, gth0: Word, pllReads: seq<Word>, loopTrace: seq<Access>, found: bool)
    ensures t0 + [Read(MMCM_SHIFT_CNT, mmcm0)] + [Read(GTH_SHIFT_CNT, gth0)] + PllTrace(pllReads) + loopTrace
              + (if found then [Write(MMCM_RESET, 1)] else [])
            == t0 + ScanBody(mmcm0, gth0, pllReads, loopTrace, found)
  {
    var a := [Read(MMCM_SHIFT_CNT, mmcm0)] + [Read(GTH_SHIFT_CNT, gth0)];
    var fin: seq<Access> := if found then [Write(MMCM_RESET, 1)] else [];
    AppendAssoc(t0, [Read(MMCM_SHIFT_CNT, mmcm0)], [Read(GTH_SHIFT_CNT, gth0)]);
    AppendAssoc(t0, a, PllTrace(pllReads));
    AppendAssoc(t0, a + PllTrace(pllReads), loopTrace);
    AppendAssoc(t0, a + PllTrace(pllReads) + loopTrace, fin);
  }

  /**
   * The scan after the alignment check: read the starting MMCM and GTH
   * counts, check the PLL lock, run the shift loop, and reset the MMCM when
   * the best lock was found.
   */
  method Scan(bus: Bus, c: ScanConfig, maxRetries: nat)
    returns (err: Option<ScanError>, ghost mmcm0: Word, ghost gth0: Word, ghost pllReads: seq<Word>,
             ghost samples: seq<Sample>, ghost os: seq<Observed>, ghost failed: Option<Observed>,
             ghost loopTrace: seq<Access>)
    requires bus.Valid()
    modifies bus
    ensures bus.Valid()
    ensures bus.trace == old(bus.trace) + ScanBody(mmcm0, gth0, pllReads, loopTrace, err.None?)
    ensures NoWriteTo(loopTrace, MMCM_RESET)
    ensures ReadByShifts(c, os, failed, samples, loopTrace)
    ensures failed.Some? <==> err.Some? && (err.value.GthShiftStuck? || err.value.TableIndexOutOfRange?)
    ensures |pllReads| == ReadAttempts(c) && |samples| <= MaxShift(c)
    ensures err.None? || err.value.GthShiftStuck? || err.value.TableIndexOutOfRange? || err == Some(LockNotFound)
    ensures gth0 <= 39 ==> !(err.Some? && err.value.TableIndexOutOfRange?)
    ensures err.None? || err == Some(LockNotFound) ==>
      && (err.None? <==> Run(c, INITIAL, samples).state.bestLockFound)
      && (Run(c, INITIAL, samples).stopped || |samples| == MaxShift(c))
      && (c.doScan ==> |samples| == MaxShift(c))
  {
    ghost var t0 := bus.trace;
    var readAttempts := ReadAttempts(c);
    var mmcmShiftCnt := bus.ReadReg(MMCM_SHIFT_CNT);
    var gthShiftCnt := bus.ReadReg(GTH_SHIFT_CNT);
    mmcm0, gth0 := mmcmShiftCnt, gthShiftCnt;
    var pllLockCnt;
    pllLockCnt, pllReads := CheckPLLLock(bus, readAttempts);
    var s;
    s, err, samples, os, failed, loopTrace := ScanLoop(bus, c, gthShiftCnt, mmcmShiftCnt, maxRetries);
    LoopTraceSparesReset(c, os, failed);
    ghost var t1 := bus.trace;
    if c.doScan {
      SurveyRunsToTheEnd(c, INITIAL, samples);
    }
    if err.None? {
      if s.bestLockFound {
        bus.WriteReg(MMCM_RESET, 0x1);
      } else {
        err := Some(LockNotFound);
      }
    }
    assert bus.trace == t1 + (if err.None? then [Write(MMCM_RESET, 1)] else []);
    ScanBodyJoin(t0, mmcm0, gth0, pllReads, loopTrace, err.None?);
  }

  /**
   * The scan writes MMCM_RESET exactly when it found the lock, and then only
   * as its very last access.
   */
  lemma ScanBodyResetIffFound(mmcm0: Word, gth0: Word, pllReads: seq<Word>, loopTrace: seq<Access>, found: bool)
    requires NoWriteTo(loopTrace, MMCM_RESET)
    ensures var t := ScanBody(mmcm0, gth0, pllReads, loopTrace, found);
      && (found <==> !NoWriteTo(t, MMCM_RESET))
      && (found ==> NoWriteTo(t[..|t| - 1], MMCM_RESET) && t[|t| - 1] == Write(MMCM_RESET, 1))
  {
    var front := [Read(MMCM_SHIFT_CNT, mmcm0)] + [Read(GTH_SHIFT_CNT, gth0)] + PllTrace(pllReads) + loopTrace;
    PllTraceSparesReset(pllReads);
    NoWriteToAppend([Read(MMCM_SHIFT_CNT, mmcm0)] + [Read(GTH_SHIFT_CNT, gth0)], PllTrace(pllReads), MMCM_RESET);
    NoWriteToAppend([Read(MMCM_SHIFT_CNT, mmcm0)] + [Read(GTH_SHIFT_CNT, gth0)] + PllTrace(pllReads), loopTrace, MMCM_RESET);
    var t := ScanBody(mmcm0, gth0, pllReads, loopTrace, found);
    if found {
      assert t == front + [Write(MMCM_RESET, 1)];
      assert t[..|t| - 1] == front;
      assert WritesTo(t[|t| - 1], MMCM_RESET);
    } else {
      assert t == front + [];
    }
  }

  /** The outcome the scan reports, and everything it read, for the contract of `TtcMMCMPhaseShift`. */
  datatype ScanRecord = ScanRecord(
    readbacks: seq<Word>,
    alignmentOff: Word,
    mmcm0: Word,
    gth0: Word,
    pllReads: seq<Word>,
    samples: seq<Sample>,
    os: seq<Observed>,
    failed: Option<Observed>,
    loopTrace: seq<Access>)

  /** The configuration succeeded: every readback matched. */
  predicate Configured(rec: ScanRecord)
  {
    |rec.readbacks| == |CONFIG_REGS| && ConfigMatches(CONFIG_REGS, rec.readbacks)
  }

  /** The traffic of a scan that got past configuration and the alignment check. */
  function ScanTrace(rec: ScanRecord, found: bool): seq<Access>
    requires |rec.readbacks| <= |CONFIG_REGS|
  {
    ConfigTrace(CONFIG_REGS, rec.readbacks) + [Read(DISABLE_ALIGNMENT, rec.alignmentOff)]
    + ScanBody(rec.mmcm0, rec.gth0, rec.pllReads, rec.loopTrace, found)
  }

  /**
   * `ttcMMCMPhaseShiftLocal`.  A failed readback, or automatic phase alignment
   * still enabled, ends it before any shift; otherwise it scans, and writes MMCM_RESET once,
   * at the very end, exactly when the lock policy found the best lock (the
   * result is then `None`); otherwise it reports that no lock was found.
   */
  method TtcMMCMPhaseShift(bus: Bus, shiftOutOfLockFirst: bool, useBC0Locked: bool, doScan: bool, maxRetries: nat)
    returns (err: Option<ScanError>, ghost rec: ScanRecord)
    requires bus.Valid()
    modifies bus
    ensures bus.Valid()
    ensures |rec.readbacks| <= |CONFIG_REGS|
    ensures !Configured(rec) ==>
      && bus.trace == old(bus.trace) + ConfigTrace(CONFIG_REGS, rec.readbacks)
      && err.Some? && err.value.ReadbackFailed?
    ensures Configured(rec) && rec.alignmentOff == 0 ==>
      && bus.trace == old(bus.trace) + ConfigTrace(CONFIG_REGS, rec.readbacks) + [Read(DISABLE_ALIGNMENT, 0)]
      && err == Some(AlignmentStillEnabled)
    ensures Configured(rec) && rec.alignmentOff != 0 ==>
      var c := ScanConfig(shiftOutOfLockFirst, useBC0Locked, doScan);
      && bus.trace == old(bus.trace) + ScanTrace(rec, err.None?)
      && NoWriteTo(rec.loopTrace, MMCM_RESET)
      && ReadByShifts(c, rec.os, rec.failed, rec.samples, rec.loopTrace)
      && (rec.failed.Some? <==> err.Some? && (err.value.GthShiftStuck? || err.value.TableIndexOutOfRange?))
      && |rec.pllReads| == ReadAttempts(c)
      && |rec.samples| <= MaxShift(c)
      && (err.None? || err.value.GthShiftStuck? || err.value.TableIndexOutOfRange? || err == Some(LockNotFound))
      && (rec.gth0 <= 39 ==> !(err.Some? && err.value.TableIndexOutOfRange?))
      && (err.None? || err == Some(LockNotFound) ==>
            && (err.None? <==> Run(c, INITIAL, rec.samples).state.bestLockFound)
            && (Run(c, INITIAL, rec.samples).stopped || |rec.samples| == MaxShift(c))
            && (doScan ==> |rec.samples| == MaxShift(c)))
  {
    var c := ScanConfig(shiftOutOfLockFirst, useBC0Locked, doScan);
    rec := ScanRecord([], 0, 0, 0, [], [], [], None, []);
    ghost var readbacks;
    err, readbacks := Configure(bus, CONFIG_REGS);
    rec := rec.(readbacks := readbacks);
    if err.Some? {
      return;
    }
    var alignmentOff := bus.ReadReg(DISABLE_ALIGNMENT);
    rec := rec.(alignmentOff := alignmentOff);
    if alignmentOff == 0x0 {
      err := Some(AlignmentStillEnabled);
      return;
    }
    ghost var mmcm0, gth0, pllReads, samples, os, failed, loopTrace;
    err, mmcm0, gth0, pllReads, samples, os, failed, loopTrace := Scan(bus, c, maxRetries);
    rec := ScanRecord(readbacks, alignmentOff, mmcm0, gth0, pllReads, samples, os, failed, loopTrace);
    AppendAssoc(old(bus.trace), ConfigTrace(CONFIG_REGS, readbacks), [Read(DISABLE_ALIGNMENT, alignmentOff)]);
    AppendAssoc(old(bus.trace), ConfigTrace(CONFIG_REGS, readbacks) + [Read(DISABLE_ALIGNMENT, alignmentOff)],
                ScanBody(mmcm0, gth0, pllReads, loopTrace, err.None?));
  }

  // ---------------------------------------------------------------------------
  // getTTCCounterLocal

  const COUNTERS_BASE: Path := "GEM_AMC.TTC.CMD_COUNTERS."

  function CounterPath(name: string): Path
  {
    COUNTERS_BASE + name
  }

  /** The TTC command counters, in the order of their command codes 1 to 10. */
  const COUNTER_NAMES: seq<string> :=
    ["L1A", "BC0", "EC0", "RESYNC", "OC0", "HARD_RESET", "CALPULSE", "START", "STOP", "TEST_SYNC"]

  /** The reads of all counters, one per reported (name, value) pair. */
  function CounterReads(reported: seq<(string, Word)>): seq<Access>
    decreases |reported|
  {
    if reported == [] then []
    else
      var last := reported[|reported| - 1];
      CounterReads(reported[..|reported| - 1]) + [Read(CounterPath(last.0), last.1)]
  }

  /** The reported pairs carry the first `|reported|` of `names`, in order. */
  predicate NamedInOrder(names: seq<string>, reported: seq<(string, Word)>)
  {
    |reported| <= |names| && forall j | 0 <= j < |reported| :: reported[j].0 == names[j]
  }

  lemma NamedInOrderSnoc(names: seq<string>, reported: seq<(string, Word)>, value: Word)
    requires NamedInOrder(names, reported) && |reported| < |names|
    ensures NamedInOrder(names, reported + [(names[|reported|], value)])
  {
    var r := reported + [(names[|reported|], value)];
    forall j | 0 <= j < |r| ensures r[j].0 == names[j] {
      if j < |reported| {
        assert r[j] == reported[j];
      }
    }
  }

  lemma CounterReadsSnoc(t: seq<Access>, reported: seq<(string, Word)>, p: (string, Word))
    ensures t + CounterReads(reported) + [Read(CounterPath(p.0), p.1)] == t + CounterReads(reported + [p])
  {
    assert (reported + [p])[..|reported|] == reported;
  }

  /**
   * `getTTCCounterLocal`: codes 1 to 10 read the counter of that position in
   * `COUNTER_NAMES`; any other code reads and reports every counter, in order,
   * and returns a fresh read of L1A.
   */
  method GetTTCCounter(bus: Bus, cmd: bv8) returns (v: Word, reported: seq<(string, Word)>)
    requires bus.Valid()
    modifies bus
    ensures bus.Valid()
    ensures 1 <= cmd <= 10 ==>
      bus.trace == old(bus.trace) + [Read(CounterPath(COUNTER_NAMES[cmd - 1]), v)] && reported == []
    ensures !(1 <= cmd <= 10) ==>
      && |reported| == |COUNTER_NAMES| && NamedInOrder(COUNTER_NAMES, reported)
      && bus.trace == old(bus.trace) + CounterReads(reported) + [Read(CounterPath("L1A"), v)]
  {
    reported := [];
    match cmd {
      case 0x1 => v := bus.ReadReg(CounterPath("L1A"));
      case 0x2 => v := bus.ReadReg(CounterPath("BC0"));
      case 0x3 => v := bus.ReadReg(CounterPath("EC0"));
      case 0x4 => v := bus.ReadReg(CounterPath("RESYNC"));
      case 0x5 => v := bus.ReadReg(CounterPath("OC0"));
      case 0x6 => v := bus.ReadReg(CounterPath("HARD_RESET"));
      case 0x7 => v := bus.ReadReg(CounterPath("CALPULSE"));
      case 0x8 => v := bus.ReadReg(CounterPath("START"));
      case 0x9 => v := bus.ReadReg(CounterPath("STOP"));
      case 0xa => v := bus.ReadReg(CounterPath("TEST_SYNC"));
      case _ =>
        assert old(bus.trace) + [] == old(bus.trace);
        for k := 0 to |COUNTER_NAMES|
          invariant bus.Valid()
          invariant |reported| == k && NamedInOrder(COUNTER_NAMES, reported)
          invariant bus.trace == old(bus.trace) + CounterReads(reported)
        {
          var value := bus.ReadReg(CounterPath(COUNTER_NAMES[k]));
          NamedInOrderSnoc(COUNTER_NAMES, reported, value);
          CounterReadsSnoc(old(bus.trace), reported, (COUNTER_NAMES[k], value));
          reported := reported + [(COUNTER_NAMES[k], value)];
        }
        v := bus.ReadReg(CounterPath("L1A"));
    }
  }
}
