/**
 * The lock-detection logic of the TTC phase-alignment scan
 * (`ttcMMCMPhaseShiftLocal`), as a pure transition on the scan's flags and
 * counters, and the arithmetic of the two shift counters it steps.
 *
 * One iteration of the scan observes the BC0 lock register and the PLL lock
 * count, changes the flags and counters, possibly reverses the shift
 * direction, and possibly stops the scan.  `Step` is that iteration without
 * its register traffic; `Run` is a whole scan over a sequence of samples.
 */
module TtcPolicy {

  /** `PLL_LOCK_READ_ATTEMPTS`: the PLL lock count of a fully locked sample. */
  const PLL_LOCK_READ_ATTEMPTS: int := 10

  /** The three switches of the scan. */
  datatype ScanConfig = ScanConfig(shiftOutOfLockFirst: bool, useBC0Locked: bool, doScan: bool)

  /** The PLL relock attempts per sample: 10 unless only BC0 lock is used outside a survey. */
  function ReadAttempts(c: ScanConfig): (n: nat)
    ensures n == 1 || n == PLL_LOCK_READ_ATTEMPTS
    ensures n == PLL_LOCK_READ_ATTEMPTS <==> !c.useBC0Locked || c.doScan
  {
    if c.doScan then PLL_LOCK_READ_ATTEMPTS
    else if !c.useBC0Locked then PLL_LOCK_READ_ATTEMPTS
    else 1
  }

  /** The iteration bound of the scan: one and a half BX periods of 7680 shifts, or two in a survey. */
  function MaxShift(c: ScanConfig): (n: nat)
    ensures n == 11520 || n == 23040
    ensures n == 23040 <==> c.doScan
  {
    if c.doScan then 23040 else 7680 + 7680 / 2
  }

  // ---------------------------------------------------------------------------
  // The two shift counters

  /**
   * The expected GTH phase-interpolator count after one shift: it counts up
   * and wraps 39 -> 0, or, while reversing, counts down and wraps 0 -> 39.
   * The count is an unsigned 32-bit register value.
   */
  function AdvanceGth(gth: bv32, reversing: bool): bv32
  {
    if !reversing && gth == 39 then 0
    else if reversing && gth == 0 then 39
    else if reversing then gth - 1
    else gth + 1
  }

  /** Started in 0..39, the GTH count stays there and moves by one modulo 40. */
  lemma AdvanceGthModulo40(gth: bv32, reversing: bool)
    requires gth <= 39
    ensures AdvanceGth(gth, reversing) <= 39
    ensures !reversing ==> AdvanceGth(gth, reversing) == (gth + 1) % 40
    ensures reversing ==> AdvanceGth(gth, reversing) == (gth + 39) % 40
  {
  }

  /** Shifting forward then back (or back then forward) restores the GTH count. */
  lemma AdvanceGthReversible(gth: bv32, reversing: bool)
    requires gth <= 39
    ensures AdvanceGth(AdvanceGth(gth, reversing), !reversing) == gth
  {
  }

  /**
   * `mmcmShiftTable`: whether the MMCM is shifted along with the GTH shift that
   * leads to GTH count `i - 1`.  It has 41 entries.
   */
  const MMCM_SHIFT_TABLE: seq<bool> := [
    false, false, false, true, false, false, false,
    false, false, true, false, false, false, false,
    false, true, false, false, false, false, true,
    false, false, false, false, false, true, false,
    false, false, false, false, true, false, false,
    false, false, false, true, false, false]

  /** The table marks exactly the indices 3, 9, 15, 20, 26, 32 and 38. */
  lemma MmcmShiftTableEntries()
    ensures |MMCM_SHIFT_TABLE| == 41
    ensures forall i | 0 <= i < 41 ::
      MMCM_SHIFT_TABLE[i] <==> i == 3 || i == 9 || i == 15 || i == 20 || i == 26 || i == 32 || i == 38
  {
  }

  /** The table index of a GTH count, `gthShiftCnt + 1` in unsigned 32-bit arithmetic. */
  function TableIndex(gth: bv32): bv32
  {
    gth + 1
  }

  /** A GTH count in 0..39 indexes the table within its bounds. */
  lemma TableIndexInBounds(gth: bv32)
    requires gth <= 39
    ensures 1 <= TableIndex(gth) as int <= 40 < |MMCM_SHIFT_TABLE|
  {
  }

  /**
   * The expected MMCM shift count after one MMCM shift: up with wrap
   * 0xffff -> 0, or down with wrap 0 -> 0xffff while reversing.
   */
  function AdvanceMmcm(mmcm: bv32, reversing: bool): bv32
  {
    if !reversing && mmcm == 0xffff then 0
    else if reversing && mmcm == 0 then 0xffff
    else if reversing then mmcm - 1
    else mmcm + 1
  }

  /** Started in 0..0xffff, the MMCM count stays there and moves by one modulo 65536. */
  lemma AdvanceMmcmModulo65536(mmcm: bv32, reversing: bool)
    requires mmcm <= 0xffff
    ensures AdvanceMmcm(mmcm, reversing) <= 0xffff
    ensures !reversing ==> AdvanceMmcm(mmcm, reversing) == (mmcm + 1) % 0x1_0000
    ensures reversing ==> AdvanceMmcm(mmcm, reversing) == (mmcm + 0xffff) % 0x1_0000
  {
  }

  // ---------------------------------------------------------------------------
  // The lock-detection state machine

  /** The flags and counters the scan keeps from one iteration to the next. */
  datatype ScanState = ScanState(
    firstUnlockFound: bool,
    nextLockFound: bool,
    bestLockFound: bool,
    reversingForLock: bool,
    nGoodLocks: int,
    nBadLocks: int,
    nShiftsSinceLock: int,
    totalShiftCount: int)

  /** The state before the first iteration: every flag false, every counter 0. */
  const INITIAL: ScanState := ScanState(false, false, false, false, 0, 0, 0, 0)

  /**
   * A write pair to the two direction registers: `Forward` writes
   * PA_MANUAL_SHIFT_DIR = 1 and PA_GTH_MANUAL_SHIFT_DIR = 0, `Reverse` 0 and 1.
   */
  datatype Direction = Forward | Reverse

  /** The outcome of one iteration: the new state, the direction writes in order, and whether it breaks. */
  datatype StepResult = StepResult(state: ScanState, dirs: seq<Direction>, stop: bool)

  /** The two observations of one iteration. */
  datatype Sample = Sample(bc0Locked: bv32, pllLockCnt: int)

  /** The counters that only ever count up or are cleared are not negative. */
  predicate NonNegative(s: ScanState)
  {
    s.nGoodLocks >= 0 && s.nBadLocks >= 0 && s.nShiftsSinceLock >= 0
  }

  /**
   * What every branch of the lock policy respects: it breaks only with the
   * best lock found and outside a survey, it writes the direction registers at
   * most once, it moves each run counter by at most one or clears it, it leaves
   * the shift count alone, and without `shiftOutOfLockFirst` it never declares
   * the first unlock.
   */
  predicate PolicyMove(c: ScanConfig, s: ScanState, r: StepResult)
  {
    && (r.stop ==> r.state.bestLockFound && !c.doScan)
    && |r.dirs| <= 1
    && r.state.totalShiftCount == s.totalShiftCount
    && (r.state.nShiftsSinceLock == s.nShiftsSinceLock || r.state.nShiftsSinceLock == 0)
    && (r.stop ==> r.state.nShiftsSinceLock == s.nShiftsSinceLock)
    && (NonNegative(s) ==>
          NonNegative(r.state) && r.state.nGoodLocks <= s.nGoodLocks + 1 && r.state.nBadLocks <= s.nBadLocks + 1)
    && (!c.shiftOutOfLockFirst && !s.firstUnlockFound ==> !r.state.firstUnlockFound)
  }

  /** Counting one sample before the first unlock: a good one extends the run of good locks, a bad one the run of bad locks. */
  function CountSample(s: ScanState, good: bool): ScanState
  {
    if good then s.(bestLockFound := false, nBadLocks := 0, nGoodLocks := s.nGoodLocks + 1)
    else s.(bestLockFound := false, nBadLocks := s.nBadLocks + 1, nGoodLocks := 0)
  }

  /**
   * The reverse-scan search: a bad sample while reversing turns back to the
   * normal direction; `reverseAt` consecutive good samples reverse the
   * direction; `bestAt` of them while reversing is the best lock, which ends
   * the scan, or in a survey turns back and starts again.
   */
  function ReverseSearch(c: ScanConfig, s: ScanState, reverseAt: int, bestAt: int): (r: StepResult)
    requires reverseAt < bestAt
    ensures PolicyMove(c, s, r)
    ensures r.state.firstUnlockFound == s.firstUnlockFound
  {
    var turned :=
      if s.reversingForLock && s.nBadLocks > 0 then
        StepResult(s.(bestLockFound := false, reversingForLock := false, nGoodLocks := 0), [Forward], false)
      else if s.nGoodLocks == reverseAt then
        StepResult(s.(reversingForLock := true), [Reverse], false)
      else
        StepResult(s, [], false);
    var t := turned.state;
    if t.reversingForLock && t.nGoodLocks == bestAt then
      if c.doScan then
        StepResult(t.(bestLockFound := false, reversingForLock := false, nGoodLocks := 0), turned.dirs + [Forward], false)
      else
        StepResult(t.(bestLockFound := true), turned.dirs, true)
    else turned
  }

  /** The best lock after the first unlock: the scan ends, or in a survey the search starts over. */
  function HuntFound(c: ScanConfig, s: ScanState): (r: StepResult)
    ensures PolicyMove(c, s, r)
    ensures r.state.bestLockFound
  {
    if c.doScan then
      StepResult(s.(bestLockFound := true, nextLockFound := false, firstUnlockFound := false,
                    nGoodLocks := 0, nBadLocks := 0, nShiftsSinceLock := 0), [], false)
    else
      StepResult(s.(bestLockFound := true), [], true)
  }

  /** Policy A (BC0 lock), before the first unlock: more than 100 bad samples, or the 200/300 reverse search. */
  function BC0BeforeUnlock(c: ScanConfig, s: ScanState, bc0Locked: bv32): (r: StepResult)
    ensures PolicyMove(c, s, r)
  {
    var t := CountSample(s, bc0Locked != 0);
    if c.shiftOutOfLockFirst then
      StepResult(if t.nBadLocks > 100 then t.(firstUnlockFound := true) else t, [], false)
    else
      ReverseSearch(c, t, 200, 300)
  }

  /** Policy A after the first unlock: 1920 good samples, counted without reset on bad ones, are the best lock. */
  function BC0AfterUnlock(c: ScanConfig, s: ScanState, bc0Locked: bv32): (r: StepResult)
    requires s.firstUnlockFound
    ensures PolicyMove(c, s, r)
  {
    var t :=
      if bc0Locked == 0 then s.(nBadLocks := s.nBadLocks + 1)
      else if !s.nextLockFound then s.(nextLockFound := true, nBadLocks := 0, nGoodLocks := s.nGoodLocks + 1)
      else s.(nGoodLocks := s.nGoodLocks + 1);
    if t.nGoodLocks == 1920 then HuntFound(c, t) else StepResult(t, [], false)
  }

  /**
   * Policy B (PLL lock count), before the first unlock: only with
   * `shiftOutOfLockFirst` does it act, on more than 500 bad samples or by the
   * 50/75 reverse search.
   */
  function PllBeforeUnlock(c: ScanConfig, s: ScanState, pllLockCnt: int): (r: StepResult)
    ensures PolicyMove(c, s, r)
  {
    var t := CountSample(s, pllLockCnt >= PLL_LOCK_READ_ATTEMPTS);
    if c.shiftOutOfLockFirst then
      if t.nBadLocks > 500 then StepResult(t.(firstUnlockFound := true), [], false)
      else ReverseSearch(c, t, 50, 75)
    else
      StepResult(t, [], false)
  }

  /**
   * Policy B after the first unlock: only a sample with fewer than 10 PLL
   * locks does anything; the first such sample marks the next lock, and one
   * that sees 1000 shifts since that lock is the best lock.
   */
  function PllAfterUnlock(c: ScanConfig, s: ScanState, pllLockCnt: int): (r: StepResult)
    requires s.firstUnlockFound
    ensures PolicyMove(c, s, r)
  {
    if pllLockCnt < PLL_LOCK_READ_ATTEMPTS then
      var t :=
        if s.nextLockFound then s.(nBadLocks := s.nBadLocks + 1)
        else s.(nextLockFound := true, nBadLocks := 0, nGoodLocks := s.nGoodLocks + 1);
      if t.nShiftsSinceLock == 1000 then HuntFound(c, t) else StepResult(t, [], false)
    else
      StepResult(s, [], false)
  }

  /** The lock policy of one iteration, before the shift counters are updated. */
  function Policy(c: ScanConfig, s: ScanState, x: Sample): (r: StepResult)
    ensures PolicyMove(c, s, r)
  {
    if c.useBC0Locked then
      if !s.firstUnlockFound then BC0BeforeUnlock(c, s, x.bc0Locked) else BC0AfterUnlock(c, s, x.bc0Locked)
    else
      if !s.firstUnlockFound then PllBeforeUnlock(c, s, x.pllLockCnt) else PllAfterUnlock(c, s, x.pllLockCnt)
  }

  /** The end of a completed iteration: count a shift since the next lock, and one shift in the current direction. */
  function CountShift(s: ScanState): ScanState
  {
    s.(nShiftsSinceLock := if s.nextLockFound then s.nShiftsSinceLock + 1 else s.nShiftsSinceLock,
       totalShiftCount := if s.reversingForLock then s.totalShiftCount - 1 else s.totalShiftCount + 1)
  }

  /**
   * One iteration of the scan.  A `break` leaves the shift counters alone;
   * otherwise the shift is counted in the direction the iteration ends in.
   */
  function Step(c: ScanConfig, s: ScanState, x: Sample): (r: StepResult)
    ensures r.stop ==> r.state.bestLockFound && !c.doScan
    ensures c.doScan ==> !r.stop
    ensures |r.dirs| <= 1
    ensures !r.stop ==> r.state.totalShiftCount == s.totalShiftCount + (if r.state.reversingForLock then -1 else 1)
    ensures !r.stop ==>
      r.state.nShiftsSinceLock == (if r.state.nextLockFound then 1 else 0) + Policy(c, s, x).state.nShiftsSinceLock
    ensures r.stop ==> r.state.totalShiftCount == s.totalShiftCount && r.state.nShiftsSinceLock == s.nShiftsSinceLock
  {
    var p := Policy(c, s, x);
    if p.stop then p else StepResult(CountShift(p.state), p.dirs, false)
  }

  // ---------------------------------------------------------------------------
  // Properties of one iteration

  /** Policy A with `shiftOutOfLockFirst`: the first unlock is the 101st bad sample in a row. */
  lemma BC0UnlockThreshold(c: ScanConfig, s: ScanState, x: Sample)
    requires c.useBC0Locked && c.shiftOutOfLockFirst && !s.firstUnlockFound
    ensures var r := Step(c, s, x);
      && !r.stop && r.dirs == []
      && (r.state.firstUnlockFound <==> x.bc0Locked == 0 && s.nBadLocks + 1 > 100)
      && !r.state.bestLockFound && r.state.reversingForLock == s.reversingForLock
  {
  }

  /**
   * Policy A without `shiftOutOfLockFirst`: the 200th good sample in a row
   * reverses the scan; a bad sample while reversing turns it back and clears
   * the run; the 300th good sample while reversing is the best lock.  The first
   * unlock is never declared.
   */
  lemma BC0ReverseSearch(c: ScanConfig, s: ScanState, x: Sample)
    requires c.useBC0Locked && !c.shiftOutOfLockFirst && !s.firstUnlockFound && s.nBadLocks >= 0
    ensures var r := Step(c, s, x);
      && !r.state.firstUnlockFound && r.state.nBadLocks >= 0
      && (x.bc0Locked != 0 && s.nGoodLocks + 1 == 200 ==> r.dirs == [Reverse] && r.state.reversingForLock && !r.stop)
      && (x.bc0Locked == 0 && s.reversingForLock ==>
            r.dirs == [Forward] && !r.state.reversingForLock && r.state.nGoodLocks == 0 && !r.stop)
      && (x.bc0Locked != 0 && s.reversingForLock && s.nGoodLocks + 1 == 300 ==>
            (c.doScan ==> r.dirs == [Forward] && !r.state.reversingForLock && !r.state.bestLockFound && !r.stop)
            && (!c.doScan ==> r.dirs == [] && r.state.bestLockFound && r.stop))
      && (r.state.bestLockFound <==> r.stop)
  {
  }

  /**
   * Policy A after the first unlock: a bad sample never resets the good
   * count, and the best lock is the 1920th good sample.
   */
  lemma BC0AfterUnlockThreshold(c: ScanConfig, s: ScanState, x: Sample)
    requires c.useBC0Locked && s.firstUnlockFound && !s.bestLockFound
    ensures var r := Step(c, s, x);
      && r.dirs == []
      && (r.state.bestLockFound <==> s.nGoodLocks + (if x.bc0Locked != 0 then 1 else 0) == 1920)
      && (x.bc0Locked == 0 && s.nGoodLocks != 1920 ==> r.state.nGoodLocks == s.nGoodLocks)
  {
  }

  /**
   * Policy B with `shiftOutOfLockFirst`, before the first unlock: the first
   * unlock is the 501st bad sample in a row; otherwise the reverse search runs
   * with thresholds 50 and 75.
   */
  lemma PllBeforeUnlockThresholds(c: ScanConfig, s: ScanState, x: Sample)
    requires !c.useBC0Locked && c.shiftOutOfLockFirst && !s.firstUnlockFound && s.nBadLocks >= 0
    ensures var r := Step(c, s, x);
      && (r.state.firstUnlockFound <==> x.pllLockCnt < PLL_LOCK_READ_ATTEMPTS && s.nBadLocks + 1 > 500)
      && (x.pllLockCnt >= PLL_LOCK_READ_ATTEMPTS && s.nGoodLocks + 1 == 50 ==> r.dirs == [Reverse] && r.state.reversingForLock)
      && (x.pllLockCnt < PLL_LOCK_READ_ATTEMPTS && s.reversingForLock && s.nBadLocks + 1 <= 500 ==>
            r.dirs == [Forward] && !r.state.reversingForLock && r.state.nGoodLocks == 0)
      && (x.pllLockCnt >= PLL_LOCK_READ_ATTEMPTS && s.reversingForLock && s.nGoodLocks + 1 == 75 ==>
            (c.doScan ==> r.dirs == [Forward] && !r.state.bestLockFound)
            && (!c.doScan ==> r.state.bestLockFound && r.stop))
  {
  }

  /** Policy B without `shiftOutOfLockFirst`, before the first unlock: it only counts; it never reverses or stops. */
  lemma PllWithoutShiftOutOnlyCounts(c: ScanConfig, s: ScanState, x: Sample)
    requires !c.useBC0Locked && !c.shiftOutOfLockFirst && !s.firstUnlockFound
    ensures var r := Step(c, s, x);
      && r.dirs == [] && !r.stop
      && !r.state.firstUnlockFound && !r.state.bestLockFound
      && r.state.reversingForLock == s.reversingForLock
  {
  }

  /**
   * Policy B after the first unlock: a sample with all 10 PLL locks changes
   * nothing but the shift counters; a sample with fewer is the best lock
   * exactly when it sees 1000 shifts since the next lock.
   */
  lemma PllAfterUnlockThreshold(c: ScanConfig, s: ScanState, x: Sample)
    requires !c.useBC0Locked && s.firstUnlockFound && !s.bestLockFound
    ensures var r := Step(c, s, x);
      && r.dirs == []
      && (x.pllLockCnt >= PLL_LOCK_READ_ATTEMPTS ==> !r.stop && r.state == CountShift(s))
      && (r.state.bestLockFound <==> x.pllLockCnt < PLL_LOCK_READ_ATTEMPTS && s.nShiftsSinceLock == 1000)
  {
  }

  // ---------------------------------------------------------------------------
  // The reachable states

  /**
   * What holds of every state the scan reaches: the counters are never
   * negative, and without `shiftOutOfLockFirst` the BC0 policy never passes its
   * first unlock.
   */
  predicate Consistent(c: ScanConfig, s: ScanState)
  {
    && s.nGoodLocks >= 0 && s.nBadLocks >= 0 && s.nShiftsSinceLock >= 0
    && (!c.shiftOutOfLockFirst ==> !s.firstUnlockFound)
  }

  /** The counters of a state are all within `n` of zero. */
  predicate CountersWithin(s: ScanState, n: int)
  {
    && s.nGoodLocks <= n && s.nBadLocks <= n && s.nShiftsSinceLock <= n
    && -n <= s.totalShiftCount <= n
  }

  /** An iteration keeps the state consistent and moves every counter by at most one. */
  lemma StepPreserves(c: ScanConfig, s: ScanState, x: Sample, n: int)
    requires Consistent(c, s) && CountersWithin(s, n)
    ensures Consistent(c, Step(c, s, x).state)
    ensures CountersWithin(Step(c, s, x).state, n + 1)
  {
    assert PolicyMove(c, s, Policy(c, s, x));
  }

  // ---------------------------------------------------------------------------
  // A whole scan

  /** The result of a scan: the final state, the iterations completed or broken out of, and whether it broke. */
  datatype RunResult = RunResult(state: ScanState, steps: nat, stopped: bool)

  /** The scan over `xs`, one iteration per sample, up to and including the first that breaks. */
  function Run(c: ScanConfig, s: ScanState, xs: seq<Sample>): (r: RunResult)
    ensures r.steps <= |xs|
    ensures !r.stopped ==> r.steps == |xs|
    decreases |xs|
  {
    if xs == [] then RunResult(s, 0, false)
    else
      var r := Step(c, s, xs[0]);
      if r.stop then RunResult(r.state, 1, true)
      else
        var rest := Run(c, r.state, xs[1..]);
        RunResult(rest.state, rest.steps + 1, rest.stopped)
  }

  /** A scan that has not broken yet is extended by one more iteration. */
  lemma {:induction false} RunSnoc(c: ScanConfig, s: ScanState, xs: seq<Sample>, x: Sample)
    requires !Run(c, s, xs).stopped
    ensures var r := Step(c, Run(c, s, xs).state, x);
      Run(c, s, xs + [x]) == RunResult(r.state, |xs| + 1, r.stop)
    decreases |xs|
  {
    if xs != [] {
      assert (xs + [x])[0] == xs[0];
      assert (xs + [x])[1..] == xs[1..] + [x];
      RunSnoc(c, Step(c, s, xs[0]).state, xs[1..], x);
    }
  }

  /** A survey never breaks: it runs every iteration. */
  lemma {:induction false} SurveyRunsToTheEnd(c: ScanConfig, s: ScanState, xs: seq<Sample>)
    requires c.doScan
    ensures !Run(c, s, xs).stopped && Run(c, s, xs).steps == |xs|
    decreases |xs|
  {
    if xs != [] {
      SurveyRunsToTheEnd(c, Step(c, s, xs[0]).state, xs[1..]);
    }
  }

  /** A scan that breaks ends with the best lock found, outside a survey. */
  lemma {:induction false} StoppedRunFoundLock(c: ScanConfig, s: ScanState, xs: seq<Sample>)
    ensures Run(c, s, xs).stopped ==> Run(c, s, xs).state.bestLockFound && !c.doScan
    decreases |xs|
  {
    if xs != [] && !Step(c, s, xs[0]).stop {
      StoppedRunFoundLock(c, Step(c, s, xs[0]).state, xs[1..]);
    }
  }

  /**
   * Policy B without `shiftOutOfLockFirst` can never find a lock: from a state
   * before the first unlock with no lock found, every scan ends without one.
   */
  lemma {:induction false} PllWithoutShiftOutNeverLocks(c: ScanConfig, s: ScanState, xs: seq<Sample>)
    requires !c.useBC0Locked && !c.shiftOutOfLockFirst
    requires !s.firstUnlockFound && !s.bestLockFound
    ensures !Run(c, s, xs).stopped && !Run(c, s, xs).state.bestLockFound
    decreases |xs|
  {
    if xs != [] {
      PllWithoutShiftOutOnlyCounts(c, s, xs[0]);
      PllWithoutShiftOutNeverLocks(c, Step(c, s, xs[0]).state, xs[1..]);
    }
  }

  /**
   * A BC0 survey without `shiftOutOfLockFirst` never ends with the lock found:
   * each best lock is dropped in the same iteration to continue the survey.
   */
  lemma {:induction false} BC0SurveyNeverEndsLocked(c: ScanConfig, s: ScanState, xs: seq<Sample>)
    requires c.useBC0Locked && !c.shiftOutOfLockFirst && c.doScan
    requires !s.firstUnlockFound && !s.bestLockFound && s.nBadLocks >= 0
    ensures !Run(c, s, xs).state.bestLockFound
    decreases |xs|
  {
    if xs != [] {
      BC0ReverseSearch(c, s, xs[0]);
      BC0SurveyNeverEndsLocked(c, Step(c, s, xs[0]).state, xs[1..]);
    }
  }

  /**
   * Started from `INITIAL`, every state of a scan is consistent and its
   * counters are bounded by the number of iterations, so none of the source's
   * `int` counters can overflow within 23040 iterations.
   */
  lemma {:induction false} RunBounded(c: ScanConfig, s: ScanState, xs: seq<Sample>, n: int)
    requires Consistent(c, s) && CountersWithin(s, n)
    ensures Consistent(c, Run(c, s, xs).state)
    ensures CountersWithin(Run(c, s, xs).state, n + |xs|)
    decreases |xs|
  {
    if xs != [] {
      StepPreserves(c, s, xs[0], n);
      var r := Step(c, s, xs[0]);
      if !r.stop {
        RunBounded(c, r.state, xs[1..], n + 1);
      }
    }
  }
}
