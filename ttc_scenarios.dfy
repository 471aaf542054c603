/**
 * Whole scans of the BC0 lock policy (`useBC0Locked`, outside a survey) on a
 * fixed sample pattern: 150 unlocked samples, then locked ones.  They show at
 * which iteration the code as written finds the best lock, with and without
 * `shiftOutOfLockFirst`.
 */
module TtcScenarios {
  import opened TtcPolicy

  /** A sample that reads the BC0 lock as 0 (and the one PLL read as unlocked). */
  const UNLOCKED: Sample := Sample(0, 0)
  /** A sample that reads the BC0 lock as 1 (and the one PLL read as locked). */
  const LOCKED: Sample := Sample(1, 1)

  /** Policy A, shifting out of lock first, stopping at the first best lock. */
  const SHIFT_OUT_BC0: ScanConfig := ScanConfig(true, true, false)
  /** Policy A without shifting out of lock first, stopping at the first best lock. */
  const REVERSE_BC0: ScanConfig := ScanConfig(false, true, false)

  /** `n` copies of the sample `x`. */
  function Samples(x: Sample, n: nat): (xs: seq<Sample>)
    ensures |xs| == n
    ensures forall i | 0 <= i < n :: xs[i] == x
  {
    seq(n, _ => x)
  }

  lemma SamplesSnoc(x: Sample, n: nat)
    ensures Samples(x, n + 1) == Samples(x, n) + [x]
  {
  }

  /** The pattern of the scenario: 150 unlocked samples followed by `m` locked ones. */
  function UnlockThenLock(m: nat): (xs: seq<Sample>)
    ensures |xs| == 150 + m
  {
    Samples(UNLOCKED, 150) + Samples(LOCKED, m)
  }

  lemma UnlockThenLockSnoc(m: nat)
    ensures UnlockThenLock(m + 1) == UnlockThenLock(m) + [LOCKED]
  {
    SamplesSnoc(LOCKED, m);
  }

  /** A scan that has broken is not changed by samples after the break. */
  lemma {:induction false} RunIgnoresAfterStop(c: ScanConfig, s: ScanState, xs: seq<Sample>, rest: seq<Sample>)
    requires Run(c, s, xs).stopped
    ensures Run(c, s, xs + rest) == Run(c, s, xs)
    decreases |xs|
  {
    assert xs != [];
    assert (xs + rest)[0] == xs[0];
    assert (xs + rest)[1..] == xs[1..] + rest;
    if !Step(c, s, xs[0]).stop {
      RunIgnoresAfterStop(c, Step(c, s, xs[0]).state, xs[1..], rest);
    }
  }

  // ---------------------------------------------------------------------------
  // With `shiftOutOfLockFirst`

  /**
   * With `shiftOutOfLockFirst`, the 101st unlocked sample in a row declares
   * the first unlock; later unlocked samples only count.
   */
  lemma {:induction false} ShiftOutUnlocking(n: nat)
    requires n <= 150
    ensures Run(SHIFT_OUT_BC0, INITIAL, Samples(UNLOCKED, n))
         == RunResult(ScanState(n > 100, false, false, false, 0, n, 0, n), n, false)
  {
    if n > 0 {
      ShiftOutUnlocking(n - 1);
      SamplesSnoc(UNLOCKED, n - 1);
      RunSnoc(SHIFT_OUT_BC0, INITIAL, Samples(UNLOCKED, n - 1), UNLOCKED);
    }
  }

  /**
   * After the first unlock, the first locked sample is the next lock; then
   * every locked sample adds to the good count and to the shifts since that
   * lock, and the scan goes on as long as fewer than 1920 were seen.
   */
  lemma {:induction false} ShiftOutLocking(m: nat)
    requires m < 1920
    ensures Run(SHIFT_OUT_BC0, INITIAL, UnlockThenLock(m))
         == RunResult(ScanState(true, m > 0, false, false, m, if m > 0 then 0 else 150, m, 150 + m), 150 + m, false)
  {
    if m == 0 {
      assert UnlockThenLock(0) == Samples(UNLOCKED, 150);
      ShiftOutUnlocking(150);
    } else {
      ShiftOutLocking(m - 1);
      UnlockThenLockSnoc(m - 1);
      RunSnoc(SHIFT_OUT_BC0, INITIAL, UnlockThenLock(m - 1), LOCKED);
    }
  }

  /**
   * With `shiftOutOfLockFirst`, 150 unlocked samples and then locked ones
   * find the best lock at the 1920th locked sample, iteration 2070, without
   * ever reversing; whatever the samples after it, the scan breaks there.
   */
  lemma ShiftOutFindsLockAt1920(rest: seq<Sample>)
    ensures var r := Run(SHIFT_OUT_BC0, INITIAL, UnlockThenLock(1920) + rest);
      && r.stopped && r.steps == 2070
      && r.state.bestLockFound && r.state.firstUnlockFound && r.state.nextLockFound
      && !r.state.reversingForLock && r.state.nGoodLocks == 1920
  {
    ShiftOutLocking(1919);
    UnlockThenLockSnoc(1919);
    RunSnoc(SHIFT_OUT_BC0, INITIAL, UnlockThenLock(1919), LOCKED);
    RunIgnoresAfterStop(SHIFT_OUT_BC0, INITIAL, UnlockThenLock(1920), rest);
  }

  // ---------------------------------------------------------------------------
  // Without `shiftOutOfLockFirst`

  /** Without `shiftOutOfLockFirst`, unlocked samples only count: no unlock is ever declared. */
  lemma {:induction false} ReverseUnlocked(n: nat)
    ensures Run(REVERSE_BC0, INITIAL, Samples(UNLOCKED, n))
         == RunResult(ScanState(false, false, false, false, 0, n, 0, n), n, false)
  {
    if n > 0 {
      ReverseUnlocked(n - 1);
      SamplesSnoc(UNLOCKED, n - 1);
      RunSnoc(REVERSE_BC0, INITIAL, Samples(UNLOCKED, n - 1), UNLOCKED);
    }
  }

  /** Up to the 199th locked sample the scan moves forward and counts good locks. */
  lemma {:induction false} ReverseApproach(m: nat)
    requires m < 200
    ensures Run(REVERSE_BC0, INITIAL, UnlockThenLock(m))
         == RunResult(ScanState(false, false, false, false, m, if m > 0 then 0 else 150, 0, 150 + m), 150 + m, false)
  {
    if m == 0 {
      assert UnlockThenLock(0) == Samples(UNLOCKED, 150);
      ReverseUnlocked(150);
    } else {
      ReverseApproach(m - 1);
      UnlockThenLockSnoc(m - 1);
      RunSnoc(REVERSE_BC0, INITIAL, UnlockThenLock(m - 1), LOCKED);
    }
  }

  /**
   * The 200th locked sample reverses the scan; from then on each iteration
   * moves the total shift count back by one.
   */
  lemma {:induction false} ReverseBack(m: nat)
    requires 200 <= m < 300
    ensures Run(REVERSE_BC0, INITIAL, UnlockThenLock(m))
         == RunResult(ScanState(false, false, false, true, m, 0, 0, 548 - m), 150 + m, false)
    decreases m
  {
    if m == 200 {
      ReverseApproach(199);
    } else {
      ReverseBack(m - 1);
    }
    UnlockThenLockSnoc(m - 1);
    RunSnoc(REVERSE_BC0, INITIAL, UnlockThenLock(m - 1), LOCKED);
  }

  /**
   * Without `shiftOutOfLockFirst`, 150 unlocked samples and then locked ones
   * reverse at the 200th locked sample and find the best lock at the 300th,
   * iteration 450, while reversing; the scan breaks there.
   */
  lemma ReverseFindsLockAt300(rest: seq<Sample>)
    ensures var r := Run(REVERSE_BC0, INITIAL, UnlockThenLock(300) + rest);
      && r.stopped && r.steps == 450
      && r.state.bestLockFound && r.state.reversingForLock && !r.state.firstUnlockFound
      && r.state.nGoodLocks == 300 && r.state.totalShiftCount == 249
  {
    ReverseBack(299);
    UnlockThenLockSnoc(299);
    RunSnoc(REVERSE_BC0, INITIAL, UnlockThenLock(299), LOCKED);
    RunIgnoresAfterStop(REVERSE_BC0, INITIAL, UnlockThenLock(300), rest);
  }
}
