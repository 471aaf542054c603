# GEM AMC slow control: SCA transactions and TTC phase alignment

This project models two parts of the AMC's register-level slow control. Both
drive the card through `readReg`/`writeReg` on a register bus.

- **The SCA transaction layer** (`src/amc/sca.cpp`). It swaps the byte order of
  SCA payloads. It sends a command to the GBT-SCA chips of up to twelve
  OptoHybrids as six register writes, and collects the twelve-slot reply
  vector from the link mask. On top of that sit the four channel front-ends:
  CTRL, I2C, GPIO and ADC. Each saves `MONITORING_OFF`, holds it at
  `0xffffffff` while it works, and then restores it. The helpers built on
  them are chip ID, the SEU counter read and clear, module reset and hard-reset
  enable.
- **The TTC phase-alignment scan** (`ttcMMCMPhaseShiftLocal` and
  `checkPLLLockLocal` in `src/amc/ttc.cpp`), plus the TTC command-counter lookup
  `getTTCCounterLocal`. The scan first writes twelve control registers and reads
  each one back. It reads back once more that automatic phase alignment is
  disabled, and stops with `AlignmentStillEnabled` if it is not. It then steps the
  GTH phase interpolator. The GTH counter wraps modulo 40 and, through a
  41-entry table, drives an MMCM counter that wraps modulo 65536. After each
  shift it samples the BC0 or PLL lock and applies one of two lock policies.
  When the best lock is found, it resets the MMCM.

Structure:

- `bus.dfy` (`RegisterBus`) is the bus, a class. `regs` holds the last value
  written to each register, and `trace` holds every access in order. What a read
  returns comes from an arbitrary oracle `respond`, which sees the history and
  the path. Every hardware value is therefore an input; no hardware behaviour is
  simulated.
- `sca.dfy` (`Sca`) holds the SCA layer. Each imperative function is a method on
  the bus. Its trace is stated by a specification function (`SendTrace`,
  `ReplyReads`, `OpsTrace`, `GuardTrace`). Lemmas prove the properties of those
  functions.
- `ttc_policy.dfy` (`TtcPolicy`) is the pure part of one scan iteration.
  - `Step` is the transition over the scan's flags and counters. It returns the
    new state, the direction writes and the `break` flag.
  - `Run` folds `Step` over a sequence of samples the way the loop does.
  - It also holds the GTH and MMCM counter arithmetic and the coupling table.
- `ttc_scenarios.dfy` (`TtcScenarios`) runs the BC0 policy on a fixed
  pattern: 150 unlocked samples, then locked ones. It proves at which
  iteration the best lock is found, with and without `shiftOutOfLockFirst`.
- `ttc.dfy` (`Ttc`) is the imperative driver. It has the configuration loop,
  the PLL check, the GTH retry loop, one shift, the shift loop, the whole scan
  and the counter lookup. Each method's trace is given by a specification
  function, and the states it goes through are those of `Run` on the samples it
  read.

The SCA command, channel and ADC command codes live in a header that is not
part of this model. They are a parameter record `ScaCodes`. Only the two
channel literals that `scaCTRLCommand` writes out (0x13 and 0x14) are
constants.

Two points of the code's behaviour worth noting:

- The coupling table has 41 entries (indices 0 to 40), not 40.
- With `useBC0Locked` and `shiftOutOfLockFirst`, the code does not reverse at
  200 good locks or stop at 300. Once more than 100 unlocked samples have been
  counted, it takes the post-unlock branch, which sets the best lock when the
  good-lock count reaches 1920. The 200/300 reversal runs only without
  `shiftOutOfLockFirst` (`TtcPolicy.BC0UnlockThreshold`,
  `TtcPolicy.BC0ReverseSearch`, `TtcPolicy.BC0AfterUnlockThreshold`).
  On 150 unlocked samples followed by locked ones, the code therefore breaks
  at the 1920th locked sample (iteration 2070) with `shiftOutOfLockFirst`
  (`TtcScenarios.ShiftOutFindsLockAt1920`). Without it, the code reverses at
  the 200th and breaks at the 300th locked sample, iteration 450
  (`TtcScenarios.ReverseFindsLockAt300`).

## Model

| member | source | states |
|---|---|---|
| RegisterBus.Bus.ReadReg | src/amc/sca.cpp:56 | a register read appends one `Read` of the value the hardware returns and leaves the register map unchanged |
| RegisterBus.Bus.WriteReg | src/amc/sca.cpp:57 | a register write appends one `Write` and updates exactly that register |
| RegisterBus.ReplayKeeps | src/amc/sca.cpp:56-86 | a trace that never writes a register leaves that register's value as it was |
| RegisterBus.ReplayAppend | src/amc/sca.cpp:56-86 | replaying two traces in turn is replaying their concatenation |
| Sca.FormatSCAData | src/amc/sca.cpp:8-16 | byte i of the result is byte 3-i of the input |
| Sca.FormatSCADataInvolution | include/amc/sca.h:18-26 | the byte swap converts both ways between wire order and firmware order: applying it twice is the identity |
| Sca.FormatSCADataExample | src/amc/sca.cpp:8-16 | 0x12345678 becomes 0x78563412 |
| Sca.BytesDetermineWord | src/amc/sca.cpp:10-15 | two words with the same four bytes are equal (the byte view loses nothing) |
| Sca.LinkEnabledIsShiftTest | src/amc/sca.cpp:40 | link oh is enabled exactly when `(ohMask >> oh) & 1` is 1 |
| Sca.SendSCACommand | src/amc/sca.cpp:18-27 | exactly six writes in order: mask, channel, command, length, byte-swapped data, execute=1 |
| Sca.SendTraceDecodes | src/amc/sca.cpp:21-26 | the six writes determine the command and link mask sent (the trace decodes back to them) |
| Sca.SendSCACommandWithReply | src/amc/sca.cpp:29-52 | the send, then one reply read per enabled link in link order; the result has 12 slots, slot oh is the byte-swapped reply if link oh is enabled, else 0 |
| Sca.ReplyVector | src/amc/sca.cpp:37-49 | the reply vector has one slot per raw reply; a disabled link's slot is 0, and swapping an enabled link's slot back to wire order gives the raw value read from its reply register |
| Sca.ReplyIgnoresHighMaskBits | src/amc/sca.cpp:39-40 | mask bits 12-15 change neither the reads nor the reply vector |
| Sca.ReplyReadsOnlyEnabledLinks | src/amc/sca.cpp:39-44 | every reply read is a read of an enabled link's reply register |
| Sca.ReplyReadsEveryEnabledLink | src/amc/sca.cpp:39-44 | every enabled link's reply register is read |
| Sca.ReplyReadsDoNotWrite | src/amc/sca.cpp:39-48 | collecting the reply only reads |
| Sca.DefaultMaskReadsAllLinks | include/amc/sca.h:50 | the default mask 0xfff enables all twelve links and every slot is the swapped reply |
| Sca.DefaultMaskBit | include/amc/sca.h:39 | each of the twelve links is enabled in the default mask |
| Sca.GuardHoldsAndRestores | src/amc/sca.cpp:54-88 | while the guarded commands run, `MONITORING_OFF` stays at 0xffffffff, and afterwards it holds the value saved on entry |
| Sca.ScaTrafficSparesMonitoring | src/amc/sca.cpp:60-84 | SCA command traffic never writes `MONITORING_OFF` |
| Sca.DisableMonitoring | src/amc/sca.cpp:56-57 | the saved value is what `MONITORING_OFF` reads, and then 0xffffffff is written to it |
| Sca.RestoreMonitoring | src/amc/sca.cpp:86 | one write of the saved value, after which `MONITORING_OFF` holds it |
| Sca.FrontEndGuarded | src/amc/sca.cpp:56-87 | a front-end's trace is the monitoring guard wrapped around its command traffic |
| Sca.IndexOf | src/amc/sca.cpp:60-81 | the index of the first case label equal to the command, or the number of labels if none is |
| Sca.CtrlDispatchEndsWithGetData | src/amc/sca.cpp:60-84 | the CTRL fall-through issues between 1 and 11 commands; the last is `GET_DATA` with the caller's length and data, and all earlier ones carry the requested command |
| Sca.CtrlUnknownCommandOnlyGetData | src/amc/sca.cpp:81-83 | an unmatched command issues only `GET_DATA`, and a command that issues only `GET_DATA` is unmatched |
| Sca.CtrlDispatchFromCase | src/amc/sca.cpp:60-84 | entering at case k issues cases k to 9 and then the default: 11-k commands |
| Sca.CtrlCase | src/amc/sca.cpp:61-80 | one case of the switch: a plain send, or a send with reply returning that case's 12-slot reply vector |
| Sca.CtrlSwitch | src/amc/sca.cpp:59-84 | the switch issues exactly the fall-through command list and returns the reply of its last command |
| Sca.ScaCTRLCommand | src/amc/sca.cpp:54-88 | the fall-through wrapped in the monitoring guard; the result is the 12-slot `GET_DATA` reply and `MONITORING_OFF` ends at its saved value |
| Sca.ScaI2CCommand | src/amc/sca.cpp:90-109 | one send, guarded, and an empty result |
| Sca.ScaGPIOCommandLocal | src/amc/sca.cpp:111-121 | one send with reply on the GPIO channel, guarded; the result is that 12-slot reply |
| Sca.CurrentSinkBitIsShift | src/amc/sca.cpp:135 | the current-sink payload is `1 << ch` (for 0x1f it is bit 31) |
| Sca.AdcCurrentSinkIffTemperature | src/amc/sca.cpp:130-137 | the ADC commands start with `ADC_W_MUX` carrying ch and end with `ADC_GO` carrying 1, all on the ADC channel with length 4; `ADC_W_CURR` is issued exactly for the temperature channels |
| Sca.ScaADCCommand | src/amc/sca.cpp:123-149 | the ADC command traffic, guarded; the caller's length and data are not used and the result is the `ADC_GO` reply |
| Sca.AdcTraffic | src/amc/sca.cpp:130-137 | the two or three sends make up the ADC command list, and the last reply is the `ADC_GO` reply |
| Sca.ReadSCAChipIDLocal | src/amc/sca.cpp:151-159 | the CTRL command `CTRL_R_ID_V1` if `scaV1`, else `CTRL_R_ID_V2`, and its reply; monitoring is held off while it runs and restored afterwards |
| Sca.ResetSCASEUCounterLocal | src/amc/sca.cpp:171-174 | exactly the CTRL command `CTRL_C_SEU`, with monitoring held off while it runs and restored afterwards |
| Sca.ReadSCASEUCounterLocal | src/amc/sca.cpp:161-169 | the `CTRL_C_SEU` command comes first exactly when `reset`, then `CTRL_R_SEU`, whose reply is returned; each of the two CTRL commands holds monitoring off while it runs, and `MONITORING_OFF` ends at the value saved by the last one |
| Sca.ScaModuleResetLocal | src/amc/sca.cpp:176-186 | read the reset mask, write ohMask, pulse `MODULE_RESET`=1, restore the mask read |
| Sca.ScaHardResetEnableLocal | src/amc/sca.cpp:188-191 | one write of 1 or 0 to `TTC_HARD_RESET_EN` |
| TtcPolicy.ReadAttempts | src/amc/ttc.cpp:76-85 | 10 PLL reads per sample exactly when `!useBC0Locked` or `doScan`, otherwise 1 |
| TtcPolicy.MaxShift | src/amc/ttc.cpp:76-85 | at most 23040 shifts exactly when `doScan`, otherwise 11520 |
| TtcPolicy.AdvanceGthModulo40 | src/amc/ttc.cpp:113-131 | from a count in [0,39] the expected GTH count stays in [0,39] and moves +1 or -1 modulo 40 |
| TtcPolicy.AdvanceGthReversible | src/amc/ttc.cpp:113-131 | a reverse step undoes a forward step and the other way round |
| TtcPolicy.MmcmShiftTableEntries | src/amc/ttc.cpp:97-102 | the table has 41 entries, true exactly at 3, 9, 15, 20, 26, 32 and 38 |
| TtcPolicy.TableIndexInBounds | src/amc/ttc.cpp:149 | for a GTH count in [0,39] the index gth+1 is inside the table |
| TtcPolicy.AdvanceMmcmModulo65536 | src/amc/ttc.cpp:150-160 | from a count in [0,0xffff] the MMCM count stays there and moves +1 or -1 modulo 65536 |
| TtcPolicy.ReverseSearch | src/amc/ttc.cpp:216-261 | the reverse-search arm keeps the unlock flag, writes at most one direction change and breaks only on a best lock outside survey mode |
| TtcPolicy.HuntFound | src/amc/ttc.cpp:291-308 | reaching the post-unlock threshold always sets the best lock, and is a legal policy move (a break only outside survey mode) |
| TtcPolicy.BC0BeforeUnlock | src/amc/ttc.cpp:194-261 | the BC0 pre-unlock arm is a legal policy move: counters move by at most one, at most one direction write, a break only on a best lock outside survey mode |
| TtcPolicy.BC0AfterUnlock | src/amc/ttc.cpp:262-308 | the BC0 post-unlock arm is a legal policy move |
| TtcPolicy.PllBeforeUnlock | src/amc/ttc.cpp:311-378 | the PLL pre-unlock arm is a legal policy move |
| TtcPolicy.PllAfterUnlock | src/amc/ttc.cpp:379-425 | the PLL post-unlock arm is a legal policy move |
| TtcPolicy.Policy | src/amc/ttc.cpp:193-426 | the policy selected by `useBC0Locked` and the unlock flag is a legal policy move |
| TtcPolicy.Step | src/amc/ttc.cpp:193-527 | a break only with the best lock found and never in survey mode; at most one direction write; a completed iteration moves `totalShiftCount` by +1 forward or -1 reversing and adds 1 to `nShiftsSinceLock` exactly when `nextLockFound`; a break changes neither counter |
| TtcPolicy.BC0UnlockThreshold | src/amc/ttc.cpp:196-215 | with `shiftOutOfLockFirst`, the unlock flag is set exactly when the sample is unlocked and more than 100 unlocked samples are counted; no direction write, no break |
| TtcPolicy.BC0ReverseSearch | src/amc/ttc.cpp:216-261 | without `shiftOutOfLockFirst`: 200 good locks start reversing (writes 0/1); an unlocked sample while reversing writes 1/0, stops reversing and clears the good count; 300 good locks while reversing set the best lock and break, or write 1/0 and restart in survey mode |
| TtcPolicy.BC0AfterUnlockThreshold | src/amc/ttc.cpp:262-308 | after the unlock the best lock is set exactly when the good count reaches 1920; an unlocked sample does not clear the good count |
| TtcPolicy.PllBeforeUnlockThresholds | src/amc/ttc.cpp:311-378 | with `shiftOutOfLockFirst`: the unlock flag exactly at more than 500 bad samples; otherwise reversal at 50 good samples, a bad sample while reversing writes 1/0, best lock at 75 |
| TtcPolicy.PllWithoutShiftOutOnlyCounts | src/amc/ttc.cpp:311-321 | without `shiftOutOfLockFirst` the PLL policy before the unlock only counts: no direction write, no unlock, no best lock |
| TtcPolicy.PllAfterUnlockThreshold | src/amc/ttc.cpp:379-425 | after the unlock only samples with fewer than 10 locks act; the best lock is set exactly when such a sample sees `nShiftsSinceLock` at 1000 |
| TtcPolicy.StepPreserves | src/amc/ttc.cpp:104-107 | one step keeps the flags consistent and the counters within one more of their bound |
| TtcPolicy.Run | src/amc/ttc.cpp:109 | the loop runs at most as many steps as samples and all of them unless it breaks |
| TtcPolicy.RunSnoc | src/amc/ttc.cpp:109-528 | one more loop iteration is one more `Step` on the state reached |
| TtcPolicy.SurveyRunsToTheEnd | src/amc/ttc.cpp:251-258 | in survey mode the loop never breaks, so it runs every iteration |
| TtcPolicy.StoppedRunFoundLock | src/amc/ttc.cpp:258 | a loop that broke early found the best lock, outside survey mode |
| TtcPolicy.PllWithoutShiftOutNeverLocks | src/amc/ttc.cpp:311-321 | the PLL policy without `shiftOutOfLockFirst` never finds a lock |
| TtcPolicy.BC0SurveyNeverEndsLocked | src/amc/ttc.cpp:243-257 | the BC0 reverse search in survey mode never ends with the best lock set |
| TtcPolicy.RunBounded | src/amc/ttc.cpp:104-107 | after n iterations the counters are within n of their start, so they cannot overflow a 32-bit `int` within 23040 shifts |
| TtcScenarios.RunIgnoresAfterStop | src/amc/ttc.cpp:257-259 | samples after the `break` do not change the scan's result |
| TtcScenarios.ShiftOutUnlocking | src/amc/ttc.cpp:194-275 | with `shiftOutOfLockFirst`, the 101st unlocked sample in a row sets `firstUnlockFound`; later unlocked samples only add to `nBadLocks`; nothing breaks |
| TtcScenarios.ShiftOutLocking | src/amc/ttc.cpp:262-308 | after the unlock, the first locked sample sets `nextLockFound`; each locked sample adds one to `nGoodLocks` and to `nShiftsSinceLock`, and fewer than 1920 never break |
| TtcScenarios.ShiftOutFindsLockAt1920 | src/amc/ttc.cpp:291-306 | with `shiftOutOfLockFirst`, 150 unlocked then locked samples break at iteration 2070 with the best lock and no reversal, whatever follows |
| TtcScenarios.ReverseUnlocked | src/amc/ttc.cpp:194-242 | without `shiftOutOfLockFirst`, unlocked samples only count: no unlock, no reversal, no break |
| TtcScenarios.ReverseApproach | src/amc/ttc.cpp:194-242 | the first 199 locked samples count good locks and move forward |
| TtcScenarios.ReverseBack | src/amc/ttc.cpp:230-241 | the 200th locked sample reverses the scan, and each later iteration moves `totalShiftCount` back by one |
| TtcScenarios.ReverseFindsLockAt300 | src/amc/ttc.cpp:243-258 | without `shiftOutOfLockFirst`, 150 unlocked then locked samples break at iteration 450 with the best lock while reversing, whatever follows |
| Ttc.ConfigTraceAt | src/amc/ttc.cpp:52-55 | configuration traffic is, register by register in list order, the write of its value followed by a readback of the same register |
| Ttc.Configure | src/amc/ttc.cpp:37-66 | the registers are written and read back in list order; the first mismatch stops it with an error naming that register, its value and the expected value, and no later register is written |
| Ttc.LockCount | src/amc/ttc.cpp:559-562 | the number of non-zero lock reads: at most their number, all of them exactly when every read is locked, 0 exactly when none is |
| Ttc.PllTraceAt | src/amc/ttc.cpp:553-562 | attempt j of the PLL check is a `PA_MANUAL_PLL_RESET`=1 write followed by the read of `PHASE_LOCKED` |
| Ttc.CheckPLLLock | src/amc/ttc.cpp:547-565 | exactly n rounds of relock write and lock read; the result is the number of locked reads, in [0,n] |
| Ttc.ShiftGth | src/amc/ttc.cpp:133-147 | reads the GTH and MMCM counts, then repeats the shift request while the GTH count misses the expected one; every count before the last missed it, and it succeeds exactly when the last one matches |
| Ttc.ShiftMmcm | src/amc/ttc.cpp:149-171 | the MMCM count advances and is read back (from the unprefixed path) exactly when the table entry for gth+1 is true; a readback that differs from the expected count is not an error |
| Ttc.ReadSample | src/amc/ttc.cpp:173-179 | the PLL check, the two phase means and the BC0 lock, in that order; the sample is the BC0 value and the lock count |
| Ttc.WriteDirections | src/amc/ttc.cpp:225-226 | a forward change writes `PA_MANUAL_SHIFT_DIR`=1 then `PA_GTH_MANUAL_SHIFT_DIR`=0; a reverse change writes 0 then 1 |
| Ttc.RequestShift | src/amc/ttc.cpp:110-171 | `CNT_RESET` and the GTH shift request, then the GTH check and the MMCM step; every GTH count read before the last missed the expected count; success means the last one matched and its table index is inside the table; a stuck GTH count is reported with the expected and last counts after `maxRetries` retries, an index past the table with that index |
| Ttc.ShiftOnce | src/amc/ttc.cpp:110-527 | one iteration: on success the new state is `Step` of the old one on the sample made of the BC0 lock and PLL lock count read, the GTH count read back is the expected one, and the traffic is `ShiftTrace` of what was read; on an error the traffic is the shift request alone; the traffic never writes `MMCM_RESET` |
| Ttc.ShiftAfter | src/amc/ttc.cpp:110-527 | after completed shifts, a successful iteration extends the samples read, `Run` and `Shifts` by one; a failed one is a `FailedShift`; from a GTH count in [0,39] the expected count stays in [0,39] and the table index cannot run out |
| Ttc.ShiftsSnoc | src/amc/ttc.cpp:109-528 | one more completed shift extends the loop's policy state by one `Step` and its traffic by that shift's `ShiftTrace` |
| Ttc.ShiftsSpareReset | src/amc/ttc.cpp:109-528 | no completed shift writes `MMCM_RESET` |
| Ttc.LoopTraceSparesReset | src/amc/ttc.cpp:109-528 | the loop's traffic, a failed shift's request included, never writes `MMCM_RESET` |
| Ttc.ScanLoop | src/amc/ttc.cpp:109-528 | at most `maxShift` iterations; each sample is the one its shift read over `ReadAttempts` PLL checks, and the traffic is those shifts' `ShiftTrace`s in order, then the request of a failed shift; the state reached is `Run` of the samples read; the loop ends early only on a break or on a failed shift, whose GTH reads satisfy `FailedShift`; a GTH count starting in [0,39] never leaves the table |
| Ttc.Scan | src/amc/ttc.cpp:87-542 | the counts and PLL check, then the shift loop with its samples tied to the reads; `MMCM_RESET`=1 is written once, last, exactly when the policy found the best lock; otherwise the result is "lock not found" or the failed shift's error; in survey mode every iteration runs |
| Ttc.ScanBodyResetIffFound | src/amc/ttc.cpp:530-531 | the scan writes `MMCM_RESET` exactly when it found the lock, and then only as its last access |
| Ttc.TtcMMCMPhaseShift | src/amc/ttc.cpp:22-545 | a failed readback, or a readback showing automatic phase alignment still enabled, ends the scan before any shift, with its error; otherwise the scan's traffic, with the samples tied to the shifts that read them and success exactly when `Run` ended with the best lock |
| Ttc.GetTTCCounter | src/amc/ttc.cpp:645-675 | codes 1 to 10 read that counter only; any other code reads and reports all ten counters in order, then returns a fresh read of L1A |

## Left out

- Logging, message strings, `stringstream` building and the `sleep_for` delays are not modelled. An error message becomes a `ScanError` value that names its cause.
- The floating-point `phaseNs` and `gthPhaseNs` are not modelled. The integer phase means are read and kept in the trace, but they influence nothing.
- The RPC callbacks, the `la->response` marshalling and the thin TTC register wrappers and stubs are outside the model. In `getTTCCounterLocal`, the model returns the default branch's `set_word` pairs as a sequence.
- The real bus transport is not modelled. Every read value is an input from the `respond` oracle.
- The unreachable `else` branch after `else if (true)` (src/amc/ttc.cpp:427-517) is not modelled.
- The header `sca_enums.h` is not part of this model. Its codes are a parameter record `ScaCodes`. Only the distinctness of some codes is assumed, and only where a lemma needs it: the CTRL case labels are pairwise distinct, and `Sca.AdcCurrentSinkIffTemperature` assumes that `adcWCurr` differs from `adcWMux` and from `adcGo`.
- Ttc.ShiftGth: the source repeats the GTH shift without limit until the count matches. The model repeats at most `maxRetries` times. When the retries run out, it ends the scan with the model-only outcome `GthShiftStuck`, because a loop without a termination measure cannot be written here.
- Ttc.ShiftMmcm: a GTH count read from hardware outside [0,39] makes `mmcmShiftTable[gthShiftCnt+1]` read past the table (undefined behaviour in the source). The model reports it as `TableIndexOutOfRange`. `ScanLoop` proves this cannot happen when the first count is in range.
- Sca.CtrlSwitch: the fall-through `switch` is written as a loop over the case indices from the entry case to the last case, followed by `GET_DATA`. The commands issued and their order are the same.
- The 32-bit `int` counters of the scan are unbounded integers. `TtcPolicy.RunBounded` shows they cannot come near a 32-bit limit within 23040 iterations, so no wrap-around is modelled.
- The `uint32_t` GTH and MMCM counts are `bv32`, so their `+1`/`-1` wrap as in the source.
- Ttc.ScanLoop: that each completed shift read back the expected GTH count, and moved the MMCM count as the table says, is stated per iteration by `Ttc.ShiftOnce` and `Ttc.ShiftAfter`. It is not restated across the loop. `FailedShift` names the expected count of a stuck shift, but the loop does not tie it to the counts of the shifts before it.
