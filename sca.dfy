/**
 * The SCA transaction layer of the AMC: the byte-order conversion applied to
 * every SCA payload, the manual-control command registers, the 12-link reply
 * collection, the CTRL/I2C/GPIO/ADC front-ends with their save/disable/restore
 * of the ADC monitoring register, and the helpers built on the CTRL front-end.
 *
 * The numeric values of the SCA enumerations (channels and command codes) are
 * not known to this model; they are the fields of a `ScaCodes` record that
 * every operation needing them takes as a parameter.  Only the channels 0x13
 * and 0x14 are written literally in the CTRL dispatch.
 */
module Sca {
  import opened RegisterBus
  import opened Wrappers

  // ---------------------------------------------------------------------------
  // Byte order

  /** Byte `i` of `w`, byte 0 being the least significant. */
  function ByteOf(w: Word, i: nat): bv8
    requires i < 4
  {
    if i == 0 then (w & 0xff) as bv8
    else if i == 1 then ((w >> 8) & 0xff) as bv8
    else if i == 2 then ((w >> 16) & 0xff) as bv8
    else (w >> 24) as bv8
  }

  /**
   * `formatSCAData`: converts between the HDLC wire order of an SCA word and
   * the order the GEM_AMC firmware stores it in, by reversing its four bytes.
   */
  function FormatSCAData(data: Word): (r: Word)
    ensures ByteOf(r, 0) == ByteOf(data, 3) && ByteOf(r, 1) == ByteOf(data, 2)
    ensures ByteOf(r, 2) == ByteOf(data, 1) && ByteOf(r, 3) == ByteOf(data, 0)
  {
    ((data & 0xff000000) >> 24) +
    ((data >> 8) & 0x0000ff00) +
    ((data & 0x0000ff00) << 8) +
    ((data & 0x000000ff) << 24)
  }

  /** Two 32-bit words with the same four bytes are equal. */
  lemma BytesDetermineWord(a: Word, b: Word)
    requires ByteOf(a, 0) == ByteOf(b, 0) && ByteOf(a, 1) == ByteOf(b, 1)
    requires ByteOf(a, 2) == ByteOf(b, 2) && ByteOf(a, 3) == ByteOf(b, 3)
    ensures a == b
  {
  }

  /** The conversion is its own inverse: applying it to a reply undoes it on a payload. */
  lemma FormatSCADataInvolution(data: Word)
    ensures FormatSCAData(FormatSCAData(data)) == data
  {
    BytesDetermineWord(FormatSCAData(FormatSCAData(data)), data);
  }

  /** The conversion undoes itself on every word. */
  lemma FormatSCADataUndoes()
    ensures forall data: Word :: FormatSCAData(FormatSCAData(data)) == data
  {
    forall data: Word ensures FormatSCAData(FormatSCAData(data)) == data {
      FormatSCADataInvolution(data);
    }
  }

  lemma FormatSCADataExample()
    ensures FormatSCAData(0x12345678) == 0x78563412
  {
  }

  // ---------------------------------------------------------------------------
  // Registers

  const MONITORING_OFF: Path := "GEM_AMC.SLOW_CONTROL.SCA.ADC_MONITORING.MONITORING_OFF"
  const LINK_ENABLE_MASK: Path := "GEM_AMC.SLOW_CONTROL.SCA.MANUAL_CONTROL.LINK_ENABLE_MASK"
  const SCA_CMD_CHANNEL: Path := "GEM_AMC.SLOW_CONTROL.SCA.MANUAL_CONTROL.SCA_CMD.SCA_CMD_CHANNEL"
  const SCA_CMD_COMMAND: Path := "GEM_AMC.SLOW_CONTROL.SCA.MANUAL_CONTROL.SCA_CMD.SCA_CMD_COMMAND"
  const SCA_CMD_LENGTH: Path := "GEM_AMC.SLOW_CONTROL.SCA.MANUAL_CONTROL.SCA_CMD.SCA_CMD_LENGTH"
  const SCA_CMD_DATA: Path := "GEM_AMC.SLOW_CONTROL.SCA.MANUAL_CONTROL.SCA_CMD.SCA_CMD_DATA"
  const SCA_CMD_EXECUTE: Path := "GEM_AMC.SLOW_CONTROL.SCA.MANUAL_CONTROL.SCA_CMD.SCA_CMD_EXECUTE"
  const SCA_RESET_ENABLE_MASK: Path := "GEM_AMC.SLOW_CONTROL.SCA.CTRL.SCA_RESET_ENABLE_MASK"
  const MODULE_RESET: Path := "GEM_AMC.SLOW_CONTROL.SCA.CTRL.MODULE_RESET"
  const TTC_HARD_RESET_EN: Path := "GEM_AMC.SLOW_CONTROL.SCA.CTRL.TTC_HARD_RESET_EN"

  /** Writing all ones to MONITORING_OFF disables every automatic ADC monitoring task. */
  const ALL_MONITORING_OFF: Word := 0xffffffff

  const NUM_OPTOHYBRIDS: nat := 12

  /** The default link mask of the header's entry points: all 12 OptoHybrids. */
  const ALL_OPTOHYBRIDS: bv16 := 0xfff

  /** The decimal numeral of an OptoHybrid number, as in the reply register names. */
  function Decimal(oh: nat): string
    requires oh < NUM_OPTOHYBRIDS
  {
    if oh < 10 then [('0' as int + oh) as char] else ['1', ('0' as int + oh - 10) as char]
  }

  /** The reply register of OptoHybrid `oh`. */
  function ReplyPath(oh: nat): Path
    requires oh < NUM_OPTOHYBRIDS
  {
    "GEM_AMC.SLOW_CONTROL.SCA.MANUAL_CONTROL.SCA_REPLY_OH" + Decimal(oh) + ".SCA_RPY_DATA"
  }

  /** Link `oh` is enabled in `ohMask` when its bit, `1 << oh`, is set. */
  predicate LinkEnabled(ohMask: bv16, oh: nat)
    requires oh < NUM_OPTOHYBRIDS
  {
    if oh == 0 then ohMask & 0x001 != 0
    else if oh == 1 then ohMask & 0x002 != 0
    else if oh == 2 then ohMask & 0x004 != 0
    else if oh == 3 then ohMask & 0x008 != 0
    else if oh == 4 then ohMask & 0x010 != 0
    else if oh == 5 then ohMask & 0x020 != 0
    else if oh == 6 then ohMask & 0x040 != 0
    else if oh == 7 then ohMask & 0x080 != 0
    else if oh == 8 then ohMask & 0x100 != 0
    else if oh == 9 then ohMask & 0x200 != 0
    else if oh == 10 then ohMask & 0x400 != 0
    else ohMask & 0x800 != 0
  }

  /** The bit test is the mask shifted right by `oh`, masked with 1. */
  lemma LinkEnabledIsShiftTest(ohMask: bv16, oh: nat)
    requires oh < NUM_OPTOHYBRIDS
    ensures LinkEnabled(ohMask, oh) == ((ohMask >> oh) & 0x1 == 1)
  {
    if oh == 0 {} else if oh == 1 {} else if oh == 2 {} else if oh == 3 {}
    else if oh == 4 {} else if oh == 5 {} else if oh == 6 {} else if oh == 7 {}
    else if oh == 8 {} else if oh == 9 {} else if oh == 10 {} else {}
  }

  // ---------------------------------------------------------------------------
  // Commands and their register traffic

  /**
   * The numeric values of the SCA enumerations the core uses: the SCAChannel
   * members CTRL, GPIO and ADC, the SCACTRLCommand members in the order of the
   * CTRL switch plus GET_DATA, and the SCAADCCommand members.
   */
  datatype ScaCodes = ScaCodes(
    ctrlChannel: bv8, gpioChannel: bv8, adcChannel: bv8,
    ctrlRIdV2: bv8, ctrlRIdV1: bv8, ctrlRSeu: bv8, ctrlCSeu: bv8,
    ctrlWCrb: bv8, ctrlWCrc: bv8, ctrlWCrd: bv8,
    ctrlRCrb: bv8, ctrlRCrc: bv8, ctrlRCrd: bv8,
    getData: bv8,
    adcWMux: bv8, adcWCurr: bv8, adcGo: bv8)
  {
    /** The ten case labels of the CTRL switch, in source order. */
    function CtrlCaseLabels(): seq<bv8>
    {
      [ctrlRIdV2, ctrlRIdV1, ctrlRSeu, ctrlCSeu, ctrlWCrb, ctrlWCrc, ctrlWCrd, ctrlRCrb, ctrlRCrc, ctrlRCrd]
    }

    /** Case labels of one switch are distinct, or the switch would not compile. */
    predicate DistinctCtrlLabels()
    {
      forall i, j | 0 <= i < j < 10 :: CtrlCaseLabels()[i] != CtrlCaseLabels()[j]
    }
  }

  /** What `sendSCACommand` puts in the manual-control command registers. */
  datatype ScaCommand = ScaCommand(channel: bv8, command: bv8, length: bv8, data: Word)

  /** A call of `sendSCACommand` or of `sendSCACommandWithReply`. */
  datatype ScaOp = Send(cmd: ScaCommand) | SendWithReply(cmd: ScaCommand)

  /** The six writes of `sendSCACommand`, in order. */
  function SendTrace(c: ScaCommand, ohMask: bv16): seq<Access>
  {
    [ Write(LINK_ENABLE_MASK, ohMask as Word),
      Write(SCA_CMD_CHANNEL, c.channel as Word),
      Write(SCA_CMD_COMMAND, c.command as Word),
      Write(SCA_CMD_LENGTH, c.length as Word),
      Write(SCA_CMD_DATA, FormatSCAData(c.data)),
      Write(SCA_CMD_EXECUTE, 1) ]
  }

  /**
   * The firmware's reading of a command: the value of each command register,
   * with the payload converted back to firmware order.
   */
  function DecodeCommand(t: seq<Access>): Option<(ScaCommand, bv16)>
  {
    if |t| == 6
       && t[0].Write? && t[0].path == LINK_ENABLE_MASK && t[0].value <= 0xffff
       && t[1].Write? && t[1].path == SCA_CMD_CHANNEL && t[1].value <= 0xff
       && t[2].Write? && t[2].path == SCA_CMD_COMMAND && t[2].value <= 0xff
       && t[3].Write? && t[3].path == SCA_CMD_LENGTH && t[3].value <= 0xff
       && t[4].Write? && t[4].path == SCA_CMD_DATA
       && t[5] == Write(SCA_CMD_EXECUTE, 1)
    then
      Some((ScaCommand(t[1].value as bv8, t[2].value as bv8, t[3].value as bv8, FormatSCAData(t[4].value)),
            t[0].value as bv16))
    else
      None
  }

  /** The six writes of a command carry the command and link mask without loss. */
  lemma SendTraceDecodes(c: ScaCommand, ohMask: bv16)
    ensures DecodeCommand(SendTrace(c, ohMask)) == Some((c, ohMask))
  {
    FormatSCADataInvolution(c.data);
  }

  /** The reads of the reply registers for the first `|raw|` links; `raw[oh]` is the value read. */
  function ReplyReads(ohMask: bv16, raw: seq<Word>): seq<Access>
    requires |raw| <= NUM_OPTOHYBRIDS
    decreases |raw|
  {
    if raw == [] then []
    else
      var oh := |raw| - 1;
      ReplyReads(ohMask, raw[..oh]) + (if LinkEnabled(ohMask, oh) then [Read(ReplyPath(oh), raw[oh])] else [])
  }

  /**
   * The reply vector: the converted read for an enabled link, 0 for a
   * disabled one.  Converting an enabled link's entry back gives the value
   * read from its reply register.
   */
  function ReplyVector(ohMask: bv16, raw: seq<Word>): (reply: seq<Word>)
    requires |raw| <= NUM_OPTOHYBRIDS
    ensures |reply| == |raw|
    ensures forall oh | 0 <= oh < |raw| && !LinkEnabled(ohMask, oh) :: reply[oh] == 0
    ensures forall oh | 0 <= oh < |raw| && LinkEnabled(ohMask, oh) :: FormatSCAData(reply[oh]) == raw[oh]
  {
    FormatSCADataUndoes();
    seq(|raw|, oh requires 0 <= oh < |raw| => if LinkEnabled(ohMask, oh) then FormatSCAData(raw[oh]) else 0)
  }

  /** Twelve zeros: the (unused) reply of a command sent without reply. */
  const NO_REPLY: seq<Word> := [0, 0, 0, 0, 0, 0, 0, 0, 0, 0, 0, 0]

  /** `raws` holds one 12-word reply (its raw reads) per operation. */
  predicate RepliesFor(ops: seq<ScaOp>, raws: seq<seq<Word>>)
  {
    |raws| == |ops| && forall k | 0 <= k < |raws| :: |raws[k]| == NUM_OPTOHYBRIDS
  }

  /** The register traffic of one operation. */
  function OpTrace(op: ScaOp, ohMask: bv16, raw: seq<Word>): seq<Access>
    requires |raw| == NUM_OPTOHYBRIDS
  {
    SendTrace(op.cmd, ohMask) + (if op.SendWithReply? then ReplyReads(ohMask, raw) else [])
  }

  /** The register traffic of a sequence of operations, in order. */
  function OpsTrace(ops: seq<ScaOp>, ohMask: bv16, raws: seq<seq<Word>>): seq<Access>
    requires RepliesFor(ops, raws)
    decreases |ops|
  {
    if ops == [] then []
    else
      var n := |ops| - 1;
      OpsTrace(ops[..n], ohMask, raws[..n]) + OpTrace(ops[n], ohMask, raws[n])
  }

  // ---------------------------------------------------------------------------
  // Properties of the reply collection

  /** Mask bits 12 to 15 are never consulted: the traffic and the reply only see bits 0 to 11. */
  lemma {:induction false} ReplyIgnoresHighMaskBits(ohMask: bv16, raw: seq<Word>)
    requires |raw| <= NUM_OPTOHYBRIDS
    ensures ReplyReads(ohMask, raw) == ReplyReads(ohMask & 0x0fff, raw)
    ensures ReplyVector(ohMask, raw) == ReplyVector(ohMask & 0x0fff, raw)
    decreases |raw|
  {
    forall oh | 0 <= oh < |raw| ensures LinkEnabled(ohMask, oh) == LinkEnabled(ohMask & 0x0fff, oh) {
      LowMaskBit(ohMask, oh);
    }
    if raw != [] {
      ReplyIgnoresHighMaskBits(ohMask, raw[..|raw| - 1]);
    }
  }

  lemma LowMaskBit(ohMask: bv16, oh: nat)
    requires oh < NUM_OPTOHYBRIDS
    ensures LinkEnabled(ohMask, oh) == LinkEnabled(ohMask & 0x0fff, oh)
  {
  }

  /** Every read of a reply is the read of an enabled link's reply register. */
  lemma {:induction false} ReplyReadsOnlyEnabledLinks(ohMask: bv16, raw: seq<Word>)
    requires |raw| <= NUM_OPTOHYBRIDS
    ensures forall a | a in ReplyReads(ohMask, raw) ::
      exists oh | 0 <= oh < |raw| :: LinkEnabled(ohMask, oh) && a == Read(ReplyPath(oh), raw[oh])
    decreases |raw|
  {
    if raw != [] {
      var n := |raw| - 1;
      ReplyReadsOnlyEnabledLinks(ohMask, raw[..n]);
      forall a | a in ReplyReads(ohMask, raw)
        ensures exists oh | 0 <= oh < |raw| :: LinkEnabled(ohMask, oh) && a == Read(ReplyPath(oh), raw[oh])
      {
        if a in ReplyReads(ohMask, raw[..n]) {
          var oh :| 0 <= oh < n && LinkEnabled(ohMask, oh) && a == Read(ReplyPath(oh), raw[..n][oh]);
          assert raw[..n][oh] == raw[oh];
        }
      }
    }
  }

  /** Every enabled link's reply register is read, and the value read is `raw[oh]`. */
  lemma {:induction false} ReplyReadsEveryEnabledLink(ohMask: bv16, raw: seq<Word>, oh: nat)
    requires oh < |raw| <= NUM_OPTOHYBRIDS && LinkEnabled(ohMask, oh)
    ensures Read(ReplyPath(oh), raw[oh]) in ReplyReads(ohMask, raw)
    decreases |raw|
  {
    var n := |raw| - 1;
    if oh < n {
      ReplyReadsEveryEnabledLink(ohMask, raw[..n], oh);
      assert raw[..n][oh] == raw[oh];
    }
  }

  /** With the default mask every link is read and every slot carries a converted reply. */
  lemma DefaultMaskReadsAllLinks(raw: seq<Word>)
    requires |raw| == NUM_OPTOHYBRIDS
    ensures forall oh | 0 <= oh < NUM_OPTOHYBRIDS :: LinkEnabled(ALL_OPTOHYBRIDS, oh)
    ensures forall oh | 0 <= oh < NUM_OPTOHYBRIDS :: ReplyVector(ALL_OPTOHYBRIDS, raw)[oh] == FormatSCAData(raw[oh])
  {
    forall oh | 0 <= oh < NUM_OPTOHYBRIDS ensures LinkEnabled(ALL_OPTOHYBRIDS, oh) {
      DefaultMaskBit(oh);
    }
  }

  lemma DefaultMaskBit(oh: nat)
    requires oh < NUM_OPTOHYBRIDS
    ensures LinkEnabled(ALL_OPTOHYBRIDS, oh)
  {
  }

  // ---------------------------------------------------------------------------
  // The monitoring guard

  /**
   * The traffic of a guarded transaction: read and save MONITORING_OFF, force
   * it to all ones, run `inner`, write the saved value back.
   */
  function GuardTrace(saved: Word, inner: seq<Access>): seq<Access>
  {
    [Read(MONITORING_OFF, saved), Write(MONITORING_OFF, ALL_MONITORING_OFF)] + inner + [Write(MONITORING_OFF, saved)]
  }

  /**
   * Starting from the register map `m`, MONITORING_OFF is all ones at every
   * point of the transaction `t` after its first two accesses.
   */
  ghost predicate HeldOff(m: map<Path, Word>, t: seq<Access>)
  {
    forall k | 2 <= k < |t| ::
      MONITORING_OFF in Replay(m, t[..k]) && Replay(m, t[..k])[MONITORING_OFF] == ALL_MONITORING_OFF
  }

  /**
   * A guarded transaction whose body does not touch MONITORING_OFF holds it at
   * all ones while the body runs, and ends with the saved value in it.
   */
  lemma GuardHoldsAndRestores(m: map<Path, Word>, saved: Word, inner: seq<Access>)
    requires NoWriteTo(inner, MONITORING_OFF)
    ensures HeldOff(m, GuardTrace(saved, inner))
    ensures MONITORING_OFF in Replay(m, GuardTrace(saved, inner))
    ensures Replay(m, GuardTrace(saved, inner))[MONITORING_OFF] == saved
  {
    var t := GuardTrace(saved, inner);
    var head := [Read(MONITORING_OFF, saved), Write(MONITORING_OFF, ALL_MONITORING_OFF)];
    assert head[..1] == [Read(MONITORING_OFF, saved)];
    assert Replay(m, head)[MONITORING_OFF] == ALL_MONITORING_OFF;
    forall k | 2 <= k < |t|
      ensures MONITORING_OFF in Replay(m, t[..k]) && Replay(m, t[..k])[MONITORING_OFF] == ALL_MONITORING_OFF
    {
      var body := inner[..k - 2];
      assert t[..k] == head + body;
      assert NoWriteTo(body, MONITORING_OFF) by {
        forall j | 0 <= j < |body| ensures !WritesTo(body[j], MONITORING_OFF) {
          assert body[j] == inner[j];
        }
      }
      ReplayAppend(m, head, body);
      ReplayKeeps(Replay(m, head), body, MONITORING_OFF);
    }
    assert t[..|t| - 1] == head + inner;
  }

  /** No command sent over the SCA manual-control registers writes MONITORING_OFF. */
  lemma {:induction false} ScaTrafficSparesMonitoring(ops: seq<ScaOp>, ohMask: bv16, raws: seq<seq<Word>>)
    requires RepliesFor(ops, raws)
    ensures NoWriteTo(OpsTrace(ops, ohMask, raws), MONITORING_OFF)
    decreases |ops|
  {
    if ops != [] {
      var n := |ops| - 1;
      ScaTrafficSparesMonitoring(ops[..n], ohMask, raws[..n]);
      ReplyReadsDoNotWrite(ohMask, raws[n]);
      var front := OpsTrace(ops[..n], ohMask, raws[..n]);
      var last := OpTrace(ops[n], ohMask, raws[n]);
      forall j | 0 <= j < |front + last| ensures !WritesTo((front + last)[j], MONITORING_OFF) {
        if j >= |front| {
          var send := SendTrace(ops[n].cmd, ohMask);
          if j - |front| < 6 {
            assert (front + last)[j] == send[j - |front|];
          }
        }
      }
    }
  }

  lemma {:induction false} ReplyReadsDoNotWrite(ohMask: bv16, raw: seq<Word>)
    requires |raw| <= NUM_OPTOHYBRIDS
    ensures forall j | 0 <= j < |ReplyReads(ohMask, raw)| :: ReplyReads(ohMask, raw)[j].Read?
    decreases |raw|
  {
    if raw != [] {
      ReplyReadsDoNotWrite(ohMask, raw[..|raw| - 1]);
    }
  }

  // ---------------------------------------------------------------------------
  // The CTRL dispatch

  /** Index of the first occurrence of `x` in `s`, or `|s|` when there is none. */
  function IndexOf(s: seq<bv8>, x: bv8): (k: nat)
    ensures k <= |s|
    ensures k < |s| ==> s[k] == x
    ensures forall j | 0 <= j < k :: s[j] != x
    decreases |s|
  {
    if s == [] then 0 else if s[0] == x then 0 else 1 + IndexOf(s[1..], x)
  }

  /** The case of the CTRL switch that `cmd` enters: 0 to 9, or 10 for `default`. */
  function EntryCase(codes: ScaCodes, cmd: bv8): nat
  {
    IndexOf(codes.CtrlCaseLabels(), cmd)
  }

  /**
   * The command each case of the CTRL switch issues.  Every case passes the
   * caller's `cmd`, not its own label, as the SCA command.
   */
  function CtrlCases(codes: ScaCodes, cmd: bv8, len: bv8, data: Word): seq<ScaOp>
  {
    seq(10, k requires 0 <= k < 10 => CtrlCaseOp(codes, k, cmd, len, data))
  }

  /**
   * The body of case k: CTRL_R_ID_V2 and CTRL_R_ID_V1 read on channel 0x14
   * with length 1 and data 1, CTRL_R_SEU and CTRL_C_SEU on channel 0x13 with
   * length 1 and data 0, the three register writes send without reply and the
   * three register reads with reply, on the CTRL channel with the caller's
   * length and data.
   */
  function CtrlCaseOp(codes: ScaCodes, k: nat, cmd: bv8, len: bv8, data: Word): ScaOp
    requires k < 10
  {
    if k <= 1 then SendWithReply(ScaCommand(0x14, cmd, 0x1, 0x1))
    else if k <= 3 then SendWithReply(ScaCommand(0x13, cmd, 0x1, 0x0))
    else if k <= 6 then Send(ScaCommand(codes.ctrlChannel, cmd, len, data))
    else SendWithReply(ScaCommand(codes.ctrlChannel, cmd, len, data))
  }

  /** The `default` arm: a GET_DATA read on the CTRL channel with the caller's length and data. */
  function CtrlDefault(codes: ScaCodes, len: bv8, data: Word): ScaOp
  {
    SendWithReply(ScaCommand(codes.ctrlChannel, codes.getData, len, data))
  }

  /**
   * The operations the CTRL switch issues: it has no `break`, so entering at
   * case k runs cases k to 9 and then `default`.
   */
  function CtrlDispatch(codes: ScaCodes, cmd: bv8, len: bv8, data: Word): seq<ScaOp>
  {
    CtrlCases(codes, cmd, len, data)[EntryCase(codes, cmd)..] + [CtrlDefault(codes, len, data)]
  }

  /**
   * Whatever the command, the dispatch ends with GET_DATA, and every command
   * before it carries the caller's `cmd`.
   */
  lemma CtrlDispatchEndsWithGetData(codes: ScaCodes, cmd: bv8, len: bv8, data: Word)
    ensures var ops := CtrlDispatch(codes, cmd, len, data);
      && 1 <= |ops| <= 11
      && ops[|ops| - 1] == CtrlDefault(codes, len, data)
      && (forall k | 0 <= k < |ops| - 1 :: ops[k].cmd.command == cmd)
  {
    var cases := CtrlCases(codes, cmd, len, data);
    var e := EntryCase(codes, cmd);
    var ops := CtrlDispatch(codes, cmd, len, data);
    assert |cases| == 10;
    assert ops == cases[e..] + [CtrlDefault(codes, len, data)];
    forall k | 0 <= k < |ops| - 1 ensures ops[k].cmd.command == cmd {
      assert ops[k] == cases[e + k] == CtrlCaseOp(codes, e + k, cmd, len, data);
    }
  }

  /** A command matching no case label issues GET_DATA alone, and only such a command does. */
  lemma CtrlUnknownCommandOnlyGetData(codes: ScaCodes, cmd: bv8, len: bv8, data: Word)
    ensures cmd !in codes.CtrlCaseLabels() <==> CtrlDispatch(codes, cmd, len, data) == [CtrlDefault(codes, len, data)]
  {
    var cases := CtrlCases(codes, cmd, len, data);
    var e := EntryCase(codes, cmd);
    assert |cases| == 10;
    if cmd in codes.CtrlCaseLabels() {
      var i :| 0 <= i < 10 && codes.CtrlCaseLabels()[i] == cmd;
      assert e <= i;
      assert |CtrlDispatch(codes, cmd, len, data)| >= 2;
    } else {
      assert e == 10;
      assert cases[e..] == [];
    }
  }

  /**
   * With distinct labels, entering at case k issues 11 - k commands: the
   * bodies of cases k to 9 with opcode `cmd`, then GET_DATA.
   */
  lemma CtrlDispatchFromCase(codes: ScaCodes, k: nat, len: bv8, data: Word)
    requires codes.DistinctCtrlLabels()
    requires k < 10
    ensures var cmd := codes.CtrlCaseLabels()[k];
      && EntryCase(codes, cmd) == k
      && CtrlDispatch(codes, cmd, len, data) == CtrlCases(codes, cmd, len, data)[k..] + [CtrlDefault(codes, len, data)]
      && |CtrlDispatch(codes, cmd, len, data)| == 11 - k
  {
    var cmd := codes.CtrlCaseLabels()[k];
    var e := EntryCase(codes, cmd);
    assert e <= k;
  }

  // ---------------------------------------------------------------------------
  // The primitives

  /** The six writes of a command, appended one at a time, form `SendTrace`. */
  lemma SendTraceBuilt(t: seq<Access>, c: ScaCommand, ohMask: bv16)
    ensures t + [Write(LINK_ENABLE_MASK, ohMask as Word)] + [Write(SCA_CMD_CHANNEL, c.channel as Word)]
              + [Write(SCA_CMD_COMMAND, c.command as Word)] + [Write(SCA_CMD_LENGTH, c.length as Word)]
              + [Write(SCA_CMD_DATA, FormatSCAData(c.data))] + [Write(SCA_CMD_EXECUTE, 1)]
            == t + SendTrace(c, ohMask)
  {
  }

  /** `sendSCACommand`: the six command-register writes, payload byte-swapped. */
  method SendSCACommand(bus: Bus, ch: bv8, cmd: bv8, len: bv8, data: Word, ohMask: bv16 := ALL_OPTOHYBRIDS)
    requires bus.Valid()
    modifies bus
    ensures bus.Valid()
    ensures bus.trace == old(bus.trace) + SendTrace(ScaCommand(ch, cmd, len, data), ohMask)
  {
    bus.WriteReg(LINK_ENABLE_MASK, ohMask as Word);
    bus.WriteReg(SCA_CMD_CHANNEL, ch as Word);
    bus.WriteReg(SCA_CMD_COMMAND, cmd as Word);
    bus.WriteReg(SCA_CMD_LENGTH, len as Word);
    bus.WriteReg(SCA_CMD_DATA, FormatSCAData(data));
    bus.WriteReg(SCA_CMD_EXECUTE, 0x1);
    SendTraceBuilt(old(bus.trace), ScaCommand(ch, cmd, len, data), ohMask);
  }

  /** Collecting the reply of one more link extends the reads by at most that link's read. */
  lemma ReplyReadsSnoc(sent: seq<Access>, ohMask: bv16, raw: seq<Word>, v: Word)
    requires |raw| < NUM_OPTOHYBRIDS
    ensures LinkEnabled(ohMask, |raw|) ==>
      sent + ReplyReads(ohMask, raw) + [Read(ReplyPath(|raw|), v)] == sent + ReplyReads(ohMask, raw + [v])
    ensures !LinkEnabled(ohMask, |raw|) ==> ReplyReads(ohMask, raw) == ReplyReads(ohMask, raw + [v])
  {
    assert (raw + [v])[..|raw|] == raw;
  }

  /** Collecting the reply of one more link appends that link's slot to the reply vector. */
  lemma ReplyVectorSnoc(ohMask: bv16, raw: seq<Word>, v: Word)
    requires |raw| < NUM_OPTOHYBRIDS
    ensures ReplyVector(ohMask, raw + [v])
      == ReplyVector(ohMask, raw) + [if LinkEnabled(ohMask, |raw|) then FormatSCAData(v) else 0]
  {
  }

  /**
   * `sendSCACommandWithReply`: the command, then one reply-register read per
   * enabled link 0..11 in order; `raw` holds the values the hardware returned
   * (0 for a link not read). The reply has 12 entries.
   */
  method SendSCACommandWithReply(bus: Bus, ch: bv8, cmd: bv8, len: bv8, data: Word, ohMask: bv16 := ALL_OPTOHYBRIDS)
    returns (reply: seq<Word>, ghost raw: seq<Word>)
    requires bus.Valid()
    modifies bus
    ensures bus.Valid()
    ensures |raw| == NUM_OPTOHYBRIDS && |reply| == NUM_OPTOHYBRIDS
    ensures bus.trace == old(bus.trace) + SendTrace(ScaCommand(ch, cmd, len, data), ohMask) + ReplyReads(ohMask, raw)
    ensures forall oh | 0 <= oh < NUM_OPTOHYBRIDS ::
      reply[oh] == if LinkEnabled(ohMask, oh) then FormatSCAData(raw[oh]) else 0
    ensures reply == ReplyVector(ohMask, raw)
  {
    SendSCACommand(bus, ch, cmd, len, data, ohMask);
    ghost var sent := bus.trace;
    reply := [];
    raw := [];
    for oh := 0 to 12
      invariant bus.Valid()
      invariant |reply| == oh && |raw| == oh
      invariant bus.trace == sent + ReplyReads(ohMask, raw)
      invariant reply == ReplyVector(ohMask, raw)
    {
      if LinkEnabled(ohMask, oh) {
        var v := bus.ReadReg(ReplyPath(oh));
        ReplyReadsSnoc(sent, ohMask, raw, v);
        ReplyVectorSnoc(ohMask, raw, v);
        reply := reply + [FormatSCAData(v)];
        raw := raw + [v];
      } else {
        ReplyReadsSnoc(sent, ohMask, raw, 0);
        ReplyVectorSnoc(ohMask, raw, 0);
        reply := reply + [0];
        raw := raw + [0];
      }
    }
  }

  // ---------------------------------------------------------------------------
  // The front-ends

  /** The monitoring value saved by a front-end and the raw replies of its commands. */
  datatype Exchange = Exchange(saved: Word, raws: seq<seq<Word>>)

  /** The whole traffic of a front-end that issues `ops` under the monitoring guard. */
  function GuardedOpsTrace(ops: seq<ScaOp>, ohMask: bv16, ex: Exchange): seq<Access>
    requires RepliesFor(ops, ex.raws)
  {
    GuardTrace(ex.saved, OpsTrace(ops, ohMask, ex.raws))
  }

  /** The reply a front-end returns: that of its last command. */
  function LastReply(ohMask: bv16, raws: seq<seq<Word>>): seq<Word>
    requires |raws| > 0 && |raws[|raws| - 1]| == NUM_OPTOHYBRIDS
  {
    ReplyVector(ohMask, raws[|raws| - 1])
  }

  /** Save MONITORING_OFF and force it to all ones. */
  method DisableMonitoring(bus: Bus) returns (saved: Word)
    requires bus.Valid()
    modifies bus
    ensures bus.Valid()
    ensures saved == old(bus.respond(bus.trace, MONITORING_OFF))
    ensures bus.trace == old(bus.trace) + [Read(MONITORING_OFF, saved)] + [Write(MONITORING_OFF, ALL_MONITORING_OFF)]
  {
    saved := bus.ReadReg(MONITORING_OFF);
    bus.WriteReg(MONITORING_OFF, ALL_MONITORING_OFF);
  }

  /** Write the saved value back to MONITORING_OFF. */
  method RestoreMonitoring(bus: Bus, saved: Word)
    requires bus.Valid()
    modifies bus
    ensures bus.Valid()
    ensures bus.trace == old(bus.trace) + [Write(MONITORING_OFF, saved)]
    ensures MONITORING_OFF in bus.regs && bus.regs[MONITORING_OFF] == saved
  {
    bus.WriteReg(MONITORING_OFF, saved);
  }

  /**
   * Shared conclusion of the front-ends: the guarded traffic run after `t0`
   * leaves the history `t0 + GuardedOpsTrace(..)`, and the guard held throughout.
   */
  lemma FrontEndGuarded(t0: seq<Access>, m: map<Path, Word>, ops: seq<ScaOp>, ohMask: bv16, ex: Exchange, t: seq<Access>)
    requires RepliesFor(ops, ex.raws)
    requires t == t0 + [Read(MONITORING_OFF, ex.saved)] + [Write(MONITORING_OFF, ALL_MONITORING_OFF)]
                 + OpsTrace(ops, ohMask, ex.raws) + [Write(MONITORING_OFF, ex.saved)]
    ensures t == t0 + GuardedOpsTrace(ops, ohMask, ex)
    ensures HeldOff(m, t[|t0|..])
  {
    ScaTrafficSparesMonitoring(ops, ohMask, ex.raws);
    GuardHoldsAndRestores(m, ex.saved, OpsTrace(ops, ohMask, ex.raws));
    assert t[|t0|..] == GuardedOpsTrace(ops, ohMask, ex);
  }

  /**
   * Issuing one more operation, whose traffic `before` is extended by, records
   * it: the history is still `start` followed by the traffic of the operations.
   */
  lemma IssuedOp(start: seq<Access>, ops: seq<ScaOp>, raws: seq<seq<Word>>, op: ScaOp, raw: seq<Word>,
                 ohMask: bv16, before: seq<Access>, after: seq<Access>)
    requires RepliesFor(ops, raws) && |raw| == NUM_OPTOHYBRIDS
    requires before == start + OpsTrace(ops, ohMask, raws)
    requires op.Send? ==> after == before + SendTrace(op.cmd, ohMask)
    requires op.SendWithReply? ==> after == before + SendTrace(op.cmd, ohMask) + ReplyReads(ohMask, raw)
    ensures RepliesFor(ops + [op], raws + [raw])
    ensures after == start + OpsTrace(ops + [op], ohMask, raws + [raw])
  {
    assert (ops + [op])[..|ops|] == ops;
    assert (raws + [raw])[..|raws|] == raws;
    var prior := OpsTrace(ops, ohMask, raws);
    var send := SendTrace(op.cmd, ohMask);
    if op.SendWithReply? {
      var replies := ReplyReads(ohMask, raw);
      AppendAssoc(start, prior, send);
      AppendAssoc(start + prior, send, replies);
      AppendAssoc(start, prior + send, replies);
      AppendAssoc(prior, send, replies);
    } else {
      assert send + [] == send;
      AppendAssoc(start, prior, send);
    }
  }

  lemma SliceSnoc<T>(s: seq<T>, i: nat, j: nat)
    requires i <= j < |s|
    ensures s[i..j + 1] == s[i..j] + [s[j]]
  {
  }

  /**
   * Case k of the CTRL switch, without what falls through after it: the
   * command its body sends, with the caller's `cmd` as opcode.
   */
  method CtrlCase(bus: Bus, codes: ScaCodes, k: nat, cmd: bv8, len: bv8, data: Word, ohMask: bv16)
    returns (reply: seq<Word>, ghost raw: seq<Word>)
    requires bus.Valid()
    requires k < 10
    modifies bus
    ensures bus.Valid()
    ensures |raw| == NUM_OPTOHYBRIDS
    ensures var op := CtrlCaseOp(codes, k, cmd, len, data);
      && (op.Send? ==> bus.trace == old(bus.trace) + SendTrace(op.cmd, ohMask) && raw == NO_REPLY)
      && (op.SendWithReply? ==> bus.trace == old(bus.trace) + SendTrace(op.cmd, ohMask) + ReplyReads(ohMask, raw)
                                && reply == ReplyVector(ohMask, raw))
  {
    reply := [];
    raw := NO_REPLY;
    if k <= 1 {
      reply, raw := SendSCACommandWithReply(bus, 0x14, cmd, 0x1, 0x1, ohMask);
    } else if k <= 3 {
      reply, raw := SendSCACommandWithReply(bus, 0x13, cmd, 0x1, 0x0, ohMask);
    } else if k <= 6 {
      SendSCACommand(bus, codes.ctrlChannel, cmd, len, data, ohMask);
    } else {
      reply, raw := SendSCACommandWithReply(bus, codes.ctrlChannel, cmd, len, data, ohMask);
    }
  }

  /** Running the body of case k extends the traffic of cases entry..k-1 to that of cases entry..k. */
  lemma CtrlStep(start: seq<Access>, codes: ScaCodes, cmd: bv8, len: bv8, data: Word, ohMask: bv16,
                 entry: nat, k: nat, ops: seq<ScaOp>, raws: seq<seq<Word>>, raw: seq<Word>,
                 before: seq<Access>, after: seq<Access>)
    requires entry <= k < 10 && |raw| == NUM_OPTOHYBRIDS
    requires RepliesFor(ops, raws) && ops == CtrlCases(codes, cmd, len, data)[entry..k]
    requires before == start + OpsTrace(ops, ohMask, raws)
    requires var op := CtrlCaseOp(codes, k, cmd, len, data);
      && (op.Send? ==> after == before + SendTrace(op.cmd, ohMask))
      && (op.SendWithReply? ==> after == before + SendTrace(op.cmd, ohMask) + ReplyReads(ohMask, raw))
    ensures var ops' := ops + [CtrlCaseOp(codes, k, cmd, len, data)];
      && RepliesFor(ops', raws + [raw])
      && ops' == CtrlCases(codes, cmd, len, data)[entry..k + 1]
      && after == start + OpsTrace(ops', ohMask, raws + [raw])
  {
    var cases := CtrlCases(codes, cmd, len, data);
    IssuedOp(start, ops, raws, cases[k], raw, ohMask, before, after);
    SliceSnoc(cases, entry, k);
  }

  /** After the last case, the `default` arm completes the dispatch and gives the reply. */
  lemma CtrlFinish(start: seq<Access>, codes: ScaCodes, cmd: bv8, len: bv8, data: Word, ohMask: bv16,
                   ops: seq<ScaOp>, raws: seq<seq<Word>>, raw: seq<Word>, reply: seq<Word>,
                   before: seq<Access>, after: seq<Access>)
    requires EntryCase(codes, cmd) <= 10 && |raw| == NUM_OPTOHYBRIDS
    requires RepliesFor(ops, raws) && ops == CtrlCases(codes, cmd, len, data)[EntryCase(codes, cmd)..10]
    requires before == start + OpsTrace(ops, ohMask, raws)
    requires after == before + SendTrace(CtrlDefault(codes, len, data).cmd, ohMask) + ReplyReads(ohMask, raw)
    requires reply == ReplyVector(ohMask, raw)
    ensures RepliesFor(CtrlDispatch(codes, cmd, len, data), raws + [raw])
    ensures after == start + OpsTrace(CtrlDispatch(codes, cmd, len, data), ohMask, raws + [raw])
    ensures reply == LastReply(ohMask, raws + [raw])
  {
    var cases := CtrlCases(codes, cmd, len, data);
    assert |cases| == 10;
    assert cases[EntryCase(codes, cmd)..] == ops;
    IssuedOp(start, ops, raws, CtrlDefault(codes, len, data), raw, ohMask, before, after);
    assert (raws + [raw])[|raws|] == raw;
  }

  /**
   * The switch of `scaCTRLCommand`: it has no `break`, so the body of every
   * case from the entry case to the last runs, then the `default` arm.
   */
  method CtrlSwitch(bus: Bus, codes: ScaCodes, cmd: bv8, len: bv8, data: Word, ohMask: bv16)
    returns (result: seq<Word>, ghost raws: seq<seq<Word>>)
    requires bus.Valid()
    modifies bus
    ensures bus.Valid()
    ensures RepliesFor(CtrlDispatch(codes, cmd, len, data), raws)
    ensures bus.trace == old(bus.trace) + OpsTrace(CtrlDispatch(codes, cmd, len, data), ohMask, raws)
    ensures result == LastReply(ohMask, raws)
  {
    ghost var start := bus.trace;
    var entry := EntryCase(codes, cmd);
    ghost var ops: seq<ScaOp> := [];
    raws := [];
    assert start + [] == start;
    for k := entry to 10
      invariant bus.Valid()
      invariant RepliesFor(ops, raws)
      invariant ops == CtrlCases(codes, cmd, len, data)[entry..k]
      invariant bus.trace == start + OpsTrace(ops, ohMask, raws)
    {
      ghost var before := bus.trace;
      ghost var raw;
      result, raw := CtrlCase(bus, codes, k, cmd, len, data, ohMask);
      CtrlStep(start, codes, cmd, len, data, ohMask, entry, k, ops, raws, raw, before, bus.trace);
      ops, raws := ops + [CtrlCaseOp(codes, k, cmd, len, data)], raws + [raw];
    }
    ghost var before := bus.trace;
    ghost var raw;
    result, raw := SendSCACommandWithReply(bus, codes.ctrlChannel, codes.getData, len, data, ohMask);
    CtrlFinish(start, codes, cmd, len, data, ohMask, ops, raws, raw, result, before, bus.trace);
    raws := raws + [raw];
  }

  /**
   * `scaCTRLCommand`, as written: the guarded CTRL switch, which falls through
   * from the entry case to `default`, so the reply returned is always that of
   * GET_DATA.
   */
  method ScaCTRLCommand(bus: Bus, codes: ScaCodes, cmd: bv8, ohMask: bv16 := ALL_OPTOHYBRIDS,
                        len: bv8 := 0x1, data: Word := 0x0)
    returns (result: seq<Word>, ghost ex: Exchange)
    requires bus.Valid()
    modifies bus
    ensures bus.Valid()
    ensures RepliesFor(CtrlDispatch(codes, cmd, len, data), ex.raws)
    ensures ex.saved == old(bus.respond(bus.trace, MONITORING_OFF))
    ensures bus.trace == old(bus.trace) + GuardedOpsTrace(CtrlDispatch(codes, cmd, len, data), ohMask, ex)
    ensures result == LastReply(ohMask, ex.raws) && |result| == NUM_OPTOHYBRIDS
    ensures HeldOff(old(bus.regs), bus.trace[|old(bus.trace)|..])
    ensures MONITORING_OFF in bus.regs && bus.regs[MONITORING_OFF] == ex.saved
  {
    var saved := DisableMonitoring(bus);
    ghost var raws;
    result, raws := CtrlSwitch(bus, codes, cmd, len, data, ohMask);
    ex := Exchange(saved, raws);
    RestoreMonitoring(bus, saved);
    FrontEndGuarded(old(bus.trace), old(bus.regs), CtrlDispatch(codes, cmd, len, data), ohMask, ex, bus.trace);
  }

  /** `scaI2CCommand`: one guarded command without reply; the result is always empty. */
  method ScaI2CCommand(bus: Bus, ch: bv8, cmd: bv8, len: bv8, data: Word, ohMask: bv16 := ALL_OPTOHYBRIDS)
    returns (result: seq<Word>, ghost ex: Exchange)
    requires bus.Valid()
    modifies bus
    ensures bus.Valid()
    ensures result == []
    ensures RepliesFor([Send(ScaCommand(ch, cmd, len, data))], ex.raws)
    ensures ex.saved == old(bus.respond(bus.trace, MONITORING_OFF))
    ensures bus.trace == old(bus.trace) + GuardedOpsTrace([Send(ScaCommand(ch, cmd, len, data))], ohMask, ex)
    ensures HeldOff(old(bus.regs), bus.trace[|old(bus.trace)|..])
    ensures MONITORING_OFF in bus.regs && bus.regs[MONITORING_OFF] == ex.saved
  {
    result := [];
    var saved := DisableMonitoring(bus);
    ghost var start := bus.trace;
    ghost var op := Send(ScaCommand(ch, cmd, len, data));
    SendSCACommand(bus, ch, cmd, len, data, ohMask);
    IssuedOp(start, [], [], op, NO_REPLY, ohMask, start, bus.trace);
    ex := Exchange(saved, [NO_REPLY]);
    RestoreMonitoring(bus, saved);
    FrontEndGuarded(old(bus.trace), old(bus.regs), [op], ohMask, ex, bus.trace);
  }

  /** `scaGPIOCommandLocal`: one guarded command with reply on the GPIO channel. */
  method ScaGPIOCommandLocal(bus: Bus, codes: ScaCodes, cmd: bv8, len: bv8, data: Word, ohMask: bv16)
    returns (reply: seq<Word>, ghost ex: Exchange)
    requires bus.Valid()
    modifies bus
    ensures bus.Valid()
    ensures RepliesFor([SendWithReply(ScaCommand(codes.gpioChannel, cmd, len, data))], ex.raws)
    ensures ex.saved == old(bus.respond(bus.trace, MONITORING_OFF))
    ensures bus.trace == old(bus.trace)
      + GuardedOpsTrace([SendWithReply(ScaCommand(codes.gpioChannel, cmd, len, data))], ohMask, ex)
    ensures reply == LastReply(ohMask, ex.raws) && |reply| == NUM_OPTOHYBRIDS
    ensures HeldOff(old(bus.regs), bus.trace[|old(bus.trace)|..])
    ensures MONITORING_OFF in bus.regs && bus.regs[MONITORING_OFF] == ex.saved
  {
    var saved := DisableMonitoring(bus);
    ghost var start := bus.trace;
    ghost var op := SendWithReply(ScaCommand(codes.gpioChannel, cmd, len, data));
    ghost var raw;
    reply, raw := SendSCACommandWithReply(bus, codes.gpioChannel, cmd, len, data, ohMask);
    IssuedOp(start, [], [], op, raw, ohMask, start, bus.trace);
    ex := Exchange(saved, [raw]);
    RestoreMonitoring(bus, saved);
    FrontEndGuarded(old(bus.trace), old(bus.regs), [op], ohMask, ex, bus.trace);
  }

  /** The five ADC channels of the temperature sensors: 0x00, 0x04, 0x07, 0x08 and 0x1f. */
  predicate IsTemperatureChannel(ch: bv8)
  {
    ch == 0x00 || ch == 0x04 || ch == 0x07 || ch == 0x08 || ch == 0x1f
  }

  /**
   * The current-sink enable bit of a temperature channel, `1 << ch`; for
   * channel 0x1f this is bit 31, which the source computes in `int` and
   * passes on as the unsigned word 0x80000000.
   */
  function CurrentSinkBit(ch: bv8): Word
    requires IsTemperatureChannel(ch)
  {
    if ch == 0x00 then 0x0000_0001
    else if ch == 0x04 then 0x0000_0010
    else if ch == 0x07 then 0x0000_0080
    else if ch == 0x08 then 0x0000_0100
    else 0x8000_0000
  }

  lemma CurrentSinkBitIsShift(ch: bv8)
    requires IsTemperatureChannel(ch)
    ensures CurrentSinkBit(ch) == (1 as Word) << ch
  {
  }

  /**
   * The commands of `scaADCCommand`, all of length 4: select the multiplexer
   * input, enable the current sink on a temperature channel, start the conversion.
   */
  function AdcOps(codes: ScaCodes, ch: bv8): seq<ScaOp>
  {
    var mux := Send(ScaCommand(codes.adcChannel, codes.adcWMux, 0x4, ch as Word));
    var go := SendWithReply(ScaCommand(codes.adcChannel, codes.adcGo, 0x4, 0x1));
    if IsTemperatureChannel(ch) then [mux] + [Send(ScaCommand(codes.adcChannel, codes.adcWCurr, 0x4, CurrentSinkBit(ch)))] + [go]
    else [mux] + [go]
  }

  /**
   * The ADC sequence selects `ch` first and converts last; it contains a
   * current-sink command if and only if `ch` is a temperature channel, and that
   * command's payload is `1 << ch`.
   */
  lemma AdcCurrentSinkIffTemperature(codes: ScaCodes, ch: bv8)
    requires codes.adcWCurr != codes.adcWMux && codes.adcWCurr != codes.adcGo
    ensures var ops := AdcOps(codes, ch);
      && ops[0] == Send(ScaCommand(codes.adcChannel, codes.adcWMux, 0x4, ch as Word))
      && ops[|ops| - 1] == SendWithReply(ScaCommand(codes.adcChannel, codes.adcGo, 0x4, 0x1))
      && (forall k | 0 <= k < |ops| :: ops[k].cmd.channel == codes.adcChannel && ops[k].cmd.length == 0x4)
      && ((exists k | 0 <= k < |ops| :: ops[k].cmd.command == codes.adcWCurr) <==> IsTemperatureChannel(ch))
      && (forall k | 0 <= k < |ops| && ops[k].cmd.command == codes.adcWCurr ::
            IsTemperatureChannel(ch) && ops[k] == Send(ScaCommand(codes.adcChannel, codes.adcWCurr, 0x4, CurrentSinkBit(ch))))
  {
    var ops := AdcOps(codes, ch);
    if IsTemperatureChannel(ch) {
      assert ops[1].cmd.command == codes.adcWCurr;
    }
  }

  /** The raw replies of the ADC sequence: none for the sends, `raw` for the conversion. */
  function AdcRaws(ch: bv8, raw: seq<Word>): seq<seq<Word>>
  {
    if IsTemperatureChannel(ch) then [NO_REPLY] + [NO_REPLY] + [raw] else [NO_REPLY] + [raw]
  }

  /** Three commands issued one after another: a send, a send, a send with reply. */
  lemma ThreeOps(start: seq<Access>, a: ScaOp, b: ScaOp, c: ScaOp, ohMask: bv16, raw: seq<Word>,
                 t2: seq<Access>, t3: seq<Access>, t4: seq<Access>)
    requires a.Send? && b.Send? && c.SendWithReply? && |raw| == NUM_OPTOHYBRIDS
    requires t2 == start + SendTrace(a.cmd, ohMask)
    requires t3 == t2 + SendTrace(b.cmd, ohMask)
    requires t4 == t3 + SendTrace(c.cmd, ohMask) + ReplyReads(ohMask, raw)
    ensures RepliesFor([a] + [b] + [c], [NO_REPLY] + [NO_REPLY] + [raw])
    ensures t4 == start + OpsTrace([a] + [b] + [c], ohMask, [NO_REPLY] + [NO_REPLY] + [raw])
  {
    FirstOp(start, a, ohMask, t2);
    IssuedOp(start, [a], [NO_REPLY], b, NO_REPLY, ohMask, t2, t3);
    IssuedOp(start, [a] + [b], [NO_REPLY] + [NO_REPLY], c, raw, ohMask, t3, t4);
  }

  /** Two commands issued one after another: a send, then a send with reply. */
  lemma TwoOps(start: seq<Access>, a: ScaOp, c: ScaOp, ohMask: bv16, raw: seq<Word>,
               t2: seq<Access>, t4: seq<Access>)
    requires a.Send? && c.SendWithReply? && |raw| == NUM_OPTOHYBRIDS
    requires t2 == start + SendTrace(a.cmd, ohMask)
    requires t4 == t2 + SendTrace(c.cmd, ohMask) + ReplyReads(ohMask, raw)
    ensures RepliesFor([a] + [c], [NO_REPLY] + [raw])
    ensures t4 == start + OpsTrace([a] + [c], ohMask, [NO_REPLY] + [raw])
  {
    FirstOp(start, a, ohMask, t2);
    IssuedOp(start, [a], [NO_REPLY], c, raw, ohMask, t2, t4);
  }

  /** The traffic of the three (or two) ADC commands, issued one after another, is that of `AdcOps`. */
  lemma AdcTraffic(codes: ScaCodes, ch: bv8, ohMask: bv16, raw: seq<Word>,
                   start: seq<Access>, t2: seq<Access>, t3: seq<Access>, t4: seq<Access>)
    requires |raw| == NUM_OPTOHYBRIDS
    requires t2 == start + SendTrace(ScaCommand(codes.adcChannel, codes.adcWMux, 0x4, ch as Word), ohMask)
    requires IsTemperatureChannel(ch) ==>
      t3 == t2 + SendTrace(ScaCommand(codes.adcChannel, codes.adcWCurr, 0x4, CurrentSinkBit(ch)), ohMask)
    requires !IsTemperatureChannel(ch) ==> t3 == t2
    requires t4 == t3 + SendTrace(ScaCommand(codes.adcChannel, codes.adcGo, 0x4, 0x1), ohMask) + ReplyReads(ohMask, raw)
    ensures RepliesFor(AdcOps(codes, ch), AdcRaws(ch, raw))
    ensures t4 == start + OpsTrace(AdcOps(codes, ch), ohMask, AdcRaws(ch, raw))
    ensures LastReply(ohMask, AdcRaws(ch, raw)) == ReplyVector(ohMask, raw)
  {
    var mux := Send(ScaCommand(codes.adcChannel, codes.adcWMux, 0x4, ch as Word));
    var go := SendWithReply(ScaCommand(codes.adcChannel, codes.adcGo, 0x4, 0x1));
    if IsTemperatureChannel(ch) {
      var sink := Send(ScaCommand(codes.adcChannel, codes.adcWCurr, 0x4, CurrentSinkBit(ch)));
      ThreeOps(start, mux, sink, go, ohMask, raw, t2, t3, t4);
    } else {
      TwoOps(start, mux, go, ohMask, raw, t2, t4);
    }
  }

  /** The traffic of a single command sent without reply. */
  lemma FirstOp(start: seq<Access>, op: ScaOp, ohMask: bv16, t: seq<Access>)
    requires op.Send? && t == start + SendTrace(op.cmd, ohMask)
    ensures RepliesFor([op], [NO_REPLY])
    ensures t == start + OpsTrace([op], ohMask, [NO_REPLY])
  {
    assert [op][..0] == [];
  }

  /**
   * `scaADCCommand`: the guarded ADC sequence; `len` and `data` are ignored and
   * the reply is that of the conversion command.
   */
  method ScaADCCommand(bus: Bus, codes: ScaCodes, ch: bv8, len: bv8, data: Word, ohMask: bv16 := ALL_OPTOHYBRIDS)
    returns (result: seq<Word>, ghost ex: Exchange)
    requires bus.Valid()
    modifies bus
    ensures bus.Valid()
    ensures RepliesFor(AdcOps(codes, ch), ex.raws)
    ensures ex.saved == old(bus.respond(bus.trace, MONITORING_OFF))
    ensures bus.trace == old(bus.trace) + GuardedOpsTrace(AdcOps(codes, ch), ohMask, ex)
    ensures result == LastReply(ohMask, ex.raws) && |result| == NUM_OPTOHYBRIDS
    ensures HeldOff(old(bus.regs), bus.trace[|old(bus.trace)|..])
    ensures MONITORING_OFF in bus.regs && bus.regs[MONITORING_OFF] == ex.saved
  {
    var saved := DisableMonitoring(bus);
    ghost var start := bus.trace;
    SendSCACommand(bus, codes.adcChannel, codes.adcWMux, 0x4, ch as Word, ohMask);
    ghost var t2 := bus.trace;
    if ch == 0x00 || ch == 0x04 || ch == 0x07 || ch == 0x08 || ch == 0x1f {
      SendSCACommand(bus, codes.adcChannel, codes.adcWCurr, 0x4, CurrentSinkBit(ch), ohMask);
    }
    ghost var t3 := bus.trace;
    ghost var raw;
    result, raw := SendSCACommandWithReply(bus, codes.adcChannel, codes.adcGo, 0x4, 0x1, ohMask);
    AdcTraffic(codes, ch, ohMask, raw, start, t2, t3, bus.trace);
    ex := Exchange(saved, AdcRaws(ch, raw));
    RestoreMonitoring(bus, saved);
    FrontEndGuarded(old(bus.trace), old(bus.regs), AdcOps(codes, ch), ohMask, ex, bus.trace);
  }

  // ---------------------------------------------------------------------------
  // Helpers built on the CTRL front-end

  /** The traffic of one `scaCTRLCommand` call with the header's default length and data. */
  function CtrlTrace(codes: ScaCodes, cmd: bv8, ohMask: bv16, ex: Exchange): seq<Access>
    requires RepliesFor(CtrlDispatch(codes, cmd, 0x1, 0x0), ex.raws)
  {
    GuardedOpsTrace(CtrlDispatch(codes, cmd, 0x1, 0x0), ohMask, ex)
  }

  /** `readSCAChipIDLocal`: the CTRL command CTRL_R_ID_V1 if `scaV1`, else CTRL_R_ID_V2. */
  method ReadSCAChipIDLocal(bus: Bus, codes: ScaCodes, ohMask: bv16 := ALL_OPTOHYBRIDS, scaV1: bool := false)
    returns (ids: seq<Word>, ghost ex: Exchange)
    requires bus.Valid()
    modifies bus
    ensures bus.Valid()
    ensures var cmd := if scaV1 then codes.ctrlRIdV1 else codes.ctrlRIdV2;
      && RepliesFor(CtrlDispatch(codes, cmd, 0x1, 0x0), ex.raws)
      && bus.trace == old(bus.trace) + CtrlTrace(codes, cmd, ohMask, ex)
    ensures ids == LastReply(ohMask, ex.raws)
    ensures HeldOff(old(bus.regs), CtrlTrace(codes, if scaV1 then codes.ctrlRIdV1 else codes.ctrlRIdV2, ohMask, ex))
    ensures MONITORING_OFF in bus.regs && bus.regs[MONITORING_OFF] == ex.saved
  {
    ghost var t0 := bus.trace;
    if scaV1 {
      ids, ex := ScaCTRLCommand(bus, codes, codes.ctrlRIdV1, ohMask);
    } else {
      ids, ex := ScaCTRLCommand(bus, codes, codes.ctrlRIdV2, ohMask);
    }
    assert bus.trace[|t0|..] == CtrlTrace(codes, if scaV1 then codes.ctrlRIdV1 else codes.ctrlRIdV2, ohMask, ex);
  }

  /** `resetSCASEUCounterLocal`: the CTRL command CTRL_C_SEU; its reply is discarded. */
  method ResetSCASEUCounterLocal(bus: Bus, codes: ScaCodes, ohMask: bv16 := ALL_OPTOHYBRIDS)
    returns (ghost ex: Exchange)
    requires bus.Valid()
    modifies bus
    ensures bus.Valid()
    ensures RepliesFor(CtrlDispatch(codes, codes.ctrlCSeu, 0x1, 0x0), ex.raws)
    ensures bus.trace == old(bus.trace) + CtrlTrace(codes, codes.ctrlCSeu, ohMask, ex)
    ensures HeldOff(old(bus.regs), CtrlTrace(codes, codes.ctrlCSeu, ohMask, ex))
    ensures MONITORING_OFF in bus.regs && bus.regs[MONITORING_OFF] == ex.saved
  {
    ghost var t0 := bus.trace;
    var _, e := ScaCTRLCommand(bus, codes, codes.ctrlCSeu, ohMask);
    ex := e;
    assert bus.trace[|t0|..] == CtrlTrace(codes, codes.ctrlCSeu, ohMask, ex);
  }

  /**
   * `readSCASEUCounterLocal`: with `reset`, a CTRL_C_SEU command first; then
   * the CTRL_R_SEU command whose reply is returned.
   */
  method ReadSCASEUCounterLocal(bus: Bus, codes: ScaCodes, ohMask: bv16 := ALL_OPTOHYBRIDS, reset: bool := false)
    returns (counts: seq<Word>, ghost clear: Exchange, ghost read: Exchange)
    requires bus.Valid()
    modifies bus
    ensures bus.Valid()
    ensures reset ==> RepliesFor(CtrlDispatch(codes, codes.ctrlCSeu, 0x1, 0x0), clear.raws)
    ensures RepliesFor(CtrlDispatch(codes, codes.ctrlRSeu, 0x1, 0x0), read.raws)
    ensures bus.trace == old(bus.trace)
      + (if reset then CtrlTrace(codes, codes.ctrlCSeu, ohMask, clear) else [])
      + CtrlTrace(codes, codes.ctrlRSeu, ohMask, read)
    ensures counts == LastReply(ohMask, read.raws)
    ensures reset ==> HeldOff(old(bus.regs), CtrlTrace(codes, codes.ctrlCSeu, ohMask, clear))
    ensures var before := if reset then Replay(old(bus.regs), CtrlTrace(codes, codes.ctrlCSeu, ohMask, clear)) else old(bus.regs);
      HeldOff(before, CtrlTrace(codes, codes.ctrlRSeu, ohMask, read))
    ensures MONITORING_OFF in bus.regs && bus.regs[MONITORING_OFF] == read.saved
  {
    ghost var t0 := bus.trace;
    clear := Exchange(0, []);
    if reset {
      clear := ResetSCASEUCounterLocal(bus, codes, ohMask);
      ReplayAppend(bus.initial, t0, CtrlTrace(codes, codes.ctrlCSeu, ohMask, clear));
    }
    ghost var t1 := bus.trace;
    counts, read := ScaCTRLCommand(bus, codes, codes.ctrlRSeu, ohMask);
    assert bus.trace[|t1|..] == CtrlTrace(codes, codes.ctrlRSeu, ohMask, read);
  }

  /**
   * `scaModuleResetLocal`: save SCA_RESET_ENABLE_MASK, enable the reset on the
   * links of `ohMask`, pulse MODULE_RESET, write the saved mask back.
   */
  method ScaModuleResetLocal(bus: Bus, ohMask: bv16) returns (ghost origMask: Word)
    requires bus.Valid()
    modifies bus
    ensures bus.Valid()
    ensures origMask == old(bus.respond(bus.trace, SCA_RESET_ENABLE_MASK))
    ensures bus.trace == old(bus.trace) + [ Read(SCA_RESET_ENABLE_MASK, origMask),
                                            Write(SCA_RESET_ENABLE_MASK, ohMask as Word),
                                            Write(MODULE_RESET, 1),
                                            Write(SCA_RESET_ENABLE_MASK, origMask) ]
    ensures bus.regs == old(bus.regs)[MODULE_RESET := 1][SCA_RESET_ENABLE_MASK := origMask]
  {
    var orig := bus.ReadReg(SCA_RESET_ENABLE_MASK);
    bus.WriteReg(SCA_RESET_ENABLE_MASK, ohMask as Word);
    bus.WriteReg(MODULE_RESET, 0x1);
    bus.WriteReg(SCA_RESET_ENABLE_MASK, orig);
    origMask := orig;
  }

  /** `scaHardResetEnableLocal`: TTC_HARD_RESET_EN becomes 1 if `en`, else 0. */
  method ScaHardResetEnableLocal(bus: Bus, en: bool)
    requires bus.Valid()
    modifies bus
    ensures bus.Valid()
    ensures bus.trace == old(bus.trace) + [Write(TTC_HARD_RESET_EN, if en then 1 else 0)]
    ensures bus.regs == old(bus.regs)[TTC_HARD_RESET_EN := if en then 1 else 0]
  {
    bus.WriteReg(TTC_HARD_RESET_EN, if en then 1 else 0);
  }
}
