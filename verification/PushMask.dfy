/** The push-notification mask that the panel is asked for, built from the auto-read settings. */
module PushMask {
  import opened Bytes

  /** The `auto_read_*` switches of the configuration. */
  datatype AutoRead = AutoRead(
    violation: bool, tamper: bool, alarm: bool, tamperAlarm: bool,
    alarmMemory: bool, tamperAlarmMemory: bool, bypass: bool, noViolation: bool,
    longViolation: bool, armedSuppressed: bool, armedReally: bool,
    partitionAlarm: bool, partitionAlarmMemory: bool, entryTime: bool, exitTime: bool,
    outputs: bool, troubles: bool, troublesMemory: bool)
  {
    predicate IsEnabled()
    {
      || violation || tamper || alarm || tamperAlarm || alarmMemory || tamperAlarmMemory || bypass
      || noViolation || longViolation || armedSuppressed || armedReally || partitionAlarm
      || partitionAlarmMemory || entryTime || exitTime || outputs || troubles || troublesMemory
    }
  }

  /** Which commands the settings ask to be pushed. */
  predicate Selected(c: AutoRead, cmd: nat)
  {
    match cmd
    case 0x00 => c.violation
    case 0x01 => c.tamper
    case 0x02 => c.alarm
    case 0x03 => c.tamperAlarm
    case 0x04 => c.alarmMemory
    case 0x05 => c.tamperAlarmMemory
    case 0x06 => c.bypass
    case 0x07 => c.noViolation
    case 0x08 => c.longViolation
    case 0x09 => c.armedSuppressed
    case 0x0A => c.armedReally
    case 0x0E => c.entryTime
    case 0x0F => c.exitTime
    case 0x10 => c.exitTime
    case 0x13 => c.partitionAlarm
    case 0x15 => c.partitionAlarmMemory
    case 0x17 => c.outputs
    case _ =>
      if 0x1A <= cmd <= 0x1F || cmd == 0x2C || cmd == 0x2D || cmd == 0x30 then c.troubles
      else if 0x20 <= cmd <= 0x24 || cmd == 0x2E || cmd == 0x2F || cmd == 0x31 then c.troublesMemory
      else false
  }

  // ---------- Bytes from bits ----------

  function On(b: bool): nat { if b then 1 else 0 }

  /** Eight switches as the bits of one byte, lowest first. */
  function Pack(b0: bool, b1: bool, b2: bool, b3: bool, b4: bool, b5: bool, b6: bool, b7: bool): byte
  {
    Nibble(b0, b1, b2, b3) + 16 * Nibble(b4, b5, b6, b7)
  }

  function Nibble(b0: bool, b1: bool, b2: bool, b3: bool): (n: nat)
    ensures n < 16
  {
    On(b0) + 2 * On(b1) + 4 * On(b2) + 8 * On(b3)
  }

  lemma NibbleBits(b0: bool, b1: bool, b2: bool, b3: bool)
    ensures var n := Nibble(b0, b1, b2, b3);
      n % 2 == On(b0) && n / 2 % 2 == On(b1) && n / 4 % 2 == On(b2) && n / 8 % 2 == On(b3)
  {
  }

  lemma PackBits(b0: bool, b1: bool, b2: bool, b3: bool, b4: bool, b5: bool, b6: bool, b7: bool)
    ensures var b := Pack(b0, b1, b2, b3, b4, b5, b6, b7);
      && Bit(b, 0) == b0 && Bit(b, 1) == b1 && Bit(b, 2) == b2 && Bit(b, 3) == b3
      && Bit(b, 4) == b4 && Bit(b, 5) == b5 && Bit(b, 6) == b6 && Bit(b, 7) == b7
  {
    hide Nibble, Bit, On;
    NibbleBits(b0, b1, b2, b3);
    NibbleBits(b4, b5, b6, b7);
    LowNibble(Nibble(b0, b1, b2, b3), Nibble(b4, b5, b6, b7));
    HighNibble(Nibble(b0, b1, b2, b3), Nibble(b4, b5, b6, b7));
    OnIsOne(b0, b1, b2, b3);
    OnIsOne(b4, b5, b6, b7);
  }

  lemma OnIsOne(b0: bool, b1: bool, b2: bool, b3: bool)
    ensures (On(b0) == 1 <==> b0) && (On(b1) == 1 <==> b1) && (On(b2) == 1 <==> b2) && (On(b3) == 1 <==> b3)
  {
  }

  // ---------- The mask ----------

  function MaskByte(c: AutoRead, k: nat): byte
  {
    match k
    case 0 =>
      Pack(c.violation, c.tamper, c.alarm, c.tamperAlarm, c.alarmMemory, c.tamperAlarmMemory, c.bypass, c.noViolation)
    case 1 => Pack(c.longViolation, c.armedSuppressed, c.armedReally, false, false, false, c.entryTime, c.exitTime)
    case 2 => Pack(c.exitTime, false, false, c.partitionAlarm, false, c.partitionAlarmMemory, false, c.outputs)
    case 3 => Pack(false, false, c.troubles, c.troubles, c.troubles, c.troubles, c.troubles, c.troubles)
    case 4 =>
      Pack(c.troublesMemory, c.troublesMemory, c.troublesMemory, c.troublesMemory, c.troublesMemory, false, false,
           false)
    case 5 => Pack(false, false, false, false, c.troubles, c.troubles, c.troublesMemory, c.troublesMemory)
    case 6 => Pack(c.troubles, c.troublesMemory, false, false, false, false, false, false)
    case _ => 0
  }

  /** The mask is 14 bytes long for modules with eight trouble groups, 12 for the others. */
  function BuildPushMask(c: AutoRead, support14: bool): (mask: seq<byte>)
    ensures |mask| == if support14 then 14 else 12
  {
    seq(if support14 then 14 else 12, k requires 0 <= k => MaskByte(c, k))
  }

  lemma Byte0Asks(c: AutoRead, bit: nat)
    requires bit < 8
    ensures Bit(MaskByte(c, 0), bit) <==> Selected(c, 0 + bit)
  {
    hide Bit, Pack;
    PackBits(c.violation, c.tamper, c.alarm, c.tamperAlarm, c.alarmMemory, c.tamperAlarmMemory, c.bypass,
             c.noViolation);
  }

  lemma Byte1Asks(c: AutoRead, bit: nat)
    requires bit < 8
    ensures Bit(MaskByte(c, 1), bit) <==> Selected(c, 8 + bit)
  {
    hide Bit, Pack;
    PackBits(c.longViolation, c.armedSuppressed, c.armedReally, false, false, false, c.entryTime, c.exitTime);
  }

  lemma Byte2Asks(c: AutoRead, bit: nat)
    requires bit < 8
    ensures Bit(MaskByte(c, 2), bit) <==> Selected(c, 16 + bit)
  {
    hide Bit, Pack;
    PackBits(c.exitTime, false, false, c.partitionAlarm, false, c.partitionAlarmMemory, false, c.outputs);
  }

  lemma Byte3Asks(c: AutoRead, bit: nat)
    requires bit < 8
    ensures Bit(MaskByte(c, 3), bit) <==> Selected(c, 24 + bit)
  {
    hide Bit, Pack;
    PackBits(false, false, c.troubles, c.troubles, c.troubles, c.troubles, c.troubles, c.troubles);
  }

  lemma Byte4Asks(c: AutoRead, bit: nat)
    requires bit < 8
    ensures Bit(MaskByte(c, 4), bit) <==> Selected(c, 32 + bit)
  {
    hide Bit, Pack;
    PackBits(c.troublesMemory, c.troublesMemory, c.troublesMemory, c.troublesMemory, c.troublesMemory, false, false,
             false);
  }

  lemma Byte5Asks(c: AutoRead, bit: nat)
    requires bit < 8
    ensures Bit(MaskByte(c, 5), bit) <==> Selected(c, 40 + bit)
  {
    hide Bit, Pack;
    PackBits(false, false, false, false, c.troubles, c.troubles, c.troublesMemory, c.troublesMemory);
  }

  lemma Byte6Asks(c: AutoRead, bit: nat)
    requires bit < 8
    ensures Bit(MaskByte(c, 6), bit) <==> Selected(c, 48 + bit)
  {
    hide Bit, Pack;
    PackBits(c.troubles, c.troublesMemory, false, false, false, false, false, false);
  }

  lemma HighByteAsks(c: AutoRead, k: nat, bit: nat)
    requires 7 <= k && bit < 8
    ensures Bit(MaskByte(c, k), bit) <==> Selected(c, 8 * k + bit)
  {
    hide Pack;
  }

  lemma ByteAsks(c: AutoRead, k: nat, bit: nat)
    requires bit < 8
    ensures Bit(MaskByte(c, k), bit) <==> Selected(c, 8 * k + bit)
  {
    hide Selected, MaskByte, Bit;
    match k
    case 0 => Byte0Asks(c, bit);
    case 1 => Byte1Asks(c, bit);
    case 2 => Byte2Asks(c, bit);
    case 3 => Byte3Asks(c, bit);
    case 4 => Byte4Asks(c, bit);
    case 5 => Byte5Asks(c, bit);
    case 6 => Byte6Asks(c, bit);
    case _ => HighByteAsks(c, k, bit);
  }

  /** Bit `cmd` of the mask, in either length, is set exactly for the selected commands. */
  lemma MaskAsksExactly(c: AutoRead, support14: bool, cmd: nat)
    requires cmd < 8 * |BuildPushMask(c, support14)|
    ensures BitAt(BuildPushMask(c, support14), cmd) <==> Selected(c, cmd)
  {
    hide Selected, MaskByte, Bit;
    assert cmd == 8 * (cmd / 8) + cmd % 8;
    ByteAsks(c, cmd / 8, cmd % 8);
  }

  /** The two lengths ask for the same commands. */
  lemma MaskLengthsAgree(c: AutoRead)
    ensures BuildPushMask(c, false) == BuildPushMask(c, true)[..12]
  {
  }

  /** The mask tells all settings apart, in either length. */
  lemma MaskDeterminesSettings(a: AutoRead, b: AutoRead, support14: bool)
    requires BuildPushMask(a, support14)[..12] == BuildPushMask(b, support14)[..12]
    ensures a == b
  {
    hide BuildPushMask, Selected;
    forall cmd: nat | cmd < 96 ensures Selected(a, cmd) == Selected(b, cmd) {
      SameBit(a, b, support14, cmd);
    }
    SelectedDetermines(a, b);
  }

  lemma SameBit(a: AutoRead, b: AutoRead, support14: bool, cmd: nat)
    requires BuildPushMask(a, support14)[..12] == BuildPushMask(b, support14)[..12] && cmd < 96
    ensures Selected(a, cmd) == Selected(b, cmd)
  {
    hide BuildPushMask, Selected, Bit;
    var x, y := BuildPushMask(a, support14), BuildPushMask(b, support14);
    assert x[cmd / 8] == x[..12][cmd / 8] == y[..12][cmd / 8] == y[cmd / 8];
    MaskAsksExactly(a, support14, cmd);
    MaskAsksExactly(b, support14, cmd);
  }

  /** Every setting can be read off one selected command. */
  lemma SelectedIsZoneSetting(c: AutoRead)
    ensures
      && (Selected(c, 0x00) <==> c.violation) && (Selected(c, 0x01) <==> c.tamper) && (Selected(c, 0x02) <==> c.alarm)
      && (Selected(c, 0x03) <==> c.tamperAlarm) && (Selected(c, 0x04) <==> c.alarmMemory)
      && (Selected(c, 0x05) <==> c.tamperAlarmMemory)
      && (Selected(c, 0x06) <==> c.bypass) && (Selected(c, 0x07) <==> c.noViolation)
      && (Selected(c, 0x08) <==> c.longViolation)
  {
  }

  lemma SelectedIsOtherSetting(c: AutoRead)
    ensures
      && (Selected(c, 0x09) <==> c.armedSuppressed) && (Selected(c, 0x0A) <==> c.armedReally)
      && (Selected(c, 0x13) <==> c.partitionAlarm)
      && (Selected(c, 0x15) <==> c.partitionAlarmMemory) && (Selected(c, 0x0E) <==> c.entryTime)
      && (Selected(c, 0x0F) <==> c.exitTime)
      && (Selected(c, 0x17) <==> c.outputs) && (Selected(c, 0x1B) <==> c.troubles)
      && (Selected(c, 0x20) <==> c.troublesMemory)
  {
  }

  lemma SelectedDetermines(a: AutoRead, b: AutoRead)
    requires forall cmd: nat :: cmd < 96 ==> Selected(a, cmd) == Selected(b, cmd)
    ensures a == b
  {
    hide Selected;
    SelectedIsZoneSetting(a);
    SelectedIsZoneSetting(b);
    SelectedIsOtherSetting(a);
    SelectedIsOtherSetting(b);
  }

  const SILENT: seq<byte> := [0, 0, 0, 0, 0, 0, 0, 0, 0, 0, 0, 0]

  const ALL_OFF := AutoRead(false, false, false, false, false, false, false, false, false,
                            false, false, false, false, false, false, false, false, false)

  /** The mask is empty exactly when auto-read is off. */
  lemma SilentExactly(c: AutoRead)
    ensures BuildPushMask(c, false) == SILENT <==> !c.IsEnabled()
  {
    hide BuildPushMask, Selected;
    MaskOfNothing();
    if BuildPushMask(c, false) == SILENT {
      MaskDeterminesSettings(c, ALL_OFF, false);
    }
  }

  lemma MaskOfNothing()
    ensures BuildPushMask(ALL_OFF, false) == SILENT
  {
    assert Nibble(false, false, false, false) == 0;
  }
}
