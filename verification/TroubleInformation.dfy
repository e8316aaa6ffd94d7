/** How much of a trouble frame its items tell: exactly which bits of the data reach the application. */
module TroubleInformation {
  import opened Bytes
  import opened TroubleTables
  import opened TroubleCache

  /** The data bytes each trouble command needs. */
  function Needed(cmd: byte): Option<nat>
  {
    match cmd
    case 0x1B => Some(47)
    case 0x1C => Some(26)
    case 0x1D => Some(60)
    case 0x1E => Some(30)
    case 0x1F => Some(31)
    case 0x20 => Some(47)
    case 0x21 => Some(39)
    case 0x22 => Some(60)
    case 0x23 => Some(30)
    case 0x24 => Some(48)
    case 0x2C => Some(45)
    case 0x2D => Some(47)
    case 0x2E => Some(45)
    case 0x2F => Some(48)
    case 0x30 => Some(64)
    case 0x31 => Some(64)
    case _ => None
  }

  lemma AcceptsExactly(cmd: byte, data: seq<byte>)
    ensures Accepts(cmd, data) <==> Needed(cmd).Some? && Needed(cmd).value <= |data|
  {
  }

  /** Whether two values of byte `p` are told apart: all are, but for the four spare bits and the eleven
  unused bytes of command 22, and the module byte of commands 1E and 23, which only counts as zero or not. */
  predicate AlikeAt(cmd: byte, p: nat, x: byte, y: byte)
  {
    if cmd == 0x22 && (p == 1 || p == 3) then x % 64 == y % 64
    else if cmd == 0x22 && 4 <= p < 15 then true
    else if (cmd == 0x1E || cmd == 0x23) && p == 29 then x == 0 <==> y == 0
    else x == y
  }

  ghost predicate Alike(cmd: byte, a: seq<byte>, b: seq<byte>)
    requires Needed(cmd).Some? && Needed(cmd).value <= |a| && Needed(cmd).value <= |b|
  {
    forall p :: 0 <= p < Needed(cmd).value ==> AlikeAt(cmd, p, a[p], b[p])
  }

  // ---------- One rule ----------

  /** The first byte a rule looks at; `Reach` is just behind the last. */
  function First(rule: FieldRule): nat
  {
    match rule
    case Bitmask(offset, _, _, _, _) => offset
    case ModuleMask(offset, _, _) => offset
    case BitmaskLimit(offset, _, _, _, _, _) => offset
    case Custom(_, extractor) =>
      match extractor
      case SystemTroubles => 40
      case EthmPtsa => 46
      case AuxStm => 29
      case JamLevels => 0
      case JamLevelsHigh => 32
      case SimCodes => 35
      case GsmBlock => 0
  }

  /** All slots of a rule have the same values in both. */
  ghost predicate SameSlots(rule: FieldRule, a: seq<byte>, b: seq<byte>)
    requires Reach(rule) <= |a| && Reach(rule) <= |b|
  {
    forall i: nat :: i < SlotCount(rule) ==> SlotValue(rule, a, i) == SlotValue(rule, b, i)
  }

  lemma BytesTellSlots(rule: FieldRule, a: seq<byte>, b: seq<byte>)
    requires Reach(rule) <= |a| && Reach(rule) <= |b|
    requires forall p :: First(rule) <= p < Reach(rule) ==> a[p] == b[p]
    ensures SameSlots(rule, a, b)
  {
    hide Bit;
    forall i: nat | i < SlotCount(rule) ensures SlotValue(rule, a, i) == SlotValue(rule, b, i) {
      SlotNeedsItsBytes(rule, a, b, i);
    }
  }

  lemma SlotNeedsItsBytes(rule: FieldRule, a: seq<byte>, b: seq<byte>, i: nat)
    requires Reach(rule) <= |a| && Reach(rule) <= |b| && i < SlotCount(rule)
    requires forall p :: First(rule) <= p < Reach(rule) ==> a[p] == b[p]
    ensures SlotValue(rule, a, i) == SlotValue(rule, b, i)
  {
    if rule.Custom? {
      CustomNeedsItsBytes(rule, a, b, i);
    } else {
      hide Bit;
      assert (8 * First(rule) + i) / 8 == First(rule) + i / 8;
    }
  }

  lemma CustomNeedsItsBytes(rule: FieldRule, a: seq<byte>, b: seq<byte>, i: nat)
    requires rule.Custom?
    requires Reach(rule) <= |a| && Reach(rule) <= |b| && i < SlotCount(rule)
    requires forall p :: First(rule) <= p < Reach(rule) ==> a[p] == b[p]
    ensures SlotValue(rule, a, i) == SlotValue(rule, b, i)
  {
    hide Bit;
    if rule.extractor.GsmBlock? {
      GsmSlotBytes(i);
    }
  }

  /** Where the slots of the communication modules look. */
  lemma GsmSlotBytes(i: nat)
    requires i < 8 * GSM_SLOTS
    ensures var m, r := i / GSM_SLOTS, i % GSM_SLOTS;
      && m < 8 && (r < 32 ==> (64 * m + r) / 8 < 64)
      && (r >= 32 ==> 0 <= 8 * m + 2 * r - 60 && 8 * m + 2 * r - 59 < 64)
  {
  }

  /** Slot of bit `k` of byte `p`, in rules of single bits. */
  lemma BitRuleTells(rule: FieldRule, a: seq<byte>, b: seq<byte>, p: nat, k: nat)
    requires Reach(rule) <= |a| && Reach(rule) <= |b| && SameSlots(rule, a, b)
    requires rule.Bitmask? || rule.ModuleMask? || rule.BitmaskLimit?
    requires First(rule) <= p < Reach(rule) && k < 8 && 8 * (p - First(rule)) + k < SlotCount(rule)
    ensures Bit(a[p], k) == Bit(b[p], k)
  {
    hide Bit;
    var i := 8 * (p - First(rule)) + k;
    assert SlotValue(rule, a, i) == SlotValue(rule, b, i);
    assert (8 * First(rule) + i) / 8 == p && (8 * First(rule) + i) % 8 == k;
  }

  lemma SystemTells(rule: FieldRule, a: seq<byte>, b: seq<byte>, p: nat, k: nat)
    requires Reach(rule) <= |a| && Reach(rule) <= |b| && SameSlots(rule, a, b)
    requires rule.Custom? && (rule.extractor.SystemTroubles? || rule.extractor.EthmPtsa?)
    requires First(rule) <= p < Reach(rule) && k < 8
    requires rule.extractor.SystemTroubles? ==> p < 43
    ensures Bit(a[p], k) == Bit(b[p], k)
  {
    hide Bit;
    var i := 8 * (p - First(rule)) + k;
    assert SlotValue(rule, a, i) == SlotValue(rule, b, i);
    assert (8 * First(rule) + i) / 8 == p && (8 * First(rule) + i) % 8 == k;
  }

  lemma GsmTells(rule: FieldRule, a: seq<byte>, b: seq<byte>, m: nat, r: nat)
    requires rule.Custom? && rule.extractor.GsmBlock? && m < 8 && r < 8
    requires Reach(rule) <= |a| && Reach(rule) <= |b| && SameSlots(rule, a, b)
    ensures a[8 * m + r] == b[8 * m + r]
  {
    hide Bit;
    if r < 4 {
      var p := 8 * m + r;
      forall k | 0 <= k < 8 ensures Bit(a[p], k) == Bit(b[p], k) {
        var i := GSM_SLOTS * m + (8 * r + k);
        assert i / GSM_SLOTS == m && i % GSM_SLOTS == 8 * r + k;
        assert SlotValue(rule, a, i) == SlotValue(rule, b, i);
        assert (64 * m + (8 * r + k)) / 8 == p && (64 * m + (8 * r + k)) % 8 == k;
      }
      BitsTellByte(a[p], b[p]);
    } else {
      var c := if r < 6 then 32 else 33;
      var i := GSM_SLOTS * m + c;
      assert i / GSM_SLOTS == m && i % GSM_SLOTS == c;
      assert SlotValue(rule, a, i) == SlotValue(rule, b, i);
      var at := 8 * m + 2 * c - 60;
      CodeTells(a[at], a[at + 1], b[at], b[at + 1]);
    }
  }

  lemma CodeTells(h: byte, l: byte, x: byte, y: byte)
    requires BigEndian(h, l) == BigEndian(x, y)
    ensures h == x && l == y
  {
  }

  /** Rules that tell every bit of the bytes they look at. */
  predicate TellsAll(rule: FieldRule)
  {
    !rule.BitmaskLimit? && !(rule.Custom? && rule.extractor.AuxStm?)
  }

  lemma SlotsTellByte(rule: FieldRule, a: seq<byte>, b: seq<byte>, p: nat)
    requires Reach(rule) <= |a| && Reach(rule) <= |b| && SameSlots(rule, a, b)
    requires TellsAll(rule) && First(rule) <= p < Reach(rule)
    ensures a[p] == b[p]
  {
    hide Bit, SameSlots;
    if rule.Bitmask? || rule.ModuleMask? {
      forall k | 0 <= k < 8 ensures Bit(a[p], k) == Bit(b[p], k) {
        BitRuleTells(rule, a, b, p, k);
      }
      BitsTellByte(a[p], b[p]);
    } else if rule.extractor.SystemTroubles? || rule.extractor.EthmPtsa? {
      forall k | 0 <= k < 8 ensures Bit(a[p], k) == Bit(b[p], k) {
        SystemTells(rule, a, b, p, k);
      }
      BitsTellByte(a[p], b[p]);
    } else if rule.extractor.GsmBlock? {
      GsmTells(rule, a, b, p / 8, p % 8);
    } else {
      LevelTells(rule, a, b, p);
    }
  }

  lemma LevelTells(rule: FieldRule, a: seq<byte>, b: seq<byte>, p: nat)
    requires rule.Custom? && (rule.extractor.JamLevels? || rule.extractor.JamLevelsHigh? || rule.extractor.SimCodes?)
    requires Reach(rule) <= |a| && Reach(rule) <= |b| && SameSlots(rule, a, b)
    requires First(rule) <= p < Reach(rule)
    ensures a[p] == b[p]
  {
    hide Bit;
    if rule.extractor.SimCodes? {
      var i := (p - 35) / 2;
      assert SlotValue(rule, a, i) == SlotValue(rule, b, i);
      CodeTells(a[35 + 2 * i], a[36 + 2 * i], b[35 + 2 * i], b[36 + 2 * i]);
    } else {
      assert SlotValue(rule, a, p - First(rule)) == SlotValue(rule, b, p - First(rule));
    }
  }

  // ---------- Whole tables ----------

  /** All rules of the table have the same values in both. */
  ghost predicate SameValues(cmd: byte, a: seq<byte>, b: seq<byte>)
    requires Accepts(cmd, a) && Accepts(cmd, b)
  {
    forall j :: 0 <= j < |GetRules(cmd).value.rules| ==> SameSlots(GetRules(cmd).value.rules[j], a, b)
  }

  /** The rule looks at this byte and tells all its bits. */
  predicate Covers(rule: FieldRule, p: nat) { TellsAll(rule) && First(rule) <= p < Reach(rule) }

  lemma Part1Covered(m: bool, p: nat) returns (j: nat)
    requires p < 47
    ensures j < |Part1(m)| && Covers(Part1(m)[j], p)
  {
    j := if p < 16 then 0 else if p < 24 then 1 else if p < 32 then 2 else if p < 40 then 3
      else if p < 43 then 4 else if p < 44 then 5 else if p < 45 then 6 else if p < 46 then 7 else 8;
  }

  lemma Part2StateCovered(p: nat) returns (j: nat)
    requires p < 26
    ensures j < |Part2State()| && Covers(Part2State()[j], p)
  {
    j := if p < 8 then 0 else if p < 16 then 1 else if p < 24 then 2 else 3;
  }

  lemma Part2MemoryCovered(p: nat) returns (j: nat)
    requires p < 39
    ensures j < |Part2Memory()| && Covers(Part2Memory()[j], p)
  {
    j := if p < 8 then 0 else if p < 16 then 1 else if p < 24 then 2 else if p < 26 then 3 else if p < 27 then 4
      else if p < 35 then 5 else 6;
  }

  lemma Part3StateCovered(p: nat) returns (j: nat)
    requires p < 60
    ensures j < |Part3State()| && Covers(Part3State()[j], p)
  {
    j := if p < 15 then 0 else if p < 30 then 1 else if p < 45 then 2 else 3;
  }

  lemma Part3MemoryCovered(p: nat) returns (j: nat)
    requires 15 <= p < 60
    ensures j < |Part3Memory()| && Covers(Part3Memory()[j], p)
  {
    j := if p < 30 then 2 else if p < 45 then 3 else 4;
  }

  lemma Part4Covered(m: bool, p: nat) returns (j: nat)
    requires p < 29
    ensures j < |Part4(m)| && Covers(Part4(m)[j], p)
  {
    j := if p < 8 then 0 else if p < 16 then 1 else if p < 17 then 2 else if p < 18 then 3 else if p < 19 then 4
      else if p < 27 then 5 else if p < 28 then 6 else 7;
  }

  lemma Part5StateCovered(p: nat) returns (j: nat)
    requires p < 31
    ensures j < |Part5State()| && Covers(Part5State()[j], p)
  {
    j := if p < 1 then 0 else 1;
  }

  lemma Part6Covered(m: bool, p: nat) returns (j: nat)
    requires p < 45
    ensures j < |Part6(m)| && Covers(Part6(m)[j], p)
  {
    j := if p < 15 then 0 else if p < 30 then 1 else 2;
  }

  lemma Part7StateCovered(p: nat) returns (j: nat)
    requires p < 47
    ensures j < |Part7State()| && Covers(Part7State()[j], p)
  {
    j := if p < 16 then 0 else if p < 32 then 1 else 2;
  }

  lemma ZoneMemoryCovered(start: nat, p: nat) returns (j: nat)
    requires p < 48
    ensures j < |ZoneMemory(start)| && Covers(ZoneMemory(start)[j], p)
  {
    j := if p < 16 then 0 else if p < 32 then 1 else 2;
  }

  lemma Part8Covered(m: bool, p: nat) returns (j: nat)
    requires p < 64
    ensures j < |Part8(m)| && Covers(Part8(m)[j], p)
  {
    j := 0;
  }

  /** Some rule that tells every bit looks at each byte that has to be told apart altogether. */
  lemma EveryByteIsCovered(cmd: byte, p: nat) returns (j: nat)
    requires Needed(cmd).Some? && p < Needed(cmd).value
    requires !(cmd == 0x22 && p < 15) && !((cmd == 0x1E || cmd == 0x23) && p == 29)
    ensures GetRules(cmd).Some? && j < |GetRules(cmd).value.rules| && Covers(GetRules(cmd).value.rules[j], p)
  {
    hide Covers, Part1, Part2State, Part2Memory, Part3State, Part3Memory, Part4, Part5State, Part6, Part7State,
      Part8, ZoneMemory;
    match cmd
    case 0x1B => j := Part1Covered(false, p);
    case 0x20 => j := Part1Covered(true, p);
    case 0x1C => j := Part2StateCovered(p);
    case 0x21 => j := Part2MemoryCovered(p);
    case 0x1D => j := Part3StateCovered(p);
    case 0x22 => j := Part3MemoryCovered(p);
    case 0x1E => j := Part4Covered(false, p);
    case 0x23 => j := Part4Covered(true, p);
    case 0x1F => j := Part5StateCovered(p);
    case 0x24 => j := ZoneMemoryCovered(1, p);
    case 0x2C => j := Part6Covered(false, p);
    case 0x2E => j := Part6Covered(true, p);
    case 0x2D => j := Part7StateCovered(p);
    case 0x2F => j := ZoneMemoryCovered(129, p);
    case 0x30 => j := Part8Covered(false, p);
    case _ => j := Part8Covered(true, p);
  }

  lemma ValuesTellByte(cmd: byte, a: seq<byte>, b: seq<byte>, p: nat)
    requires Needed(cmd).Some? && p < Needed(cmd).value && Accepts(cmd, a) && Accepts(cmd, b) && SameValues(cmd, a, b)
    ensures p < |a| && p < |b| && AlikeAt(cmd, p, a[p], b[p])
  {
    hide Bit, SameSlots, GetRules, TellsAll, First, Reach;
    AcceptsExactly(cmd, a);
    AcceptsExactly(cmd, b);
    if (cmd == 0x1E || cmd == 0x23) && p == 29 {
      AuxTells(cmd, a, b);
    } else if cmd == 0x22 && p < 4 {
      JammedTells(a, b, p);
    } else if cmd == 0x22 && p < 15 {
    } else {
      var j := EveryByteIsCovered(cmd, p);
      SlotsTellByte(GetRules(cmd).value.rules[j], a, b, p);
    }
  }

  lemma AuxTells(cmd: byte, a: seq<byte>, b: seq<byte>)
    requires cmd == 0x1E || cmd == 0x23
    requires Accepts(cmd, a) && Accepts(cmd, b) && SameValues(cmd, a, b)
    ensures a[29] == 0 <==> b[29] == 0
  {
    hide Bit;
    var rule := GetRules(cmd).value.rules[8];
    assert SameSlots(rule, a, b);
    assert SlotValue(rule, a, 0) == SlotValue(rule, b, 0);
  }

  lemma JammedTells(a: seq<byte>, b: seq<byte>, p: nat)
    requires Accepts(0x22, a) && Accepts(0x22, b) && SameValues(0x22, a, b) && p < 4
    ensures AlikeAt(0x22, p, a[p], b[p])
  {
    hide Bit, SlotValue;
    var rule := GetRules(0x22).value.rules[if p < 2 then 0 else 1];
    assert SameSlots(rule, a, b);
    var n := if p == 1 || p == 3 then 6 else 8;
    forall k | 0 <= k < n ensures Bit(a[p], k) == Bit(b[p], k) {
      BitRuleTells(rule, a, b, p, k);
    }
    if n == 6 {
      LowBitsTell(a[p], b[p]);
    } else {
      BitsTellByte(a[p], b[p]);
    }
  }

  lemma AlikeValues(cmd: byte, a: seq<byte>, b: seq<byte>, j: nat)
    requires Needed(cmd).Some? && Accepts(cmd, a) && Accepts(cmd, b) && j < |GetRules(cmd).value.rules|
    requires Needed(cmd).value <= |a| && Needed(cmd).value <= |b| && Alike(cmd, a, b)
    ensures SameSlots(GetRules(cmd).value.rules[j], a, b)
  {
    hide Bit, SlotValue, SameSlots;
    var rule := GetRules(cmd).value.rules[j];
    if cmd == 0x22 && j < 2 {
      JammedSame(a, b, j);
    } else if (cmd == 0x1E || cmd == 0x23) && j == 8 {
      AuxSame(cmd, a, b);
    } else {
      forall p | First(rule) <= p < Reach(rule) ensures a[p] == b[p] {
        OrdinaryBytes(cmd, j, p);
        assert AlikeAt(cmd, p, a[p], b[p]);
      }
      BytesTellSlots(rule, a, b);
    }
  }

  /** Outside the exceptions a rule looks at bytes that count in full. */
  lemma OrdinaryBytes(cmd: byte, j: nat, p: nat)
    requires Needed(cmd).Some? && GetRules(cmd).Some? && j < |GetRules(cmd).value.rules|
    requires First(GetRules(cmd).value.rules[j]) <= p < Reach(GetRules(cmd).value.rules[j])
    requires !(cmd == 0x22 && j < 2) && !((cmd == 0x1E || cmd == 0x23) && j == 8)
    ensures p < Needed(cmd).value && !(cmd == 0x22 && p < 15) && !((cmd == 0x1E || cmd == 0x23) && p == 29)
  {
  }

  lemma AuxSame(cmd: byte, a: seq<byte>, b: seq<byte>)
    requires cmd == 0x1E || cmd == 0x23
    requires Accepts(cmd, a) && Accepts(cmd, b) && Alike(cmd, a, b)
    ensures SameSlots(GetRules(cmd).value.rules[8], a, b)
  {
    hide Bit;
    assert AlikeAt(cmd, 29, a[29], b[29]);
  }

  lemma JammedSame(a: seq<byte>, b: seq<byte>, j: nat)
    requires Accepts(0x22, a) && Accepts(0x22, b) && Alike(0x22, a, b) && j < 2
    ensures SameSlots(GetRules(0x22).value.rules[j], a, b)
  {
    hide Bit;
    var rule := GetRules(0x22).value.rules[j];
    forall i: nat | i < SlotCount(rule) ensures SlotValue(rule, a, i) == SlotValue(rule, b, i) {
      var p := 2 * j + i / 8;
      assert (8 * (2 * j) + i) / 8 == p && (8 * (2 * j) + i) % 8 == i % 8;
      assert AlikeAt(0x22, p, a[p], b[p]);
      if p % 2 == 1 {
        LowBitsTell(a[p], b[p]);
      }
    }
  }

  // ---------- Items and values ----------

  lemma {:induction false} SameValuesSameItems(cmd: byte, a: seq<byte>, b: seq<byte>, j: nat, n: nat)
    requires Accepts(cmd, a) && Accepts(cmd, b) && SameValues(cmd, a, b)
    requires var rules := GetRules(cmd).value.rules; j <= |rules| && (n > 0 ==> j < |rules| && n <= SlotCount(rules[j]))
    ensures ItemsUpTo(GetRules(cmd).value.rules, a, j, n) == ItemsUpTo(GetRules(cmd).value.rules, b, j, n)
    decreases j, n
  {
    hide GetRules, SlotKey, SlotValue, SlotCount, Reach;
    var rules := GetRules(cmd).value.rules;
    if n > 0 {
      assert SameSlots(rules[j], a, b);
      SameValuesSameItems(cmd, a, b, j, n - 1);
    } else if j > 0 {
      SameValuesSameItems(cmd, a, b, j - 1, SlotCount(rules[j - 1]));
    }
  }

  lemma SameItemsSameSlot(cmd: byte, a: seq<byte>, b: seq<byte>, j: nat, i: nat)
    requires Accepts(cmd, a) && Accepts(cmd, b) && DecodeTroubles(cmd, a) == DecodeTroubles(cmd, b)
    requires j < |GetRules(cmd).value.rules| && i < SlotCount(GetRules(cmd).value.rules[j])
    ensures SlotValue(GetRules(cmd).value.rules[j], a, i) == SlotValue(GetRules(cmd).value.rules[j], b, i)
  {
    hide GetRules, SlotKey, SlotValue, SlotCount, Home, ItemsUpTo;
    var rule := GetRules(cmd).value.rules[j];
    var k := SlotKey(rule, i);
    SlotAtHome(cmd, j, i);
    FrameEntries(cmd, a, k);
    FrameEntries(cmd, b, k);
    if k.IsGeneric() {
      GenericIsFlag(rule, a, i);
      GenericIsFlag(rule, b, i);
    }
  }

  lemma GenericIsFlag(rule: FieldRule, data: seq<byte>, i: nat)
    requires Reach(rule) <= |data| && i < SlotCount(rule) && SlotKey(rule, i).IsGeneric()
    ensures SlotValue(rule, data, i).Active?
  {
    hide Bit;
  }

  /** Main result, for all frames of all sixteen commands: two frames give the same items if and only if
  their data agree in every needed bit, apart from the four spare bits and eleven unused bytes of command
  22, and the byte of commands 1E and 23 that only counts as zero or not. Nothing else is lost. */
  lemma SameItemsExactly(cmd: byte, a: seq<byte>, b: seq<byte>)
    requires Needed(cmd).Some? && Needed(cmd).value <= |a| && Needed(cmd).value <= |b|
    ensures DecodeTroubles(cmd, a) == DecodeTroubles(cmd, b) <==> Alike(cmd, a, b)
  {
    hide GetRules, SlotKey, SlotValue, SlotCount, Reach, AlikeAt, Needed;
    AcceptsExactly(cmd, a);
    AcceptsExactly(cmd, b);
    var rules := GetRules(cmd).value.rules;
    if DecodeTroubles(cmd, a) == DecodeTroubles(cmd, b) {
      forall j | 0 <= j < |rules| ensures SameSlots(rules[j], a, b) {
        forall i: nat | i < SlotCount(rules[j]) ensures SlotValue(rules[j], a, i) == SlotValue(rules[j], b, i) {
          SameItemsSameSlot(cmd, a, b, j, i);
        }
      }
      forall p | 0 <= p < Needed(cmd).value ensures AlikeAt(cmd, p, a[p], b[p]) {
        ValuesTellByte(cmd, a, b, p);
      }
    }
    if Alike(cmd, a, b) {
      forall j | 0 <= j < |rules| ensures SameSlots(rules[j], a, b) {
        AlikeValues(cmd, a, b, j);
      }
      SameValuesSameItems(cmd, a, b, |rules|, 0);
    }
  }
}
