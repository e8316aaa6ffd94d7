/** The other direction of the agreement: a typed field stands for an item of its own frame. Both
directions together make the typed record and the table-driven entries of a frame the same. */
module TroubleAgreement {
  import opened Bytes
  import opened TroubleTables
  import opened TroubleCache
  import opened TroubleParts

  /** The rules of a table produce the key, at its home. */
  predicate HomeIn(k: Key, cmd: byte, rules: seq<FieldRule>)
  {
    var home := Home(k);
    && home.cmd == cmd
    && home.rule < |rules|
    && 0 <= home.slot < SlotCount(rules[home.rule])
    && SlotKey(rules[home.rule], home.slot) == k
  }

  /** The table-driven decoder reads 14 of the 16 memory bits of each bus in command 0x22. */
  predicate IsSpare(k: Key)
  {
    k.Flag? && k.trouble.Numbered? && k.trouble.kind == ExpanderAcuJammedOrShortCircuit && k.trouble.n > 30
  }

  lemma Part2Fields(d: seq<byte>, k: Key)
    requires 26 <= |d| && FieldOf(ProcessPart2(d).value, k).Some?
    ensures HomeIn(k, 0x1C, Part2State())
  {
    hide BitAt, Bit, HomeOfGsm, GsmBit, FieldOfPart1, FieldOfPart4, OfWireless, OfGsm, ModuleOf, AtLevel,
      BigEndian, ReadModules, ReadMainBoard, ReadEthmPtsa;
  }

  lemma MemoryPart2Fields(d: seq<byte>, k: Key)
    requires 39 <= |d| && FieldOf(ProcessMemoryPart2(d).value, k).Some?
    ensures HomeIn(k, 0x21, Part2Memory())
  {
    hide BitAt, Bit, HomeOfGsm, GsmBit, FieldOfPart1, FieldOfPart4, OfWireless, OfGsm, ModuleOf, AtLevel,
      ReadModules, ReadMainBoard, ReadEthmPtsa;
  }

  lemma Part3Fields(d: seq<byte>, k: Key)
    requires 60 <= |d| && FieldOf(ProcessPart3(d).value, k).Some?
    ensures HomeIn(k, 0x1D, Part3State())
  {
    hide BitAt, Bit, HomeOfGsm, GsmBit, FieldOfPart1, FieldOfPart4, OfGsm, ModuleOf, BigEndian, ReadModules,
      ReadMainBoard, ReadEthmPtsa;
  }

  lemma MemoryPart3Fields(d: seq<byte>, k: Key)
    requires 60 <= |d| && FieldOf(ProcessMemoryPart3(d).value, k).Some? && !IsSpare(k)
    ensures HomeIn(k, 0x22, Part3Memory())
  {
    hide HomeIn, Part3Memory, FieldOf;
    if k.Flag? && k.trouble.Numbered? && k.trouble.kind.ExpanderAcuJammedOrShortCircuit? {
      JammedFields(d, k);
    } else {
      WirelessMemoryFields(d, k);
    }
  }

  lemma JammedFields(d: seq<byte>, k: Key)
    requires 60 <= |d| && FieldOf(ProcessMemoryPart3(d).value, k).Some? && !IsSpare(k)
    requires k.Flag? && k.trouble.Numbered? && k.trouble.kind.ExpanderAcuJammedOrShortCircuit?
    ensures HomeIn(k, 0x22, Part3Memory())
  {
    hide BitAt, Bit, HomeOfGsm, GsmBit, FieldOfPart1, FieldOfPart4, OfGsm, ModuleOf, AtLevel, BigEndian, OfWireless,
      ReadModules, ReadMainBoard, ReadEthmPtsa;
  }

  lemma WirelessMemoryFields(d: seq<byte>, k: Key)
    requires 60 <= |d| && FieldOf(ProcessMemoryPart3(d).value, k).Some?
    requires !(k.Flag? && k.trouble.Numbered? && k.trouble.kind.ExpanderAcuJammedOrShortCircuit?)
    ensures HomeIn(k, 0x22, Part3Memory())
  {
    hide BitAt, Bit, HomeOfGsm, GsmBit, FieldOfPart1, FieldOfPart4, OfGsm, ModuleOf, AtLevel, BigEndian,
      ReadModules, ReadMainBoard, ReadEthmPtsa;
  }

  predicate OfExpander(k: Key)
  {
    && k.Flag? && k.trouble.Numbered?
    && (k.trouble.kind.ExpanderNoComm? || k.trouble.kind.ExpanderSubstituted? || k.trouble.kind.ExpanderTamper?)
  }

  lemma Part4ExpanderFields(m: bool, d: seq<byte>, k: Key)
    requires 30 <= |d| && FieldOf(ProcessPart4(d, m).value, k).Some?
    requires OfExpander(k)
    ensures HomeIn(k, if m then 0x23 else 0x1E, Part4(m))
  {
    hide BitAt, Bit, HomeOfGsm, GsmBit, FieldOfPart1, OfWireless, OfGsm, ModuleOf, AtLevel, BigEndian,
      ReadModules, ReadMainBoard, ReadEthmPtsa;
  }

  lemma Part4OtherFields(m: bool, d: seq<byte>, k: Key)
    requires 30 <= |d| && FieldOf(ProcessPart4(d, m).value, k).Some?
    requires !OfExpander(k)
    ensures HomeIn(k, if m then 0x23 else 0x1E, Part4(m))
  {
    hide BitAt, Bit, HomeOfGsm, GsmBit, FieldOfPart1, OfWireless, OfGsm, ModuleOf, AtLevel, BigEndian,
      ReadModules, ReadMainBoard, ReadEthmPtsa;
  }

  lemma Part4Fields(m: bool, d: seq<byte>, k: Key)
    requires 30 <= |d| && FieldOf(ProcessPart4(d, m).value, k).Some?
    ensures HomeIn(k, if m then 0x23 else 0x1E, Part4(m))
  {
    hide FieldOf, HomeIn;
    if OfExpander(k) {
      Part4ExpanderFields(m, d, k);
    } else {
      Part4OtherFields(m, d, k);
    }
  }

  lemma Part5Fields(d: seq<byte>, k: Key)
    requires 31 <= |d| && FieldOf(ProcessPart5(d).value, k).Some?
    ensures HomeIn(k, 0x1F, Part5State())
  {
    hide BitAt, Bit, HomeOfGsm, GsmBit, FieldOfPart1, FieldOfPart4, OfWireless, OfGsm, ModuleOf, AtLevel,
      BigEndian, ReadModules, ReadMainBoard, ReadEthmPtsa;
  }

  lemma Part6Fields(m: bool, d: seq<byte>, k: Key)
    requires 45 <= |d| && FieldOf(ProcessPart6(d, m).value, k).Some?
    ensures HomeIn(k, if m then 0x2E else 0x2C, Part6(m))
  {
    hide BitAt, Bit, HomeOfGsm, GsmBit, FieldOfPart1, FieldOfPart4, OfGsm, ModuleOf, AtLevel, BigEndian,
      ReadModules, ReadMainBoard, ReadEthmPtsa;
  }

  lemma Part7Fields(d: seq<byte>, k: Key)
    requires 47 <= |d| && FieldOf(ProcessPart7(d).value, k).Some?
    ensures HomeIn(k, 0x2D, Part7State())
  {
    hide BitAt, Bit, HomeOfGsm, GsmBit, FieldOfPart1, FieldOfPart4, OfWireless, OfGsm, ModuleOf, BigEndian,
      ReadModules, ReadMainBoard, ReadEthmPtsa;
  }

  lemma ZoneMemoryFields(upper: bool, d: seq<byte>, k: Key)
    requires 48 <= |d| && FieldOf(ProcessZoneMemory(d, upper).value, k).Some?
    ensures HomeIn(k, if upper then 0x2F else 0x24, ZoneMemory(if upper then 129 else 1))
  {
    hide BitAt, Bit, HomeOfGsm, GsmBit, FieldOfPart1, FieldOfPart4, OfWireless, OfGsm, ModuleOf, AtLevel,
      BigEndian, ReadModules, ReadMainBoard, ReadEthmPtsa;
  }

  lemma MainBoardFields(m: bool, b: MainBoard, trouble: Trouble)
    requires OfMainBoard(b, trouble).Some?
    ensures HomeIn(Flag(trouble, m), if m then 0x20 else 0x1B, Part1(m))
  {
    hide HomeIn, Part1;
    if trouble.Plain? {
      MainBoardPlain(m, b, trouble.kind);
    } else {
      OverloadFields(m, b, trouble);
    }
  }

  lemma MainBoardPlain(m: bool, b: MainBoard, kind: Kind)
    requires OfMainBoard(b, Plain(kind)).Some?
    ensures HomeIn(Flag(Plain(kind), m), if m then 0x20 else 0x1B, Part1(m))
  {
    hide OfMainBoard, HomeOfPlain, HomeOfNumbered, HomeOfGsm;
    SystemSlotOf(b, kind, m);
    SystemSlots(m, HomeOfPlain(kind, m).slot);
  }

  /** The kind stands in the list of system troubles, at its home. */
  lemma SystemSlotOf(b: MainBoard, kind: Kind, m: bool)
    requires OfMainBoard(b, Plain(kind)).Some?
    ensures var home := HomeOfPlain(kind, m);
      && home.cmd == (if m then 0x20 else 0x1B) && home.rule == 4 && 4 <= home.slot < 24
      && SYSTEM[home.slot] == Plain(kind)
  {
    hide HomeOfPlain, OfMainBoard;
    SystemPlace(b, kind, m);
    SystemEntry(kind, m);
  }

  lemma SystemPlace(b: MainBoard, kind: Kind, m: bool)
    requires OfMainBoard(b, Plain(kind)).Some?
    ensures var home := HomeOfPlain(kind, m);
      home.cmd == (if m then 0x20 else 0x1B) && home.rule == 4 && 4 <= home.slot < 24
  {
  }

  lemma SystemEntry(kind: Kind, m: bool)
    requires HomeOfPlain(kind, m).rule == 4 && 4 <= HomeOfPlain(kind, m).slot < 24
    ensures SYSTEM[HomeOfPlain(kind, m).slot] == Plain(kind)
  {
  }

  lemma SystemSlots(m: bool, i: nat)
    requires i < 24
    ensures i < SlotCount(Part1(m)[4]) && SlotKey(Part1(m)[4], i) == Flag(SYSTEM[i], m)
  {
  }

  lemma OverloadFields(m: bool, b: MainBoard, trouble: Trouble)
    requires !trouble.Plain? && OfMainBoard(b, trouble).Some?
    ensures HomeIn(Flag(trouble, m), if m then 0x20 else 0x1B, Part1(m))
  {
    hide Bit, BitAt, BigEndian, HomeOfPlain, HomeOfGsm;
  }

  lemma PtsaFields(m: bool, p: EthmPtsaPart, kind: Kind)
    requires OfEthmPtsa(p, kind).Some?
    ensures HomeIn(Flag(Plain(kind), m), if m then 0x20 else 0x1B, Part1(m))
  {
    hide Bit, BitAt, BigEndian;
  }

  lemma Part1Fields(m: bool, d: seq<byte>, k: Key)
    requires 47 <= |d| && FieldOf(ProcessPart1(d, m).value, k).Some?
    ensures HomeIn(k, if m then 0x20 else 0x1B, Part1(m))
  {
    hide OfMainBoard, OfEthmPtsa, ReadMainBoard, ReadEthmPtsa, HomeIn, Part1;
    var p := ProcessPart1(d, m).value;
    if OfMainBoard(p.mainBoard, k.trouble).Some? {
      MainBoardFields(m, p.mainBoard, k.trouble);
    } else if k.trouble.Plain? {
      PtsaFields(m, p.ethmPtsa, k.trouble.kind);
    } else {
      Part1NumberedFields(m, d, k);
    }
  }

  lemma Part1NumberedFields(m: bool, d: seq<byte>, k: Key)
    requires 47 <= |d| && FieldOf(ProcessPart1(d, m).value, k).Some?
    requires !k.trouble.Plain? && OfMainBoard(ProcessPart1(d, m).value.mainBoard, k.trouble).None?
    ensures HomeIn(k, if m then 0x20 else 0x1B, Part1(m))
  {
    hide OfMainBoard, OfEthmPtsa, ReadMainBoard, ReadEthmPtsa, HomeOfPlain, HomeOfGsm, Bit, BitAt, BigEndian;
  }

  lemma GsmKindHome(kind: Kind, n: nat, mem: bool)
    requires GsmKind(kind)
    ensures HomeOfNumbered(kind, n, mem) == HomeOfGsm(GsmBit(kind, 0), n, mem)
  {
    hide HomeOfGsm, GsmBit;
  }

  lemma SimKindIsGsm(kind: Kind)
    ensures SimKind(kind) ==> GsmKind(kind)
  {
  }

  lemma GsmTroubleOf(kind: Kind, m: nat, sim: nat)
    requires GsmKind(kind) && (SimKind(kind) ==> IsSim(sim))
    ensures GsmBit(kind, sim) < 25
    ensures GsmTrouble(m, GsmBit(kind, sim)) == if SimKind(kind) then OnSim(kind, m, sim) else Numbered(kind, m)
  {
    hide Bit, BitAt, BigEndian;
  }

  lemma GsmFields(mem: bool, g: GsmPart, trouble: Trouble)
    requires OfGsm(g, trouble).Some? && ModuleOf(trouble) < 8
    ensures HomeIn(Flag(trouble, mem), if mem then 0x31 else 0x30, Part8(mem))
  {
    hide GsmTrouble, GsmBit, GsmKind, SimKind, HomeOfNumbered, NamedFlag;
    var m := ModuleOf(trouble);
    var sim := if trouble.OnSim? then trouble.sim else 0;
    SimKindIsGsm(trouble.kind);
    GsmTroubleOf(trouble.kind, m, sim);
    GsmKindHome(trouble.kind, m, mem);
    var bit := GsmBit(trouble.kind, sim);
    assert (GSM_SLOTS * m + bit) / GSM_SLOTS == m && (GSM_SLOTS * m + bit) % GSM_SLOTS == bit;
  }

  lemma Part8Fields(mem: bool, d: seq<byte>, k: Key)
    requires 64 <= |d| && FieldOf(ProcessPart8(d, mem).value, k).Some?
    ensures HomeIn(k, if mem then 0x31 else 0x30, Part8(mem))
  {
    hide OfGsm, ModuleOf, ReadGsm, HomeOfNumbered, HomeOfPlain, GsmBit, GsmTrouble;
    var p := ProcessPart8(d, mem).value;
    match k
    case Flag(trouble, _) => GsmFields(mem, p.modules[ModuleOf(trouble)], trouble);
    case CmeCode(GsmModule(m), sim, _) =>
      assert (GSM_SLOTS * m + 31 + sim) / GSM_SLOTS == m && (GSM_SLOTS * m + 31 + sim) % GSM_SLOTS == 31 + sim;
    case _ =>
  }

  lemma FieldHasHome(cmd: byte, d: seq<byte>, k: Key)
    requires Accepts(cmd, d) && !IsSpare(k)
    requires ProcessTroublesFrame([cmd] + d).Some? && FieldOf(ProcessTroublesFrame([cmd] + d).value, k).Some?
    ensures HomeIn(k, cmd, GetRules(cmd).value.rules)
  {
    hide FieldOf, HomeIn, IsSpare, Part1, Part2State, Part2Memory, Part3State, Part3Memory,
      Part4, Part5State, Part6, Part7State, ZoneMemory, Part8,
      ProcessPart1, ProcessPart2, ProcessMemoryPart2, ProcessPart3, ProcessMemoryPart3,
      ProcessPart4, ProcessPart5, ProcessPart6, ProcessPart7, ProcessZoneMemory, ProcessPart8;
    assert ([cmd] + d)[1..] == d;
    match cmd
    case 0x1B => Part1Fields(false, d, k);
    case 0x20 => Part1Fields(true, d, k);
    case 0x1C => Part2Fields(d, k);
    case 0x21 => MemoryPart2Fields(d, k);
    case 0x1D => Part3Fields(d, k);
    case 0x22 => MemoryPart3Fields(d, k);
    case 0x1E => Part4Fields(false, d, k);
    case 0x23 => Part4Fields(true, d, k);
    case 0x1F => Part5Fields(d, k);
    case 0x24 => ZoneMemoryFields(false, d, k);
    case 0x2C => Part6Fields(false, d, k);
    case 0x2E => Part6Fields(true, d, k);
    case 0x2D => Part7Fields(d, k);
    case 0x2F => ZoneMemoryFields(true, d, k);
    case 0x30 => Part8Fields(false, d, k);
    case 0x31 => Part8Fields(true, d, k);
    case _ =>
  }

  /** Every typed field but the spare bits stands for an item of its own frame. */
  lemma FieldHasItem(cmd: byte, d: seq<byte>, k: Key)
    requires Accepts(cmd, d) && !IsSpare(k)
    requires ProcessTroublesFrame([cmd] + d).Some? && FieldOf(ProcessTroublesFrame([cmd] + d).value, k).Some?
    ensures IsProduced(k) && Home(k).cmd == cmd
  {
    hide FieldOf, Home, SlotKey, SlotCount, IsSpare, ProcessTroublesFrame;
    FieldHasHome(cmd, d, k);
  }

  /** Main result: for every frame both decoders accept, a key has the same value in both of them
  or no value in either. Out of the comparison are only the keys without a field of their own and
  the spare bits. */
  lemma DecodersAgreeExactly(cmd: byte, d: seq<byte>, k: Key)
    requires Accepts(cmd, d) && HasField(k) && !IsSpare(k)
    ensures ProcessTroublesFrame([cmd] + d).Some?
    ensures FieldOf(ProcessTroublesFrame([cmd] + d).value, k) == Entry(cmd, d, k)
  {
    hide FieldOf, Home, SlotKey, SlotCount, SlotValue, GetRules, ProcessTroublesFrame;
    SameFramesAccepted([cmd] + d);
    assert ([cmd] + d)[1..] == d;
    if FieldOf(ProcessTroublesFrame([cmd] + d).value, k).Some? {
      FieldHasItem(cmd, d, k);
    }
    if IsProduced(k) && Home(k).cmd == cmd {
      DecodersAgree(cmd, d, Home(k).rule, Home(k).slot);
    }
  }

  /** The four spare bits are real: the typed decoder reads them and no table produces their keys. */
  lemma SpareBitsHaveNoItem(d: seq<byte>, n: nat, mem: bool)
    requires 60 <= |d| && 31 <= n <= 32
    ensures var k := Flag(Numbered(ExpanderAcuJammedOrShortCircuit, n), mem);
      FieldOf(ProcessMemoryPart3(d).value, k).Some? && !IsProduced(k)
  {
    hide IsProduced, Bit;
    SpareIsNotProduced(n, mem);
  }

  lemma SpareIsNotProduced(n: nat, mem: bool)
    requires 31 <= n <= 32
    ensures !IsProduced(Flag(Numbered(ExpanderAcuJammedOrShortCircuit, n), mem))
  {
    hide BitAt, BigEndian, SlotValue, HomeOfGsm, HomeOfPlain, Part1, Part2State, Part2Memory, Part3State, Part4,
      Part5State, Part6, Part7State, Part8, ZoneMemory;
    assert Home(Flag(Numbered(ExpanderAcuJammedOrShortCircuit, n), mem)) == Origin(0x22, if mem then 1 else 0, n - 17);
  }
}
