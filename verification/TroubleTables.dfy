/** The tables by which trouble frames are decoded: for each command the length it needs and the
rules that turn stretches of its data into trouble items. */
module TroubleTables {
  import opened Bytes

  // ---------- Troubles, cache keys and values ----------

  datatype Kind =
    // main board
    | MainBoardAcLoss | MainBoardBatteryLow | MainBoardBatteryMissing | MainBoardOutOverload
    | MainBoardKpdPowerOverload | MainBoardExPowerOverload | MainBoardDataBusDt1
    | MainBoardDataBusDt2 | MainBoardDataBusDtm | RtcLoss | NoDtrSignal
    | ExternalModemInitTrouble | ExternalModemCmdTrouble | TelephoneLineNoVoltage
    | TelephoneLineBadSignal | TelephoneLineNoSignal | MonitoringStation1Trouble
    | MonitoringStation2Trouble | EepromRtcTrouble | RamMemoryError | MainPanelRestartMemory
    // zones, expanders, keypads
    | TechnicalZoneTrouble | ExpanderAcLoss | ExpanderBatteryLow | ExpanderBatteryMissing
    | ExpanderSupplyOverload | ExpanderNoComm | ExpanderSubstituted | ExpanderTamper
    | ExpanderCardReaderHeadA | ExpanderCardReaderHeadB | ExpanderAcuJammedOrShortCircuit
    | ExpanderRestart | KeypadNoComm | KeypadSubstituted | KeypadTamper | KeypadInitError
    | KeypadRestart
    // communication modules
    | EthmNoLanCable | EthmPingTrouble | EthmServerIdError | EthmSatelServerConnectionError
    | EthmMonitoringStation1Error | EthmMonitoringStation2Error | GprsMonitoringStation1Error
    | GprsMonitoringStation2Error | IpMonitoringStation1Trouble | IpMonitoringStation2Trouble
    | TimeServerTrouble | GsmInitError
    | GsmEthmStation1Error | GsmEthmStation2Error | GsmGprsSim1Station1Error
    | GsmGprsSim1Station2Error | GsmGprsSim2Station1Error | GsmGprsSim2Station2Error
    | GsmSmsSim1Station1Error | GsmSmsSim1Station2Error | GsmSmsSim2Station1Error
    | GsmSmsSim2Station2Error | GsmSimPinError | GsmSimLoggingError | GsmSimCreditLow
    | GsmSimSmsError | GsmJamming | GsmSettingsCrcError | GsmModuleMissing | GsmModuleChanged
    | GsmServerConnError | GsmMailServerConnError | GsmNtpServerConnError
    // wireless devices, key fobs, zone memory, other
    | WirelessDeviceLowBattery | WirelessDeviceNoComm | WirelessOutputNoComm
    | MasterKeyFobLowBattery | UserKeyFobLowBattery
    | ZoneLongViolationTrouble | ZoneNoViolationTrouble | ZoneTamperTrouble
    | AuxiliaryStmTroubles

  /** A trouble of a kind, with the number of the item concerned or with module and SIM numbers;
  or a reserved bit of a communication module. */
  datatype Trouble =
    | Plain(kind: Kind)
    | Numbered(kind: Kind, n: nat)
    | OnSim(kind: Kind, m: nat, sim: nat)
    | GenericTrouble(part: nat, bit: nat)

  datatype CmeSource = Panel | GsmModule(m: nat)

  /** The keys of the three cache maps, and their values. */
  datatype Key =
    | Flag(trouble: Trouble, memory: bool)
    | JamLevel(jammed: nat)
    | CmeCode(source: CmeSource, sim: nat, memory: bool)
  {
    predicate IsGeneric() { Flag? && trouble.GenericTrouble? }
  }

  datatype Value = Active(active: bool) | Level(level: byte) | Code(code: word)

  datatype Item = Item(key: Key, value: Value)

  // ---------- Rules ----------

  datatype Extractor = SystemTroubles | EthmPtsa | AuxStm | JamLevels | JamLevelsHigh | SimCodes | GsmBlock

  datatype FieldRule =
    | Bitmask(offset: nat, length: nat, startNum: nat, memory: bool, kind: Kind)
    | ModuleMask(offset: nat, memory: bool, kind: Kind)
    | BitmaskLimit(offset: nat, length: nat, limit: nat, startNum: nat, memory: bool, kind: Kind)
    | Custom(memory: bool, extractor: Extractor)

  datatype Table = Table(expectedLen: nat, rules: seq<FieldRule>)

  /** The bytes a rule looks at lie before this offset. */
  function Reach(rule: FieldRule): nat
  {
    match rule
    case Bitmask(offset, length, _, _, _) => offset + length
    case ModuleMask(offset, _, _) => offset + 1
    case BitmaskLimit(offset, length, _, _, _, _) => offset + length
    case Custom(_, extractor) =>
      match extractor
      case SystemTroubles => 43
      case EthmPtsa => 47
      case AuxStm => 30
      case JamLevels => 15
      case JamLevelsHigh => 47
      case SimCodes => 39
      case GsmBlock => 64
  }

  /** No rule looks beyond the first `len` bytes. */
  predicate Inside(rules: seq<FieldRule>, len: nat)
  {
    forall j :: 0 <= j < |rules| ==> Reach(rules[j]) <= len
  }

  function Part1(m: bool): (rules: seq<FieldRule>)
    ensures Inside(rules, 47)
  {
    [Bitmask(0, 16, 1, m, TechnicalZoneTrouble),
     Bitmask(16, 8, 1, m, ExpanderAcLoss),
     Bitmask(24, 8, 1, m, ExpanderBatteryLow),
     Bitmask(32, 8, 1, m, ExpanderBatteryMissing),
     Custom(m, SystemTroubles),
     ModuleMask(43, m, EthmPingTrouble),
     ModuleMask(44, m, EthmServerIdError),
     ModuleMask(45, m, EthmSatelServerConnectionError),
     Custom(m, EthmPtsa)]
  }

  function Part2State(): (rules: seq<FieldRule>)
    ensures Inside(rules, 26)
  {
    [Bitmask(0, 8, 1, false, ExpanderCardReaderHeadA),
     Bitmask(8, 8, 1, false, ExpanderCardReaderHeadB),
     Bitmask(16, 8, 1, false, ExpanderSupplyOverload),
     Bitmask(24, 2, 1, false, ExpanderAcuJammedOrShortCircuit)]
  }

  function Part2Memory(): (rules: seq<FieldRule>)
    ensures Inside(rules, 39)
  {
    [Bitmask(0, 8, 1, true, ExpanderCardReaderHeadA),
     Bitmask(8, 8, 1, true, ExpanderCardReaderHeadB),
     Bitmask(16, 8, 1, true, ExpanderSupplyOverload),
     Bitmask(24, 2, 1, true, ExpanderAcuJammedOrShortCircuit),
     ModuleMask(26, true, KeypadRestart),
     Bitmask(27, 8, 1, true, ExpanderRestart),
     Custom(true, SimCodes)]
  }

  function Part3State(): (rules: seq<FieldRule>)
    ensures Inside(rules, 60)
  {
    [Custom(false, JamLevels),
     Bitmask(15, 15, 17, false, WirelessDeviceLowBattery),
     Bitmask(30, 15, 17, false, WirelessDeviceNoComm),
     Bitmask(45, 15, 17, false, WirelessOutputNoComm)]
  }

  function Part3Memory(): (rules: seq<FieldRule>)
    ensures Inside(rules, 60)
  {
    [BitmaskLimit(0, 2, 14, 17, false, ExpanderAcuJammedOrShortCircuit),
     BitmaskLimit(2, 2, 14, 17, true, ExpanderAcuJammedOrShortCircuit),
     Bitmask(15, 15, 17, true, WirelessDeviceLowBattery),
     Bitmask(30, 15, 17, true, WirelessDeviceNoComm),
     Bitmask(45, 15, 17, true, WirelessOutputNoComm)]
  }

  function Part4(m: bool): (rules: seq<FieldRule>)
    ensures Inside(rules, 30)
  {
    [Bitmask(0, 8, 1, m, ExpanderNoComm),
     Bitmask(8, 8, 1, m, ExpanderSubstituted),
     ModuleMask(16, m, KeypadNoComm),
     ModuleMask(17, m, KeypadSubstituted),
     ModuleMask(18, m, EthmNoLanCable),
     Bitmask(19, 8, 1, m, ExpanderTamper),
     ModuleMask(27, m, KeypadTamper),
     ModuleMask(28, m, KeypadInitError),
     Custom(m, AuxStm)]
  }

  function Part5State(): (rules: seq<FieldRule>)
    ensures Inside(rules, 31)
  {
    [ModuleMask(0, false, MasterKeyFobLowBattery), Bitmask(1, 30, 1, false, UserKeyFobLowBattery)]
  }

  function Part6(m: bool): (rules: seq<FieldRule>)
    ensures Inside(rules, 45)
  {
    [Bitmask(0, 15, 137, m, WirelessDeviceLowBattery),
     Bitmask(15, 15, 137, m, WirelessDeviceNoComm),
     Bitmask(30, 15, 137, m, WirelessOutputNoComm)]
  }

  function Part7State(): (rules: seq<FieldRule>)
    ensures Inside(rules, 47)
  {
    [Bitmask(0, 16, 129, false, TechnicalZoneTrouble),
     Bitmask(16, 16, 129, true, TechnicalZoneTrouble),
     Custom(false, JamLevelsHigh)]
  }

  /** Zones from `start` on: memory of parts 5 and 7. */
  function ZoneMemory(start: nat): (rules: seq<FieldRule>)
    ensures Inside(rules, 48)
  {
    [Bitmask(0, 16, start, true, ZoneLongViolationTrouble),
     Bitmask(16, 16, start, true, ZoneNoViolationTrouble),
     Bitmask(32, 16, start, true, ZoneTamperTrouble)]
  }

  function Part8(m: bool): (rules: seq<FieldRule>)
    ensures Inside(rules, 64)
  {
    [Custom(m, GsmBlock)]
  }

  /** For every trouble command the least number of data bytes and the rules. */
  function GetRules(cmd: byte): (table: Option<Table>)
    ensures table.Some? ==> Inside(table.value.rules, table.value.expectedLen)
  {
    match cmd
    case 0x1B => Some(Table(47, Part1(false)))
    case 0x20 => Some(Table(47, Part1(true)))
    case 0x1C => Some(Table(26, Part2State()))
    case 0x21 => Some(Table(39, Part2Memory()))
    case 0x1D => Some(Table(60, Part3State()))
    case 0x22 => Some(Table(60, Part3Memory()))
    case 0x1E => Some(Table(30, Part4(false)))
    case 0x23 => Some(Table(30, Part4(true)))
    case 0x1F => Some(Table(31, Part5State()))
    case 0x24 => Some(Table(48, ZoneMemory(1)))
    case 0x2C => Some(Table(45, Part6(false)))
    case 0x2E => Some(Table(45, Part6(true)))
    case 0x2D => Some(Table(47, Part7State()))
    case 0x2F => Some(Table(48, ZoneMemory(129)))
    case 0x30 => Some(Table(64, Part8(false)))
    case 0x31 => Some(Table(64, Part8(true)))
    case _ => None
  }

  // ---------- Slots: the items a rule can produce ----------

  /** Bits 0 to 23 from byte 40 of part 1. */
  const SYSTEM: seq<Trouble> :=
    [Numbered(MainBoardOutOverload, 1), Numbered(MainBoardOutOverload, 2),
     Numbered(MainBoardOutOverload, 3), Numbered(MainBoardOutOverload, 4),
     Plain(MainBoardKpdPowerOverload), Plain(MainBoardExPowerOverload),
     Plain(MainBoardBatteryLow), Plain(MainBoardAcLoss),
     Plain(MainBoardDataBusDt1), Plain(MainBoardDataBusDt2), Plain(MainBoardDataBusDtm),
     Plain(RtcLoss), Plain(NoDtrSignal), Plain(MainBoardBatteryMissing),
     Plain(ExternalModemInitTrouble), Plain(ExternalModemCmdTrouble),
     Plain(TelephoneLineNoVoltage), Plain(TelephoneLineBadSignal), Plain(TelephoneLineNoSignal),
     Plain(MonitoringStation1Trouble), Plain(MonitoringStation2Trouble), Plain(EepromRtcTrouble),
     Plain(RamMemoryError), Plain(MainPanelRestartMemory)]

  /** Bits 0 to 7 of byte 46 of part 1. */
  const ETHM_PTSA: seq<Kind> :=
    [EthmMonitoringStation1Error, EthmMonitoringStation2Error, GprsMonitoringStation1Error,
     GprsMonitoringStation2Error, TimeServerTrouble, GsmInitError,
     IpMonitoringStation1Trouble, IpMonitoringStation2Trouble]

  /** Bits 0 to 31 of the eight bytes of a communication module; bits 25 and up are reserved. */
  function GsmTrouble(m: nat, bit: nat): Trouble
    requires bit < 32
  {
    match bit
    case 0 => Numbered(GsmEthmStation1Error, m)
    case 1 => Numbered(GsmEthmStation2Error, m)
    case 2 => Numbered(GsmGprsSim1Station1Error, m)
    case 3 => Numbered(GsmGprsSim1Station2Error, m)
    case 4 => Numbered(GsmGprsSim2Station1Error, m)
    case 5 => Numbered(GsmGprsSim2Station2Error, m)
    case 6 => Numbered(GsmSmsSim1Station1Error, m)
    case 7 => Numbered(GsmSmsSim1Station2Error, m)
    case 8 => Numbered(GsmSmsSim2Station1Error, m)
    case 9 => Numbered(GsmSmsSim2Station2Error, m)
    case 10 => OnSim(GsmSimPinError, m, 1)
    case 11 => OnSim(GsmSimPinError, m, 2)
    case 12 => OnSim(GsmSimLoggingError, m, 1)
    case 13 => OnSim(GsmSimLoggingError, m, 2)
    case 14 => OnSim(GsmSimCreditLow, m, 1)
    case 15 => OnSim(GsmSimCreditLow, m, 2)
    case 16 => OnSim(GsmSimSmsError, m, 1)
    case 17 => OnSim(GsmSimSmsError, m, 2)
    case 18 => Numbered(GsmJamming, m)
    case 19 => Numbered(GsmSettingsCrcError, m)
    case 20 => Numbered(GsmModuleMissing, m)
    case 21 => Numbered(GsmModuleChanged, m)
    case 22 => Numbered(GsmServerConnError, m)
    case 23 => Numbered(GsmMailServerConnError, m)
    case 24 => Numbered(GsmNtpServerConnError, m)
    case _ => GenericTrouble(7, 64 * m + bit)
  }

  /** Items per communication module: 32 bits and two codes. */
  const GSM_SLOTS := 34

  function SlotCount(rule: FieldRule): nat
  {
    match rule
    case Bitmask(_, length, _, _, _) => 8 * length
    case ModuleMask(_, _, _) => 8
    case BitmaskLimit(_, length, limit, _, _, _) => if limit < 8 * length then limit else 8 * length
    case Custom(_, extractor) =>
      match extractor
      case SystemTroubles => 24
      case EthmPtsa => 8
      case AuxStm => 1
      case JamLevels => 15
      case JamLevelsHigh => 15
      case SimCodes => 2
      case GsmBlock => 8 * GSM_SLOTS
  }

  function SlotKey(rule: FieldRule, i: nat): Key
    requires i < SlotCount(rule)
  {
    match rule
    case Bitmask(_, _, startNum, memory, kind) => Flag(Numbered(kind, startNum + i), memory)
    case ModuleMask(_, memory, kind) => Flag(Numbered(kind, i + 1), memory)
    case BitmaskLimit(_, _, _, startNum, memory, kind) => Flag(Numbered(kind, startNum + i), memory)
    case Custom(memory, extractor) =>
      match extractor
      case SystemTroubles => Flag(SYSTEM[i], memory)
      case EthmPtsa => Flag(Plain(ETHM_PTSA[i]), memory)
      case AuxStm => Flag(Plain(AuxiliaryStmTroubles), memory)
      case JamLevels => JamLevel(i + 1)
      case JamLevelsHigh => JamLevel(i + 16)
      case SimCodes => CmeCode(Panel, 1, i == 1)
      case GsmBlock =>
        var m, r := i / GSM_SLOTS, i % GSM_SLOTS;
        if r < 32 then Flag(GsmTrouble(m, r), memory) else CmeCode(GsmModule(m), r - 31, memory)
  }

  function CodeAt(data: seq<byte>, at: nat): Value
    requires at + 1 < |data|
  {
    Code(BigEndian(data[at], data[at + 1]))
  }

  function SlotValue(rule: FieldRule, data: seq<byte>, i: nat): Value
    requires i < SlotCount(rule) && Reach(rule) <= |data|
  {
    match rule
    case Bitmask(offset, _, _, _, _) => Active(BitAt(data, 8 * offset + i))
    case ModuleMask(offset, _, _) => Active(BitAt(data, 8 * offset + i))
    case BitmaskLimit(offset, _, _, _, _, _) => Active(BitAt(data, 8 * offset + i))
    case Custom(_, extractor) =>
      match extractor
      case SystemTroubles => Active(BitAt(data, 320 + i))
      case EthmPtsa => Active(BitAt(data, 368 + i))
      case AuxStm => Active(data[29] != 0)
      case JamLevels => Level(data[i])
      case JamLevelsHigh => Level(data[32 + i])
      case SimCodes => CodeAt(data, 35 + 2 * i)
      case GsmBlock =>
        var m, r := i / GSM_SLOTS, i % GSM_SLOTS;
        if r < 32 then Active(BitAt(data, 64 * m + r)) else CodeAt(data, 8 * m + 2 * r - 60)
  }

  // ---------- Where each key comes from ----------

  /** Command, rule and slot that produce a key. */
  datatype Origin = Origin(cmd: byte, rule: nat, slot: int)

  function By(memory: bool, state: Origin, kept: Origin): Origin { if memory then kept else state }

  /** State and memory commands with the same layout. */
  function Twin(memory: bool, state: byte, kept: byte, rule: nat, slot: int): Origin
  {
    Origin(if memory then kept else state, rule, slot)
  }

  const NOWHERE := Origin(0, 0, 0)

  function HomeOfNumbered(kind: Kind, n: nat, mem: bool): Origin
  {
    match kind
    case MainBoardOutOverload => Twin(mem, 0x1B, 0x20, 4, n - 1)
    case TechnicalZoneTrouble =>
      if n <= 128 then Twin(mem, 0x1B, 0x20, 0, n - 1) else Origin(0x2D, if mem then 1 else 0, n - 129)
    case ExpanderAcLoss => Twin(mem, 0x1B, 0x20, 1, n - 1)
    case ExpanderBatteryLow => Twin(mem, 0x1B, 0x20, 2, n - 1)
    case ExpanderBatteryMissing => Twin(mem, 0x1B, 0x20, 3, n - 1)
    case EthmPingTrouble => Twin(mem, 0x1B, 0x20, 5, n - 1)
    case EthmServerIdError => Twin(mem, 0x1B, 0x20, 6, n - 1)
    case EthmSatelServerConnectionError => Twin(mem, 0x1B, 0x20, 7, n - 1)
    case ExpanderCardReaderHeadA => Twin(mem, 0x1C, 0x21, 0, n - 1)
    case ExpanderCardReaderHeadB => Twin(mem, 0x1C, 0x21, 1, n - 1)
    case ExpanderSupplyOverload => Twin(mem, 0x1C, 0x21, 2, n - 1)
    case ExpanderAcuJammedOrShortCircuit =>
      if n <= 16 then Twin(mem, 0x1C, 0x21, 3, n - 1) else Origin(0x22, if mem then 1 else 0, n - 17)
    case KeypadRestart => Origin(0x21, 4, n - 1)
    case ExpanderRestart => Origin(0x21, 5, n - 1)
    case WirelessDeviceLowBattery =>
      if n <= 136 then By(mem, Origin(0x1D, 1, n - 17), Origin(0x22, 2, n - 17))
      else Twin(mem, 0x2C, 0x2E, 0, n - 137)
    case WirelessDeviceNoComm =>
      if n <= 136 then By(mem, Origin(0x1D, 2, n - 17), Origin(0x22, 3, n - 17))
      else Twin(mem, 0x2C, 0x2E, 1, n - 137)
    case WirelessOutputNoComm =>
      if n <= 136 then By(mem, Origin(0x1D, 3, n - 17), Origin(0x22, 4, n - 17))
      else Twin(mem, 0x2C, 0x2E, 2, n - 137)
    case ExpanderNoComm => Twin(mem, 0x1E, 0x23, 0, n - 1)
    case ExpanderSubstituted => Twin(mem, 0x1E, 0x23, 1, n - 1)
    case KeypadNoComm => Twin(mem, 0x1E, 0x23, 2, n - 1)
    case KeypadSubstituted => Twin(mem, 0x1E, 0x23, 3, n - 1)
    case EthmNoLanCable => Twin(mem, 0x1E, 0x23, 4, n - 1)
    case ExpanderTamper => Twin(mem, 0x1E, 0x23, 5, n - 1)
    case KeypadTamper => Twin(mem, 0x1E, 0x23, 6, n - 1)
    case KeypadInitError => Twin(mem, 0x1E, 0x23, 7, n - 1)
    case MasterKeyFobLowBattery => Origin(0x1F, 0, n - 1)
    case UserKeyFobLowBattery => Origin(0x1F, 1, n - 1)
    case ZoneLongViolationTrouble => if n <= 128 then Origin(0x24, 0, n - 1) else Origin(0x2F, 0, n - 129)
    case ZoneNoViolationTrouble => if n <= 128 then Origin(0x24, 1, n - 1) else Origin(0x2F, 1, n - 129)
    case ZoneTamperTrouble => if n <= 128 then Origin(0x24, 2, n - 1) else Origin(0x2F, 2, n - 129)
    case _ => HomeOfGsm(GsmBit(kind, 0), n, mem)
  }

  function HomeOfGsm(bit: nat, m: nat, mem: bool): Origin { Twin(mem, 0x30, 0x31, 0, GSM_SLOTS * m + bit) }

  /** The bit of a communication-module trouble, for SIM-less kinds and for SIM 1 or 2. */
  function GsmBit(kind: Kind, sim: nat): nat
  {
    match kind
    case GsmEthmStation1Error => 0
    case GsmEthmStation2Error => 1
    case GsmGprsSim1Station1Error => 2
    case GsmGprsSim1Station2Error => 3
    case GsmGprsSim2Station1Error => 4
    case GsmGprsSim2Station2Error => 5
    case GsmSmsSim1Station1Error => 6
    case GsmSmsSim1Station2Error => 7
    case GsmSmsSim2Station1Error => 8
    case GsmSmsSim2Station2Error => 9
    case GsmSimPinError => 9 + sim
    case GsmSimLoggingError => 11 + sim
    case GsmSimCreditLow => 13 + sim
    case GsmSimSmsError => 15 + sim
    case GsmJamming => 18
    case GsmSettingsCrcError => 19
    case GsmModuleMissing => 20
    case GsmModuleChanged => 21
    case GsmServerConnError => 22
    case GsmMailServerConnError => 23
    case _ => 24
  }

  function HomeOfPlain(kind: Kind, mem: bool): Origin
  {
    match kind
    case MainBoardKpdPowerOverload => Twin(mem, 0x1B, 0x20, 4, 4)
    case MainBoardExPowerOverload => Twin(mem, 0x1B, 0x20, 4, 5)
    case MainBoardBatteryLow => Twin(mem, 0x1B, 0x20, 4, 6)
    case MainBoardAcLoss => Twin(mem, 0x1B, 0x20, 4, 7)
    case MainBoardDataBusDt1 => Twin(mem, 0x1B, 0x20, 4, 8)
    case MainBoardDataBusDt2 => Twin(mem, 0x1B, 0x20, 4, 9)
    case MainBoardDataBusDtm => Twin(mem, 0x1B, 0x20, 4, 10)
    case RtcLoss => Twin(mem, 0x1B, 0x20, 4, 11)
    case NoDtrSignal => Twin(mem, 0x1B, 0x20, 4, 12)
    case MainBoardBatteryMissing => Twin(mem, 0x1B, 0x20, 4, 13)
    case ExternalModemInitTrouble => Twin(mem, 0x1B, 0x20, 4, 14)
    case ExternalModemCmdTrouble => Twin(mem, 0x1B, 0x20, 4, 15)
    case TelephoneLineNoVoltage => Twin(mem, 0x1B, 0x20, 4, 16)
    case TelephoneLineBadSignal => Twin(mem, 0x1B, 0x20, 4, 17)
    case TelephoneLineNoSignal => Twin(mem, 0x1B, 0x20, 4, 18)
    case MonitoringStation1Trouble => Twin(mem, 0x1B, 0x20, 4, 19)
    case MonitoringStation2Trouble => Twin(mem, 0x1B, 0x20, 4, 20)
    case EepromRtcTrouble => Twin(mem, 0x1B, 0x20, 4, 21)
    case RamMemoryError => Twin(mem, 0x1B, 0x20, 4, 22)
    case MainPanelRestartMemory => Twin(mem, 0x1B, 0x20, 4, 23)
    case EthmMonitoringStation1Error => Twin(mem, 0x1B, 0x20, 8, 0)
    case EthmMonitoringStation2Error => Twin(mem, 0x1B, 0x20, 8, 1)
    case GprsMonitoringStation1Error => Twin(mem, 0x1B, 0x20, 8, 2)
    case GprsMonitoringStation2Error => Twin(mem, 0x1B, 0x20, 8, 3)
    case TimeServerTrouble => Twin(mem, 0x1B, 0x20, 8, 4)
    case GsmInitError => Twin(mem, 0x1B, 0x20, 8, 5)
    case IpMonitoringStation1Trouble => Twin(mem, 0x1B, 0x20, 8, 6)
    case IpMonitoringStation2Trouble => Twin(mem, 0x1B, 0x20, 8, 7)
    case AuxiliaryStmTroubles => Twin(mem, 0x1E, 0x23, 8, 0)
    case _ => NOWHERE
  }

  /** The one place in all sixteen tables that can produce a key. */
  function Home(key: Key): Origin
  {
    match key
    case JamLevel(n) => if n <= 15 then Origin(0x1D, 0, n - 1) else Origin(0x2D, 2, n - 16)
    case CmeCode(Panel, _, mem) => Origin(0x21, 6, if mem then 1 else 0)
    case CmeCode(GsmModule(m), sim, mem) => HomeOfGsm(31 + sim, m, mem)
    case Flag(trouble, mem) =>
      match trouble
      case Plain(kind) => HomeOfPlain(kind, mem)
      case Numbered(kind, n) => HomeOfNumbered(kind, n, mem)
      case OnSim(kind, m, sim) => HomeOfGsm(GsmBit(kind, sim), m, mem)
      case GenericTrouble(_, bit) => HomeOfGsm(bit % 64, bit / 64, mem)
  }

  lemma SystemAtHome(i: nat, m: bool)
    requires i < 24
    ensures Home(Flag(SYSTEM[i], m)) == Twin(m, 0x1B, 0x20, 4, i)
  {
    hide HomeOfNumbered, HomeOfGsm;
    if i < 4 {
      assert SYSTEM[i] == Numbered(MainBoardOutOverload, i + 1);
      OverloadAtHome(i + 1, m);
    }
  }

  lemma OverloadAtHome(n: nat, m: bool)
    ensures HomeOfNumbered(MainBoardOutOverload, n, m) == Twin(m, 0x1B, 0x20, 4, n - 1)
  {
  }

  lemma PtsaAtHome(i: nat, m: bool)
    requires i < 8
    ensures Home(Flag(Plain(ETHM_PTSA[i]), m)) == Twin(m, 0x1B, 0x20, 8, i)
  {
  }

  lemma GsmKindAtHome(m: nat, bit: nat)
    requires bit < 25
    ensures match GsmTrouble(m, bit)
      case Numbered(kind, n) => n == m && GsmBit(kind, 0) == bit
      case OnSim(kind, n, sim) => n == m && GsmBit(kind, sim) == bit
      case _ => false
  {
  }

  lemma GsmIsNotElsewhere(m: nat, bit: nat, mem: bool)
    requires bit < 25 && GsmTrouble(m, bit).Numbered?
    ensures var t := GsmTrouble(m, bit);
      HomeOfNumbered(t.kind, m, mem) == HomeOfGsm(GsmBit(t.kind, 0), m, mem)
  {
    hide HomeOfGsm, GsmBit;
  }

  lemma GsmBitAtHome(m: nat, bit: nat, mem: bool)
    requires bit < 32 && m < 8
    ensures Home(Flag(GsmTrouble(m, bit), mem)) == HomeOfGsm(bit, m, mem)
  {
    if bit >= 25 {
      assert (64 * m + bit) / 64 == m && (64 * m + bit) % 64 == bit;
    } else {
      GsmBitAtHomeBelow(m, bit, mem);
    }
  }

  lemma GsmBitAtHomeBelow(m: nat, bit: nat, mem: bool)
    requires bit < 25
    ensures Home(Flag(GsmTrouble(m, bit), mem)) == HomeOfGsm(bit, m, mem)
  {
    hide GsmTrouble, HomeOfNumbered, HomeOfGsm, GsmBit;
    GsmKindAtHome(m, bit);
    if GsmTrouble(m, bit).Numbered? {
      GsmIsNotElsewhere(m, bit, mem);
    }
  }

  lemma GsmAtHome(i: nat, mem: bool)
    requires i < 8 * GSM_SLOTS
    ensures Home(SlotKey(Custom(mem, GsmBlock), i)) == Twin(mem, 0x30, 0x31, 0, i)
  {
    var m, r := i / GSM_SLOTS, i % GSM_SLOTS;
    assert i == GSM_SLOTS * m + r;
    if r < 32 {
      GsmBitAtHome(m, r, mem);
    }
  }

  lemma Part1AtHome(m: bool, j: nat, i: nat)
    requires j < |Part1(m)| && i < SlotCount(Part1(m)[j])
    ensures Home(SlotKey(Part1(m)[j], i)) == Twin(m, 0x1B, 0x20, j, i)
  {
    if j == 4 {
      SystemAtHome(i, m);
    } else if j == 8 {
      PtsaAtHome(i, m);
    }
  }

  lemma Part4AtHome(m: bool, j: nat, i: nat)
    requires j < |Part4(m)| && i < SlotCount(Part4(m)[j])
    ensures Home(SlotKey(Part4(m)[j], i)) == Twin(m, 0x1E, 0x23, j, i)
  {
  }

  lemma Part6AtHome(m: bool, j: nat, i: nat)
    requires j < |Part6(m)| && i < SlotCount(Part6(m)[j])
    ensures Home(SlotKey(Part6(m)[j], i)) == Twin(m, 0x2C, 0x2E, j, i)
  {
  }

  lemma ZoneMemoryAtHome(upper: bool, j: nat, i: nat)
    requires j < |ZoneMemory(if upper then 129 else 1)|
    requires i < SlotCount(ZoneMemory(if upper then 129 else 1)[j])
    ensures Home(SlotKey(ZoneMemory(if upper then 129 else 1)[j], i)) == Origin(if upper then 0x2F else 0x24, j, i)
  {
  }

  lemma Part2StateAtHome(j: nat, i: nat)
    requires j < |Part2State()| && i < SlotCount(Part2State()[j])
    ensures Home(SlotKey(Part2State()[j], i)) == Origin(0x1C, j, i)
  {
  }

  lemma Part2MemoryAtHome(j: nat, i: nat)
    requires j < |Part2Memory()| && i < SlotCount(Part2Memory()[j])
    ensures Home(SlotKey(Part2Memory()[j], i)) == Origin(0x21, j, i)
  {
  }

  lemma Part3StateAtHome(j: nat, i: nat)
    requires j < |Part3State()| && i < SlotCount(Part3State()[j])
    ensures Home(SlotKey(Part3State()[j], i)) == Origin(0x1D, j, i)
  {
  }

  lemma Part3MemoryAtHome(j: nat, i: nat)
    requires j < |Part3Memory()| && i < SlotCount(Part3Memory()[j])
    ensures Home(SlotKey(Part3Memory()[j], i)) == Origin(0x22, j, i)
  {
  }

  lemma Part5StateAtHome(j: nat, i: nat)
    requires j < |Part5State()| && i < SlotCount(Part5State()[j])
    ensures Home(SlotKey(Part5State()[j], i)) == Origin(0x1F, j, i)
  {
  }

  lemma Part7StateAtHome(j: nat, i: nat)
    requires j < |Part7State()| && i < SlotCount(Part7State()[j])
    ensures Home(SlotKey(Part7State()[j], i)) == Origin(0x2D, j, i)
  {
  }

  /** Main result: every item any table can produce is at home in that rule of that table only. So
  the sixteen tables own pairwise disjoint keys, and no key occurs twice inside one frame. */
  lemma SlotAtHome(cmd: byte, j: nat, i: nat)
    requires GetRules(cmd).Some? && j < |GetRules(cmd).value.rules|
    requires i < SlotCount(GetRules(cmd).value.rules[j])
    ensures Home(SlotKey(GetRules(cmd).value.rules[j], i)) == Origin(cmd, j, i)
  {
    hide Home, Part1, Part2State, Part2Memory, Part3State, Part3Memory, Part4, Part5State, Part6,
      Part7State, ZoneMemory;
    match cmd
    case 0x1B => Part1AtHome(false, j, i);
    case 0x20 => Part1AtHome(true, j, i);
    case 0x1C => Part2StateAtHome(j, i);
    case 0x21 => Part2MemoryAtHome(j, i);
    case 0x1D => Part3StateAtHome(j, i);
    case 0x22 => Part3MemoryAtHome(j, i);
    case 0x1E => Part4AtHome(false, j, i);
    case 0x23 => Part4AtHome(true, j, i);
    case 0x1F => Part5StateAtHome(j, i);
    case 0x2D => Part7StateAtHome(j, i);
    case 0x2C => Part6AtHome(false, j, i);
    case 0x2E => Part6AtHome(true, j, i);
    case 0x24 => ZoneMemoryAtHome(false, j, i);
    case 0x2F => ZoneMemoryAtHome(true, j, i);
    case 0x30 => GsmAtHome(i, false);
    case 0x31 => GsmAtHome(i, true);
    case _ =>
  }
}
