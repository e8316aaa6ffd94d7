/** The typed trouble decoder, which reads the same frames into records without the tables, and
its agreement with the table-driven one. */
module TroubleParts {
  import opened Bytes
  import opened TroubleTables
  import opened TroubleCache

  datatype MainBoard = MainBoard(
    out1: bool, out2: bool, out3: bool, out4: bool,
    kpdPower: bool, exPower: bool, battery: bool, ac: bool,
    dt1: bool, dt2: bool, dtm: bool, rtc: bool,
    noDtr: bool, noBattery: bool, modemInit: bool, modemCmd: bool,
    telNoVoltage: bool, telBadSignal: bool, telNoSignal: bool,
    station1: bool, station2: bool, eepromRtc: bool, ram: bool, restart: bool)

  datatype EthmPtsaPart = EthmPtsaPart(
    ethmPing: bool, serverId: bool, noServerConnection: bool,
    ethmStation1: bool, ethmStation2: bool, gprsStation1: bool, gprsStation2: bool,
    timeServer: bool, gsmInit: bool, ipStation1: bool, ipStation2: bool)

  datatype GsmPart = GsmPart(
    address: nat,
    ethmStation1: bool, ethmStation2: bool, gprsSim1Station1: bool, gprsSim1Station2: bool,
    gprsSim2Station1: bool, gprsSim2Station2: bool, smsSim1Station1: bool, smsSim1Station2: bool,
    smsSim2Station1: bool, smsSim2Station2: bool, wrongSim1Pin: bool, wrongSim2Pin: bool,
    sim1Logging: bool, sim2Logging: bool, sim1Credit: bool, sim2Credit: bool,
    sim1Sms: bool, sim2Sms: bool, jamming: bool, settingsCrc: bool,
    missing: bool, changed: bool, serverConn: bool, mailServerConn: bool, ntpServerConn: bool,
    sim1Cme: word, sim2Cme: word)

  datatype Parts =
    | Part1Data(isMemory: bool, technicalZones: seq<bool>, expandersAc: seq<bool>,
                expandersBattery: seq<bool>, expandersNoBattery: seq<bool>,
                mainBoard: MainBoard, ethmPtsa: EthmPtsaPart)
    | Part2Data(headA: seq<bool>, headB: seq<bool>, overload: seq<bool>, jammed: seq<bool>)
    | MemoryPart2Data(headA: seq<bool>, headB: seq<bool>, overload: seq<bool>, jammed: seq<bool>,
                      keypadRestart: seq<bool>, expanderRestart: seq<bool>, cme: word, cmeMemory: word)
    | Part3Data(jamLevels: seq<byte>, lowBattery: seq<bool>, noComm: seq<bool>, outputsNoComm: seq<bool>)
    | MemoryPart3Data(jammed: seq<bool>, jammedMemory: seq<bool>,
                      lowBattery: seq<bool>, noComm: seq<bool>, outputsNoComm: seq<bool>)
    | Part4Data(isMemory: bool, expandersNoComm: seq<bool>, expandersSubstituted: seq<bool>,
                keypadsNoComm: seq<bool>, keypadsSubstituted: seq<bool>, ethmNoLan: seq<bool>,
                expandersTamper: seq<bool>, keypadsTamper: seq<bool>, keypadInitErrors: seq<bool>,
                auxiliaryStm: byte)
    | Part5Data(mastersLowBattery: seq<bool>, usersLowBattery: seq<bool>)
    | Part6Data(isMemory: bool, lowBattery: seq<bool>, noComm: seq<bool>, outputsNoComm: seq<bool>)
    | Part7Data(technicalZones: seq<bool>, technicalZonesMemory: seq<bool>, jamLevels: seq<byte>)
    | ZoneMemoryData(upperHalf: bool, longViolation: seq<bool>, noViolation: seq<bool>, tamper: seq<bool>)
    | Part8Data(isMemory: bool, modules: seq<GsmPart>)

  /** Bits `8 * from` to `8 * to` of the data. */
  function ExtractBits(data: seq<byte>, from: nat, to: nat): (bits: seq<bool>)
    requires from <= to <= |data|
    ensures |bits| == 8 * (to - from)
    ensures forall i :: 0 <= i < |bits| ==> bits[i] == BitAt(data, 8 * from + i)
  {
    seq(8 * (to - from), i requires 0 <= i < 8 * (to - from) => BitAt(data, 8 * from + i))
  }

  /** The nested loops of `extract_bits` over a slice of the data. */
  method ExtractBitsLoop(bytes: seq<byte>) returns (bits: seq<bool>)
    ensures bits == ExtractBits(bytes, 0, |bytes|)
  {
    bits := [];
    for k := 0 to |bytes|
      invariant |bits| == 8 * k
      invariant forall i :: 0 <= i < |bits| ==> bits[i] == BitAt(bytes, i)
    {
      for bit := 0 to 8
        invariant |bits| == 8 * k + bit
        invariant forall i :: 0 <= i < |bits| ==> bits[i] == BitAt(bytes, i)
      {
        assert (8 * k + bit) / 8 == k && (8 * k + bit) % 8 == bit;
        bits := bits + [Bit(bytes[k], bit)];
      }
    }
  }

  function ReadMainBoard(b1: byte, b2: byte, b3: byte): MainBoard
  {
    MainBoard(Bit(b1, 0), Bit(b1, 1), Bit(b1, 2), Bit(b1, 3), Bit(b1, 4), Bit(b1, 5), Bit(b1, 6), Bit(b1, 7),
              Bit(b2, 0), Bit(b2, 1), Bit(b2, 2), Bit(b2, 3), Bit(b2, 4), Bit(b2, 5), Bit(b2, 6), Bit(b2, 7),
              Bit(b3, 0), Bit(b3, 1), Bit(b3, 2), Bit(b3, 3), Bit(b3, 4), Bit(b3, 5), Bit(b3, 6), Bit(b3, 7))
  }

  function ReadEthmPtsa(p1: byte, p2: byte, p3: byte, p4: byte): EthmPtsaPart
  {
    EthmPtsaPart(p1 != 0, p2 != 0, p3 != 0,
                 Bit(p4, 0), Bit(p4, 1), Bit(p4, 2), Bit(p4, 3), Bit(p4, 4), Bit(p4, 5), Bit(p4, 6), Bit(p4, 7))
  }

  function ReadGsm(c: seq<byte>, address: nat): GsmPart
    requires |c| == 8
  {
    GsmPart(address,
            Bit(c[0], 0), Bit(c[0], 1), Bit(c[0], 2), Bit(c[0], 3),
            Bit(c[0], 4), Bit(c[0], 5), Bit(c[0], 6), Bit(c[0], 7),
            Bit(c[1], 0), Bit(c[1], 1), Bit(c[1], 2), Bit(c[1], 3),
            Bit(c[1], 4), Bit(c[1], 5), Bit(c[1], 6), Bit(c[1], 7),
            Bit(c[2], 0), Bit(c[2], 1), Bit(c[2], 2), Bit(c[2], 3),
            Bit(c[2], 4), Bit(c[2], 5), Bit(c[2], 6), Bit(c[2], 7),
            Bit(c[3], 0), BigEndian(c[4], c[5]), BigEndian(c[6], c[7]))
  }

  function ReadModules(data: seq<byte>): (modules: seq<GsmPart>)
    requires 64 <= |data|
    ensures |modules| == 8
    ensures forall m :: 0 <= m < 8 ==> modules[m] == ReadGsm(data[8 * m..8 * m + 8], m)
  {
    seq(8, m requires 0 <= m < 8 => ReadGsm(data[8 * m..8 * m + 8], m))
  }

  /** The loop over the eight chunks of part 8. */
  method ReadModulesLoop(data: seq<byte>) returns (modules: seq<GsmPart>)
    requires 64 <= |data|
    ensures modules == ReadModules(data)
  {
    hide ReadGsm;
    modules := [];
    for m := 0 to 8
      invariant |modules| == m
      invariant forall a :: 0 <= a < m ==> modules[a] == ReadGsm(data[8 * a..8 * a + 8], a)
    {
      modules := modules + [ReadGsm(data[8 * m..8 * m + 8], m)];
    }
  }

  /** The typed parsers, dispatched by command. Each checks the length it needs itself. */
  function ProcessTroublesFrame(frame: seq<byte>): Option<Parts>
  {
    if frame == [] then None
    else
      var cmd, d := frame[0], frame[1..];
      match cmd
      case 0x1B => ProcessPart1(d, false)
      case 0x20 => ProcessPart1(d, true)
      case 0x1C => ProcessPart2(d)
      case 0x21 => ProcessMemoryPart2(d)
      case 0x1D => ProcessPart3(d)
      case 0x22 => ProcessMemoryPart3(d)
      case 0x1E => ProcessPart4(d, false)
      case 0x23 => ProcessPart4(d, true)
      case 0x1F => ProcessPart5(d)
      case 0x24 => ProcessZoneMemory(d, false)
      case 0x2C => ProcessPart6(d, false)
      case 0x2E => ProcessPart6(d, true)
      case 0x2D => ProcessPart7(d)
      case 0x2F => ProcessZoneMemory(d, true)
      case 0x30 => ProcessPart8(d, false)
      case 0x31 => ProcessPart8(d, true)
      case _ => None
  }

  function ProcessPart1(d: seq<byte>, isMemory: bool): Option<Parts>
  {
    if |d| < 47 then None
    else Some(Part1Data(isMemory, ExtractBits(d, 0, 16), ExtractBits(d, 16, 24), ExtractBits(d, 24, 32),
                        ExtractBits(d, 32, 40), ReadMainBoard(d[40], d[41], d[42]),
                        ReadEthmPtsa(d[43], d[44], d[45], d[46])))
  }

  function ProcessPart2(d: seq<byte>): Option<Parts>
  {
    if |d| < 26 then None
    else Some(Part2Data(ExtractBits(d, 0, 8), ExtractBits(d, 8, 16), ExtractBits(d, 16, 24), ExtractBits(d, 24, 26)))
  }

  function ProcessMemoryPart2(d: seq<byte>): Option<Parts>
  {
    if |d| < 39 then None
    else Some(MemoryPart2Data(ExtractBits(d, 0, 8), ExtractBits(d, 8, 16), ExtractBits(d, 16, 24),
                              ExtractBits(d, 24, 26), ExtractBits(d, 26, 27), ExtractBits(d, 27, 35),
                              BigEndian(d[35], d[36]), BigEndian(d[37], d[38])))
  }

  function ProcessPart3(d: seq<byte>): Option<Parts>
  {
    if |d| < 60 then None
    else Some(Part3Data(d[0..15], ExtractBits(d, 15, 30), ExtractBits(d, 30, 45), ExtractBits(d, 45, 60)))
  }

  function ProcessMemoryPart3(d: seq<byte>): Option<Parts>
  {
    if |d| < 60 then None
    else Some(MemoryPart3Data(ExtractBits(d, 0, 2), ExtractBits(d, 2, 4), ExtractBits(d, 15, 30),
                              ExtractBits(d, 30, 45), ExtractBits(d, 45, 60)))
  }

  function ProcessPart4(d: seq<byte>, isMemory: bool): Option<Parts>
  {
    if |d| < 30 then None
    else Some(Part4Data(isMemory, ExtractBits(d, 0, 8), ExtractBits(d, 8, 16), ExtractBits(d, 16, 17),
                        ExtractBits(d, 17, 18), ExtractBits(d, 18, 19), ExtractBits(d, 19, 27),
                        ExtractBits(d, 27, 28), ExtractBits(d, 28, 29), d[29]))
  }

  function ProcessPart5(d: seq<byte>): Option<Parts>
  {
    if |d| < 31 then None else Some(Part5Data(ExtractBits(d, 0, 1), ExtractBits(d, 1, 31)))
  }

  function ProcessPart6(d: seq<byte>, isMemory: bool): Option<Parts>
  {
    if |d| < 45 then None
    else Some(Part6Data(isMemory, ExtractBits(d, 0, 15), ExtractBits(d, 15, 30), ExtractBits(d, 30, 45)))
  }

  function ProcessPart7(d: seq<byte>): Option<Parts>
  {
    if |d| < 47 then None
    else Some(Part7Data(ExtractBits(d, 0, 16), ExtractBits(d, 16, 32), d[32..47]))
  }

  function ProcessZoneMemory(d: seq<byte>, upperHalf: bool): Option<Parts>
  {
    if |d| < 48 then None
    else Some(ZoneMemoryData(upperHalf, ExtractBits(d, 0, 16), ExtractBits(d, 16, 32), ExtractBits(d, 32, 48)))
  }

  function ProcessPart8(d: seq<byte>, isMemory: bool): Option<Parts>
  {
    if |d| < 64 then None else Some(Part8Data(isMemory, ReadModules(d)))
  }

  // ---------- Which field belongs to which key ----------

  function AtBit(bits: seq<bool>, i: int): Option<Value>
  {
    if 0 <= i < |bits| then Some(Active(bits[i])) else None
  }

  function AtLevel(levels: seq<byte>, i: int): Option<Value>
  {
    if 0 <= i < |levels| then Some(Level(levels[i])) else None
  }

  function OfMainBoard(b: MainBoard, trouble: Trouble): Option<Value>
  {
    match trouble
    case Numbered(MainBoardOutOverload, n) =>
      if n == 1 then Some(Active(b.out1)) else if n == 2 then Some(Active(b.out2))
      else if n == 3 then Some(Active(b.out3)) else if n == 4 then Some(Active(b.out4)) else None
    case Plain(MainBoardKpdPowerOverload) => Some(Active(b.kpdPower))
    case Plain(MainBoardExPowerOverload) => Some(Active(b.exPower))
    case Plain(MainBoardBatteryLow) => Some(Active(b.battery))
    case Plain(MainBoardAcLoss) => Some(Active(b.ac))
    case Plain(MainBoardDataBusDt1) => Some(Active(b.dt1))
    case Plain(MainBoardDataBusDt2) => Some(Active(b.dt2))
    case Plain(MainBoardDataBusDtm) => Some(Active(b.dtm))
    case Plain(RtcLoss) => Some(Active(b.rtc))
    case Plain(NoDtrSignal) => Some(Active(b.noDtr))
    case Plain(MainBoardBatteryMissing) => Some(Active(b.noBattery))
    case Plain(ExternalModemInitTrouble) => Some(Active(b.modemInit))
    case Plain(ExternalModemCmdTrouble) => Some(Active(b.modemCmd))
    case Plain(TelephoneLineNoVoltage) => Some(Active(b.telNoVoltage))
    case Plain(TelephoneLineBadSignal) => Some(Active(b.telBadSignal))
    case Plain(TelephoneLineNoSignal) => Some(Active(b.telNoSignal))
    case Plain(MonitoringStation1Trouble) => Some(Active(b.station1))
    case Plain(MonitoringStation2Trouble) => Some(Active(b.station2))
    case Plain(EepromRtcTrouble) => Some(Active(b.eepromRtc))
    case Plain(RamMemoryError) => Some(Active(b.ram))
    case Plain(MainPanelRestartMemory) => Some(Active(b.restart))
    case _ => None
  }

  function OfEthmPtsa(p: EthmPtsaPart, kind: Kind): Option<Value>
  {
    match kind
    case EthmMonitoringStation1Error => Some(Active(p.ethmStation1))
    case EthmMonitoringStation2Error => Some(Active(p.ethmStation2))
    case GprsMonitoringStation1Error => Some(Active(p.gprsStation1))
    case GprsMonitoringStation2Error => Some(Active(p.gprsStation2))
    case TimeServerTrouble => Some(Active(p.timeServer))
    case GsmInitError => Some(Active(p.gsmInit))
    case IpMonitoringStation1Trouble => Some(Active(p.ipStation1))
    case IpMonitoringStation2Trouble => Some(Active(p.ipStation2))
    case _ => None
  }

  function OfGsm(g: GsmPart, trouble: Trouble): Option<Value>
  {
    match trouble
    case Numbered(kind, _) => if GsmKind(kind) && !SimKind(kind) then Some(Active(NamedFlag(g, kind, 0))) else None
    case OnSim(kind, _, sim) => if SimKind(kind) && IsSim(sim) then Some(Active(NamedFlag(g, kind, sim))) else None
    case _ => None
  }

  predicate IsSim(sim: nat) { sim == 1 || sim == 2 }

  predicate SimKind(kind: Kind)
  {
    kind.GsmSimPinError? || kind.GsmSimLoggingError? || kind.GsmSimCreditLow? || kind.GsmSimSmsError?
  }

  predicate GsmKind(kind: Kind)
  {
    match kind
    case GsmEthmStation1Error | GsmEthmStation2Error | GsmGprsSim1Station1Error | GsmGprsSim1Station2Error
      | GsmGprsSim2Station1Error | GsmGprsSim2Station2Error | GsmSmsSim1Station1Error
      | GsmSmsSim1Station2Error | GsmSmsSim2Station1Error | GsmSmsSim2Station2Error | GsmJamming
      | GsmSettingsCrcError | GsmModuleMissing | GsmModuleChanged | GsmServerConnError
      | GsmMailServerConnError | GsmNtpServerConnError | GsmSimPinError | GsmSimLoggingError
      | GsmSimCreditLow | GsmSimSmsError => true
    case _ => false
  }

  /** The flag of a module record named by a trouble kind; `sim` matters only for the four kinds per SIM. */
  function NamedFlag(g: GsmPart, kind: Kind, sim: nat): bool
    requires GsmKind(kind)
  {
    match kind
    case GsmEthmStation1Error => g.ethmStation1
    case GsmEthmStation2Error => g.ethmStation2
    case GsmGprsSim1Station1Error => g.gprsSim1Station1
    case GsmGprsSim1Station2Error => g.gprsSim1Station2
    case GsmGprsSim2Station1Error => g.gprsSim2Station1
    case GsmGprsSim2Station2Error => g.gprsSim2Station2
    case GsmSmsSim1Station1Error => g.smsSim1Station1
    case GsmSmsSim1Station2Error => g.smsSim1Station2
    case GsmSmsSim2Station1Error => g.smsSim2Station1
    case GsmSmsSim2Station2Error => g.smsSim2Station2
    case GsmJamming => g.jamming
    case GsmSettingsCrcError => g.settingsCrc
    case GsmModuleMissing => g.missing
    case GsmModuleChanged => g.changed
    case GsmServerConnError => g.serverConn
    case GsmMailServerConnError => g.mailServerConn
    case GsmNtpServerConnError => g.ntpServerConn
    case GsmSimPinError => if sim == 1 then g.wrongSim1Pin else g.wrongSim2Pin
    case GsmSimLoggingError => if sim == 1 then g.sim1Logging else g.sim2Logging
    case GsmSimCreditLow => if sim == 1 then g.sim1Credit else g.sim2Credit
    case GsmSimSmsError => if sim == 1 then g.sim1Sms else g.sim2Sms
  }

  function ModuleOf(trouble: Trouble): nat
  {
    match trouble
    case Numbered(_, m) => m
    case OnSim(_, m, _) => m
    case _ => 8
  }

  function FieldOfPart1(p: Parts, trouble: Trouble): Option<Value>
    requires p.Part1Data?
  {
    match trouble
    case Numbered(TechnicalZoneTrouble, n) => AtBit(p.technicalZones, n - 1)
    case Numbered(ExpanderAcLoss, n) => AtBit(p.expandersAc, n - 1)
    case Numbered(ExpanderBatteryLow, n) => AtBit(p.expandersBattery, n - 1)
    case Numbered(ExpanderBatteryMissing, n) => AtBit(p.expandersNoBattery, n - 1)
    case Numbered(_, _) => OfMainBoard(p.mainBoard, trouble)
    case Plain(kind) =>
      if OfMainBoard(p.mainBoard, trouble).Some? then OfMainBoard(p.mainBoard, trouble)
      else OfEthmPtsa(p.ethmPtsa, kind)
    case _ => None
  }

  function FieldOfPart4(p: Parts, trouble: Trouble): Option<Value>
    requires p.Part4Data?
  {
    match trouble
    case Numbered(ExpanderNoComm, n) => AtBit(p.expandersNoComm, n - 1)
    case Numbered(ExpanderSubstituted, n) => AtBit(p.expandersSubstituted, n - 1)
    case Numbered(KeypadNoComm, n) => AtBit(p.keypadsNoComm, n - 1)
    case Numbered(KeypadSubstituted, n) => AtBit(p.keypadsSubstituted, n - 1)
    case Numbered(EthmNoLanCable, n) => AtBit(p.ethmNoLan, n - 1)
    case Numbered(ExpanderTamper, n) => AtBit(p.expandersTamper, n - 1)
    case Numbered(KeypadTamper, n) => AtBit(p.keypadsTamper, n - 1)
    case Numbered(KeypadInitError, n) => AtBit(p.keypadInitErrors, n - 1)
    case Plain(AuxiliaryStmTroubles) => Some(Active(p.auxiliaryStm != 0))
    case _ => None
  }

  function FieldOfFlag(p: Parts, trouble: Trouble, mem: bool): Option<Value>
  {
    match p
    case Part1Data(isMemory, _, _, _, _, _, _) => if mem == isMemory then FieldOfPart1(p, trouble) else None
    case Part2Data(headA, headB, overload, jammed) =>
      if mem then None else
      (match trouble
       case Numbered(ExpanderCardReaderHeadA, n) => AtBit(headA, n - 1)
       case Numbered(ExpanderCardReaderHeadB, n) => AtBit(headB, n - 1)
       case Numbered(ExpanderSupplyOverload, n) => AtBit(overload, n - 1)
       case Numbered(ExpanderAcuJammedOrShortCircuit, n) => AtBit(jammed, n - 1)
       case _ => None)
    case MemoryPart2Data(headA, headB, overload, jammed, keypadRestart, expanderRestart, _, _) =>
      if !mem then None else
      (match trouble
       case Numbered(ExpanderCardReaderHeadA, n) => AtBit(headA, n - 1)
       case Numbered(ExpanderCardReaderHeadB, n) => AtBit(headB, n - 1)
       case Numbered(ExpanderSupplyOverload, n) => AtBit(overload, n - 1)
       case Numbered(ExpanderAcuJammedOrShortCircuit, n) => AtBit(jammed, n - 1)
       case Numbered(KeypadRestart, n) => AtBit(keypadRestart, n - 1)
       case Numbered(ExpanderRestart, n) => AtBit(expanderRestart, n - 1)
       case _ => None)
    case Part3Data(_, lowBattery, noComm, outputsNoComm) =>
      if mem then None else OfWireless(trouble, 17, lowBattery, noComm, outputsNoComm)
    case MemoryPart3Data(jammed, jammedMemory, lowBattery, noComm, outputsNoComm) =>
      (match trouble
       case Numbered(ExpanderAcuJammedOrShortCircuit, n) => AtBit(if mem then jammedMemory else jammed, n - 17)
       case _ => if !mem then None else OfWireless(trouble, 17, lowBattery, noComm, outputsNoComm))
    case Part4Data(isMemory, _, _, _, _, _, _, _, _, _) => if mem == isMemory then FieldOfPart4(p, trouble) else None
    case Part5Data(masters, users) =>
      if mem then None else
      (match trouble
       case Numbered(MasterKeyFobLowBattery, n) => AtBit(masters, n - 1)
       case Numbered(UserKeyFobLowBattery, n) => AtBit(users, n - 1)
       case _ => None)
    case Part6Data(isMemory, lowBattery, noComm, outputsNoComm) =>
      if mem == isMemory then OfWireless(trouble, 137, lowBattery, noComm, outputsNoComm) else None
    case Part7Data(zones, zonesMemory, _) =>
      (match trouble
       case Numbered(TechnicalZoneTrouble, n) => AtBit(if mem then zonesMemory else zones, n - 129)
       case _ => None)
    case ZoneMemoryData(upperHalf, longViolation, noViolation, tamper) =>
      var first := if upperHalf then 129 else 1;
      if !mem then None else
      (match trouble
       case Numbered(ZoneLongViolationTrouble, n) => AtBit(longViolation, n - first)
       case Numbered(ZoneNoViolationTrouble, n) => AtBit(noViolation, n - first)
       case Numbered(ZoneTamperTrouble, n) => AtBit(tamper, n - first)
       case _ => None)
    case Part8Data(isMemory, modules) =>
      if mem == isMemory && ModuleOf(trouble) < |modules| then OfGsm(modules[ModuleOf(trouble)], trouble) else None
  }

  function OfWireless(trouble: Trouble, first: nat, lowBattery: seq<bool>, noComm: seq<bool>,
                      outputsNoComm: seq<bool>): Option<Value>
  {
    match trouble
    case Numbered(WirelessDeviceLowBattery, n) => AtBit(lowBattery, n - first)
    case Numbered(WirelessDeviceNoComm, n) => AtBit(noComm, n - first)
    case Numbered(WirelessOutputNoComm, n) => AtBit(outputsNoComm, n - first)
    case _ => None
  }

  /** The typed field that belongs to a cache key, if the record has one of its own. */
  function FieldOf(p: Parts, k: Key): Option<Value>
  {
    match k
    case Flag(trouble, mem) => FieldOfFlag(p, trouble, mem)
    case JamLevel(n) =>
      if p.Part3Data? then AtLevel(p.jamLevels, n - 1)
      else if p.Part7Data? then AtLevel(p.jamLevels, n - 16) else None
    case CmeCode(Panel, sim, mem) =>
      if p.MemoryPart2Data? && sim == 1 then Some(Code(if mem then p.cmeMemory else p.cme)) else None
    case CmeCode(GsmModule(m), sim, mem) =>
      if p.Part8Data? && mem == p.isMemory && m < |p.modules| && IsSim(sim)
      then Some(Code(if sim == 1 then p.modules[m].sim1Cme else p.modules[m].sim2Cme)) else None
  }

  /** Keys without a field of their own: reserved bits, and the modules merged into one bool. */
  predicate HasField(k: Key)
  {
    !k.IsGeneric()
    && !(k.Flag? && k.trouble.Numbered?
         && k.trouble.kind in {EthmPingTrouble, EthmServerIdError, EthmSatelServerConnectionError})
  }

  // ---------- Agreement ----------

  lemma SystemByte0(d: seq<byte>, i: nat)
    requires 47 <= |d| && 0 <= i < 8
    ensures OfMainBoard(ReadMainBoard(d[40], d[41], d[42]), SYSTEM[i]) == Some(Active(BitAt(d, 320 + i)))
  {
    hide Bit;
    assert (320 + i) / 8 == 40 && (320 + i) % 8 == i - 0;
  }

  lemma SystemByte1(d: seq<byte>, i: nat)
    requires 47 <= |d| && 8 <= i < 16
    ensures OfMainBoard(ReadMainBoard(d[40], d[41], d[42]), SYSTEM[i]) == Some(Active(BitAt(d, 320 + i)))
  {
    hide Bit;
    assert (320 + i) / 8 == 41 && (320 + i) % 8 == i - 8;
  }

  lemma SystemByte2(d: seq<byte>, i: nat)
    requires 47 <= |d| && 16 <= i < 24
    ensures OfMainBoard(ReadMainBoard(d[40], d[41], d[42]), SYSTEM[i]) == Some(Active(BitAt(d, 320 + i)))
  {
    hide Bit;
    assert (320 + i) / 8 == 42 && (320 + i) % 8 == i - 16;
  }

  lemma SystemAgrees(d: seq<byte>, i: nat)
    requires 47 <= |d| && i < 24
    ensures OfMainBoard(ReadMainBoard(d[40], d[41], d[42]), SYSTEM[i]) == Some(Active(BitAt(d, 320 + i)))
  {
    hide OfMainBoard, ReadMainBoard, BitAt;
    if i < 8 {
      SystemByte0(d, i);
    } else if i < 16 {
      SystemByte1(d, i);
    } else {
      SystemByte2(d, i);
    }
  }

  lemma PtsaAgrees(d: seq<byte>, i: nat)
    requires 47 <= |d| && i < 8
    ensures OfEthmPtsa(ReadEthmPtsa(d[43], d[44], d[45], d[46]), ETHM_PTSA[i]) == Some(Active(BitAt(d, 368 + i)))
  {
    hide Bit;
    assert (368 + i) / 8 == 46 && (368 + i) % 8 == i;
  }

  lemma PtsaIsNotMainBoard(b: MainBoard, i: nat)
    requires i < 8
    ensures OfMainBoard(b, Plain(ETHM_PTSA[i])).None?
  {
  }

  lemma Part1Agrees(m: bool, d: seq<byte>, j: nat, i: nat)
    requires 47 <= |d| && j < |Part1(m)| && i < SlotCount(Part1(m)[j])
    requires HasField(SlotKey(Part1(m)[j], i))
    ensures FieldOf(ProcessPart1(d, m).value, SlotKey(Part1(m)[j], i)) == Some(SlotValue(Part1(m)[j], d, i))
  {
    hide BitAt;
    hide ReadMainBoard, ReadEthmPtsa, OfMainBoard, OfEthmPtsa;
    if j == 4 {
      SystemAgrees(d, i);
    } else if j == 8 {
      PtsaAgrees(d, i);
      PtsaIsNotMainBoard(ReadMainBoard(d[40], d[41], d[42]), i);
    }
  }

  lemma Part2Agrees(d: seq<byte>, j: nat, i: nat)
    requires 26 <= |d| && j < |Part2State()| && i < SlotCount(Part2State()[j])
    ensures FieldOf(ProcessPart2(d).value, SlotKey(Part2State()[j], i)) == Some(SlotValue(Part2State()[j], d, i))
  {
    hide BitAt, Bit, FieldOfPart1, FieldOfPart4, OfWireless, OfGsm, ModuleOf, AtLevel, BigEndian,
      ReadModules, ReadMainBoard, ReadEthmPtsa;
  }

  lemma MemoryPart2AgreesLow(d: seq<byte>, j: nat, i: nat)
    requires 39 <= |d| && j < |Part2Memory()| && i < SlotCount(Part2Memory()[j])
    requires j < 3
    ensures FieldOf(ProcessMemoryPart2(d).value, SlotKey(Part2Memory()[j], i))
         == Some(SlotValue(Part2Memory()[j], d, i))
  {
    hide BitAt, Bit, FieldOfPart1, FieldOfPart4, OfWireless, OfGsm, ModuleOf, AtLevel, ReadModules,
      ReadMainBoard, ReadEthmPtsa;
  }

  lemma MemoryPart2AgreesHigh(d: seq<byte>, j: nat, i: nat)
    requires 39 <= |d| && j < |Part2Memory()| && i < SlotCount(Part2Memory()[j])
    requires !(j < 3)
    ensures FieldOf(ProcessMemoryPart2(d).value, SlotKey(Part2Memory()[j], i))
         == Some(SlotValue(Part2Memory()[j], d, i))
  {
    hide BitAt, Bit, FieldOfPart1, FieldOfPart4, OfWireless, OfGsm, ModuleOf, AtLevel, ReadModules,
      ReadMainBoard, ReadEthmPtsa;
  }

  lemma MemoryPart2Agrees(d: seq<byte>, j: nat, i: nat)
    requires 39 <= |d| && j < |Part2Memory()| && i < SlotCount(Part2Memory()[j])
    ensures FieldOf(ProcessMemoryPart2(d).value, SlotKey(Part2Memory()[j], i))
         == Some(SlotValue(Part2Memory()[j], d, i))
  {
    hide FieldOf, SlotKey, SlotValue;
    if j < 3 {
      MemoryPart2AgreesLow(d, j, i);
    } else {
      MemoryPart2AgreesHigh(d, j, i);
    }
  }

  lemma Part3AgreesLow(d: seq<byte>, j: nat, i: nat)
    requires 60 <= |d| && j < |Part3State()| && i < SlotCount(Part3State()[j])
    requires j < 2
    ensures FieldOf(ProcessPart3(d).value, SlotKey(Part3State()[j], i)) == Some(SlotValue(Part3State()[j], d, i))
  {
    hide BitAt, Bit, FieldOfPart1, FieldOfPart4, OfGsm, ModuleOf, BigEndian, ReadModules, ReadMainBoard,
      ReadEthmPtsa;
  }

  lemma Part3AgreesHigh(d: seq<byte>, j: nat, i: nat)
    requires 60 <= |d| && j < |Part3State()| && i < SlotCount(Part3State()[j])
    requires !(j < 2)
    ensures FieldOf(ProcessPart3(d).value, SlotKey(Part3State()[j], i)) == Some(SlotValue(Part3State()[j], d, i))
  {
    hide BitAt, Bit, FieldOfPart1, FieldOfPart4, OfGsm, ModuleOf, BigEndian, ReadModules, ReadMainBoard,
      ReadEthmPtsa;
  }

  lemma Part3Agrees(d: seq<byte>, j: nat, i: nat)
    requires 60 <= |d| && j < |Part3State()| && i < SlotCount(Part3State()[j])
    ensures FieldOf(ProcessPart3(d).value, SlotKey(Part3State()[j], i)) == Some(SlotValue(Part3State()[j], d, i))
  {
    hide FieldOf, SlotKey, SlotValue;
    if j < 2 {
      Part3AgreesLow(d, j, i);
    } else {
      Part3AgreesHigh(d, j, i);
    }
  }

  lemma MemoryPart3Agrees(d: seq<byte>, j: nat, i: nat)
    requires 60 <= |d| && j < |Part3Memory()| && i < SlotCount(Part3Memory()[j])
    ensures FieldOf(ProcessMemoryPart3(d).value, SlotKey(Part3Memory()[j], i))
         == Some(SlotValue(Part3Memory()[j], d, i))
  {
    hide BitAt, Bit, FieldOfPart1, FieldOfPart4, OfGsm, ModuleOf, AtLevel, BigEndian, ReadModules,
      ReadMainBoard, ReadEthmPtsa;
  }

  lemma Part4AgreesLow(m: bool, d: seq<byte>, j: nat, i: nat)
    requires 30 <= |d| && j < |Part4(m)| && i < SlotCount(Part4(m)[j])
    requires j < 4
    ensures FieldOf(ProcessPart4(d, m).value, SlotKey(Part4(m)[j], i)) == Some(SlotValue(Part4(m)[j], d, i))
  {
    hide BitAt, Bit, FieldOfPart1, OfWireless, OfGsm, ModuleOf, AtLevel, BigEndian, ReadModules,
      ReadMainBoard, ReadEthmPtsa;
  }

  lemma Part4AgreesHigh(m: bool, d: seq<byte>, j: nat, i: nat)
    requires 30 <= |d| && j < |Part4(m)| && i < SlotCount(Part4(m)[j])
    requires !(j < 4)
    ensures FieldOf(ProcessPart4(d, m).value, SlotKey(Part4(m)[j], i)) == Some(SlotValue(Part4(m)[j], d, i))
  {
    hide BitAt, Bit, FieldOfPart1, OfWireless, OfGsm, ModuleOf, AtLevel, BigEndian, ReadModules,
      ReadMainBoard, ReadEthmPtsa;
  }

  lemma Part4Agrees(m: bool, d: seq<byte>, j: nat, i: nat)
    requires 30 <= |d| && j < |Part4(m)| && i < SlotCount(Part4(m)[j])
    ensures FieldOf(ProcessPart4(d, m).value, SlotKey(Part4(m)[j], i)) == Some(SlotValue(Part4(m)[j], d, i))
  {
    hide FieldOf, SlotKey, SlotValue;
    if j < 4 {
      Part4AgreesLow(m, d, j, i);
    } else {
      Part4AgreesHigh(m, d, j, i);
    }
  }

  lemma Part5Agrees(d: seq<byte>, j: nat, i: nat)
    requires 31 <= |d| && j < |Part5State()| && i < SlotCount(Part5State()[j])
    ensures FieldOf(ProcessPart5(d).value, SlotKey(Part5State()[j], i)) == Some(SlotValue(Part5State()[j], d, i))
  {
    hide BitAt, Bit, FieldOfPart1, FieldOfPart4, OfWireless, OfGsm, ModuleOf, AtLevel, BigEndian,
      ReadModules, ReadMainBoard, ReadEthmPtsa;
  }

  lemma Part6Agrees(m: bool, d: seq<byte>, j: nat, i: nat)
    requires 45 <= |d| && j < |Part6(m)| && i < SlotCount(Part6(m)[j])
    ensures FieldOf(ProcessPart6(d, m).value, SlotKey(Part6(m)[j], i)) == Some(SlotValue(Part6(m)[j], d, i))
  {
    hide BitAt, Bit, FieldOfPart1, FieldOfPart4, OfGsm, ModuleOf, AtLevel, BigEndian, ReadModules,
      ReadMainBoard, ReadEthmPtsa;
  }

  lemma Part7Agrees(d: seq<byte>, j: nat, i: nat)
    requires 47 <= |d| && j < |Part7State()| && i < SlotCount(Part7State()[j])
    ensures FieldOf(ProcessPart7(d).value, SlotKey(Part7State()[j], i)) == Some(SlotValue(Part7State()[j], d, i))
  {
    hide BitAt, Bit, FieldOfPart1, FieldOfPart4, OfWireless, OfGsm, ModuleOf, BigEndian, ReadModules,
      ReadMainBoard, ReadEthmPtsa;
  }

  lemma ZoneMemoryAgrees(upper: bool, d: seq<byte>, j: nat, i: nat)
    requires 48 <= |d| && j < |ZoneMemory(if upper then 129 else 1)|
    requires i < SlotCount(ZoneMemory(if upper then 129 else 1)[j])
    ensures var rule := ZoneMemory(if upper then 129 else 1)[j];
      FieldOf(ProcessZoneMemory(d, upper).value, SlotKey(rule, i)) == Some(SlotValue(rule, d, i))
  {
    hide BitAt, Bit, FieldOfPart1, FieldOfPart4, OfWireless, OfGsm, ModuleOf, AtLevel, BigEndian,
      ReadModules, ReadMainBoard, ReadEthmPtsa;
  }

  /** The flag of a module record that stands for a bit of its chunk. */
  function GsmFlag(g: GsmPart, bit: nat): bool
    requires bit < 25
  {
    match bit
    case 0 => g.ethmStation1
    case 1 => g.ethmStation2
    case 2 => g.gprsSim1Station1
    case 3 => g.gprsSim1Station2
    case 4 => g.gprsSim2Station1
    case 5 => g.gprsSim2Station2
    case 6 => g.smsSim1Station1
    case 7 => g.smsSim1Station2
    case 8 => g.smsSim2Station1
    case 9 => g.smsSim2Station2
    case 10 => g.wrongSim1Pin
    case 11 => g.wrongSim2Pin
    case 12 => g.sim1Logging
    case 13 => g.sim2Logging
    case 14 => g.sim1Credit
    case 15 => g.sim2Credit
    case 16 => g.sim1Sms
    case 17 => g.sim2Sms
    case 18 => g.jamming
    case 19 => g.settingsCrc
    case 20 => g.missing
    case 21 => g.changed
    case 22 => g.serverConn
    case 23 => g.mailServerConn
    case _ => g.ntpServerConn
  }

  lemma GsmKinds(m: nat, r: nat)
    requires r < 25
    ensures match GsmTrouble(m, r)
      case Numbered(kind, _) => GsmKind(kind) && !SimKind(kind)
      case OnSim(kind, _, sim) => SimKind(kind) && IsSim(sim)
      case _ => false
  {
  }

  lemma NamedFlagAtBit(g: GsmPart, kind: Kind, sim: nat)
    requires GsmKind(kind) && (SimKind(kind) ==> IsSim(sim))
    ensures GsmBit(kind, sim) < 25 && NamedFlag(g, kind, sim) == GsmFlag(g, GsmBit(kind, sim))
  {
  }

  lemma GsmNames(g: GsmPart, m: nat, r: nat)
    requires r < 25
    ensures OfGsm(g, GsmTrouble(m, r)) == Some(Active(GsmFlag(g, r)))
  {
    hide GsmTrouble, GsmKind, SimKind, NamedFlag, GsmFlag, GsmBit;
    GsmKinds(m, r);
    GsmKindAtHome(m, r);
    match GsmTrouble(m, r)
    case Numbered(kind, _) => NamedFlagAtBit(g, kind, 0);
    case OnSim(kind, _, sim) => NamedFlagAtBit(g, kind, sim);
  }

  lemma GsmByte0(c: seq<byte>, m: nat, r: nat)
    requires |c| == 8 && 0 <= r < 8
    ensures GsmFlag(ReadGsm(c, m), r) == Bit(c[0], r - 0)
  {
    hide Bit, BigEndian;
  }

  lemma GsmByte1(c: seq<byte>, m: nat, r: nat)
    requires |c| == 8 && 8 <= r < 16
    ensures GsmFlag(ReadGsm(c, m), r) == Bit(c[1], r - 8)
  {
    hide Bit, BigEndian;
  }

  lemma GsmByte2(c: seq<byte>, m: nat, r: nat)
    requires |c| == 8 && 16 <= r < 24
    ensures GsmFlag(ReadGsm(c, m), r) == Bit(c[2], r - 16)
  {
    hide Bit, BigEndian;
  }

  lemma GsmAgrees(c: seq<byte>, m: nat, r: nat)
    requires |c| == 8 && r < 25
    ensures OfGsm(ReadGsm(c, m), GsmTrouble(m, r)) == Some(Active(BitAt(c, r)))
  {
    hide Bit, ReadGsm, GsmTrouble, OfGsm, GsmFlag;
    GsmNames(ReadGsm(c, m), m, r);
    if r < 8 {
      GsmByte0(c, m, r);
    } else if r < 16 {
      GsmByte1(c, m, r);
    } else if r < 24 {
      GsmByte2(c, m, r);
    } else {
      GsmLastBit(c, m);
    }
  }

  lemma GsmLastBit(c: seq<byte>, m: nat)
    requires |c| == 8
    ensures GsmFlag(ReadGsm(c, m), 24) == Bit(c[3], 0)
  {
    hide Bit, BigEndian;
  }

  lemma Part8Agrees(m: bool, d: seq<byte>, j: nat, i: nat)
    requires 64 <= |d| && j < |Part8(m)| && i < SlotCount(Part8(m)[j])
    requires HasField(SlotKey(Part8(m)[j], i))
    ensures FieldOf(ProcessPart8(d, m).value, SlotKey(Part8(m)[j], i)) == Some(SlotValue(Part8(m)[j], d, i))
  {
    hide OfGsm, BitAt, GsmTrouble, ReadGsm, BigEndian;
    var a, r := i / GSM_SLOTS, i % GSM_SLOTS;
    var c := d[8 * a..8 * a + 8];
    if r < 25 {
      GsmAgrees(c, a, r);
      BitOfChunk(d, a, r);
      GsmModuleNumber(a, r);
    } else if r < 32 {
      GsmReserved(a, r);
    } else {
      GsmCodes(c, a);
      assert c[4] == d[8 * a + 4] && c[5] == d[8 * a + 5] && c[6] == d[8 * a + 6] && c[7] == d[8 * a + 7];
    }
  }

  lemma GsmReserved(m: nat, r: nat)
    requires 25 <= r < 32
    ensures GsmTrouble(m, r).GenericTrouble?
  {
  }

  lemma GsmCodes(c: seq<byte>, m: nat)
    requires |c| == 8
    ensures ReadGsm(c, m).sim1Cme == BigEndian(c[4], c[5]) && ReadGsm(c, m).sim2Cme == BigEndian(c[6], c[7])
  {
  }

  lemma GsmModuleNumber(m: nat, r: nat)
    requires r < 25
    ensures !GsmTrouble(m, r).GenericTrouble? && ModuleOf(GsmTrouble(m, r)) == m
  {
  }

  lemma BitOfChunk(d: seq<byte>, a: nat, r: nat)
    requires 8 * a + 8 <= |d| && r < 64
    ensures BitAt(d[8 * a..8 * a + 8], r) == BitAt(d, 64 * a + r)
  {
    assert (64 * a + r) / 8 == 8 * a + r / 8 && (64 * a + r) % 8 == r % 8;
  }

  /** Both decoders accept the same frames. */
  lemma SameFramesAccepted(frame: seq<byte>)
    ensures ProcessTroublesFrame(frame).Some? <==> frame != [] && Accepts(frame[0], frame[1..])
  {
  }

  /** Main result: in every accepted frame each item of the table-driven decoder that has a typed
  field of its own carries exactly the value of that field. */
  lemma DecodersAgree(cmd: byte, d: seq<byte>, j: nat, i: nat)
    requires Accepts(cmd, d) && j < |GetRules(cmd).value.rules| && i < SlotCount(GetRules(cmd).value.rules[j])
    requires HasField(SlotKey(GetRules(cmd).value.rules[j], i))
    ensures ProcessTroublesFrame([cmd] + d).Some?
    ensures var item := Slot(GetRules(cmd).value.rules[j], d, i);
      FieldOf(ProcessTroublesFrame([cmd] + d).value, item.key) == Some(item.value)
  {
    hide FieldOf, SlotKey, SlotValue, SlotCount, HasField, Part1, Part2State, Part2Memory, Part3State, Part3Memory,
      Part4, Part5State, Part6, Part7State, ZoneMemory, Part8;
    SameFramesAccepted([cmd] + d);
    assert ([cmd] + d)[1..] == d;
    match cmd
    case 0x1B => Part1Agrees(false, d, j, i);
    case 0x20 => Part1Agrees(true, d, j, i);
    case 0x1C => Part2Agrees(d, j, i);
    case 0x21 => MemoryPart2Agrees(d, j, i);
    case 0x1D => Part3Agrees(d, j, i);
    case 0x22 => MemoryPart3Agrees(d, j, i);
    case 0x1E => Part4Agrees(false, d, j, i);
    case 0x23 => Part4Agrees(true, d, j, i);
    case 0x1F => Part5Agrees(d, j, i);
    case 0x24 => ZoneMemoryAgrees(false, d, j, i);
    case 0x2C => Part6Agrees(false, d, j, i);
    case 0x2E => Part6Agrees(true, d, j, i);
    case 0x2D => Part7Agrees(d, j, i);
    case 0x2F => ZoneMemoryAgrees(true, d, j, i);
    case 0x30 => Part8Agrees(false, d, j, i);
    case 0x31 => Part8Agrees(true, d, j, i);
    case _ =>
  }

  /** The three module bytes of part 1 merged into one bool each: the bool says that at least one
  of the eight flags of the table-driven decoder is active. */
  lemma MergedModulesAgree(d: seq<byte>, m: bool)
    requires 47 <= |d|
    ensures var p := ProcessPart1(d, m).value.ethmPtsa;
      && (p.ethmPing <==> exists i: nat :: i < 8 && SlotValue(Part1(m)[5], d, i) == Active(true))
      && (p.serverId <==> exists i: nat :: i < 8 && SlotValue(Part1(m)[6], d, i) == Active(true))
      && (p.noServerConnection <==> exists i: nat :: i < 8 && SlotValue(Part1(m)[7], d, i) == Active(true))
  {
    SomeModuleFlag(d, m, 5);
    SomeModuleFlag(d, m, 6);
    SomeModuleFlag(d, m, 7);
  }

  lemma SomeModuleFlag(d: seq<byte>, m: bool, j: nat)
    requires 47 <= |d| && 5 <= j <= 7
    ensures d[38 + j] != 0 <==> exists i: nat :: i < 8 && SlotValue(Part1(m)[j], d, i) == Active(true)
  {
    hide Bit;
    NonZeroByte(d[38 + j]);
    var rule := Part1(m)[j];
    forall i: nat | i < 8 ensures SlotValue(rule, d, i) == Active(Bit(d[38 + j], i)) {
      assert (8 * (38 + j) + i) / 8 == 38 + j && (8 * (38 + j) + i) % 8 == i;
    }
    if d[38 + j] != 0 {
      var bit :| 0 <= bit < 8 && Bit(d[38 + j], bit);
      assert SlotValue(rule, d, bit) == Active(true);
    }
  }
}
