/** The per-zone temperature circuit breaker: when a faulty probe is still queried over the
network, when queries are rejected, and when a blocked probe gets another try. */
module Breaker {
  import opened Bytes

  type u32 = i: int | 0 <= i < 0x1_0000_0000

  function Increment(x: u32): u32 { if x == 0xFFFF_FFFF then 0 else x + 1 }

  function Decrement(x: u32): u32 { if x == 0 then 0 else x - 1 }

  datatype Status =
    | NoRead | Reading | SensorMissing | CommunicationError
    | BlockSensorMissing | BlockCommunicationError | RetryRead

  datatype Limits = Limits(maxTimeout: u32, maxSensor: u32, unblockEnabled: bool, unblockAfter: u32)
  {
    predicate Positive() { 1 <= maxTimeout && 1 <= maxSensor }
  }

  /** The temperature fields of one cached zone. */
  datatype Zone = Zone(status: Status, timeoutsTotal: u32, faultsTotal: u32,
                       timeouts: u32, faults: u32, blockedCycles: u32)

  const FRESH := Zone(NoRead, 0, 0, 0, 0, 0)
  const ZONES := 256

  /** What the network exchange of a query ends in; a reading names the zone of the reply. */
  datatype Answer = Temperature(replyId: nat) | TimedOut | SensorFault | OtherError

  datatype Reply = Read | Rejected | Unblocked | QueryFailed

  // ---------- Transitions of one zone ----------

  predicate Blocked(z: Zone, limits: Limits)
  {
    || z.status == BlockSensorMissing || z.status == BlockCommunicationError
    || z.timeouts >= limits.maxTimeout || z.faults >= limits.maxSensor
  }

  predicate GetsAnotherTry(z: Zone, limits: Limits)
  {
    limits.unblockEnabled && Increment(z.blockedCycles) >= limits.unblockAfter
  }

  function Unblock(z: Zone, limits: Limits): Zone
  {
    z.(timeouts := if z.timeouts >= limits.maxTimeout then Decrement(z.timeouts) else z.timeouts,
       faults := if z.faults >= limits.maxSensor then Decrement(z.faults) else z.faults,
       status := RetryRead, blockedCycles := 0)
  }

  function Reject(z: Zone, limits: Limits): Zone
  {
    z.(status := if z.status == BlockSensorMissing || z.timeouts >= limits.maxTimeout
                 then BlockSensorMissing else BlockCommunicationError,
       blockedCycles := Increment(z.blockedCycles))
  }

  function AfterTimeout(z: Zone, limits: Limits): Zone
  {
    var n := Increment(z.timeouts);
    z.(timeoutsTotal := Increment(z.timeoutsTotal), timeouts := n,
       status := if n >= limits.maxTimeout then BlockSensorMissing else SensorMissing,
       blockedCycles := if n >= limits.maxTimeout then 0 else z.blockedCycles)
  }

  function AfterFault(z: Zone, limits: Limits): Zone
  {
    var n := Increment(z.faults);
    z.(faultsTotal := Increment(z.faultsTotal), faults := n,
       status := if n >= limits.maxSensor then BlockCommunicationError else CommunicationError,
       blockedCycles := if n >= limits.maxSensor then 0 else z.blockedCycles)
  }

  function AfterSuccess(z: Zone): Zone
  {
    z.(status := Reading, blockedCycles := 0,
       timeouts := Decrement(z.timeouts), faults := Decrement(z.faults))
  }

  function AfterReset(z: Zone): Zone
  {
    z.(status := NoRead, timeouts := 0, faults := 0, blockedCycles := 0)
  }

  /** What one call does to the zone it writes. */
  datatype Change = Rejects | GrantsTry | CountsTimeout | CountsFault | Succeeds | Resets | Nothing

  function After(z: Zone, limits: Limits, change: Change): Zone
  {
    match change
    case Rejects => Reject(z, limits)
    case GrantsTry => Unblock(z, limits)
    case CountsTimeout => AfterTimeout(z, limits)
    case CountsFault => AfterFault(z, limits)
    case Succeeds => AfterSuccess(z)
    case Resets => AfterReset(z)
    case Nothing => z
  }

  // ---------- The cache of all zones, updated in place ----------

  /** `(zone_id.wrapping_sub(1) % 256)` on 16-bit zone numbers. */
  function Slot(zoneId: nat): (slot: nat)
    ensures slot < ZONES
    ensures 1 <= zoneId <= ZONES ==> slot == zoneId - 1
    ensures (slot + 1) % ZONES == zoneId % ZONES
  {
    if zoneId == 0 then 255 else (zoneId - 1) % ZONES
  }

  /** The limits that `temp_limits` finds for a zone number: those of its probe, or the general ones. */
  type limitsByZone = nat -> Limits

  datatype Op = Query(zoneId: nat, answer: Answer) | ResetSensor(zoneId: nat)

  type cache = zs: seq<Zone> | |zs| == ZONES witness seq(ZONES, i => FRESH)

  /** The slot a call writes and what it does there. A blocked zone is not queried; a reading is
  stored under the zone number in the reply. */
  function Effect(zones: cache, all: limitsByZone, op: Op): (e: (nat, Change))
    ensures e.0 < ZONES
  {
    var slot, limits := Slot(op.zoneId), all(op.zoneId);
    match op
    case ResetSensor(_) => (slot, Resets)
    case Query(_, answer) =>
      if Blocked(zones[slot], limits) then
        (slot, if GetsAnotherTry(zones[slot], limits) then GrantsTry else Rejects)
      else
        match answer
        case Temperature(replyId) => (Slot(replyId), Succeeds)
        case TimedOut => (slot, CountsTimeout)
        case SensorFault => (slot, CountsFault)
        case OtherError => (slot, Nothing)
  }

  function Apply(zones: cache, all: limitsByZone, op: Op): cache
  {
    var (slot, change) := Effect(zones, all, op);
    zones[slot := After(zones[slot], all(op.zoneId), change)]
  }

  function Start(): (zones: cache)
    ensures forall i :: 0 <= i < ZONES ==> zones[i] == FRESH
  {
    seq(ZONES, i => FRESH)
  }

  class TemperatureCache {
    const zones: array<Zone>
    const all: limitsByZone

    ghost predicate Valid()
      reads this
    {
      zones.Length == ZONES
    }

    constructor (all: limitsByZone)
      ensures Valid() && fresh(zones) && zones[..] == Start()
    {
      this.all := all;
      zones := new Zone[ZONES](i => FRESH);
    }

    /** `answer` is what the panel would answer if the query went out. */
    method GetZoneTemperatureWithBlocking(zoneId: nat, answer: Answer) returns (reply: Reply)
      requires Valid()
      modifies zones
      ensures zones[..] == Apply(old(zones[..]), all, Query(zoneId, answer))
      ensures reply == Rejected || reply == Unblocked <==> Blocked(old(zones[Slot(zoneId)]), all(zoneId))
      ensures reply == Unblocked ==> GetsAnotherTry(old(zones[Slot(zoneId)]), all(zoneId))
      ensures reply == Rejected ==> !GetsAnotherTry(old(zones[Slot(zoneId)]), all(zoneId))
      ensures reply == Read ==> answer.Temperature?
      ensures reply == QueryFailed ==> !answer.Temperature?
    {
      var limits := all(zoneId);
      var info := zones[Slot(zoneId)];
      var isBlocked := info.status == BlockSensorMissing || info.status == BlockCommunicationError
        || info.timeouts >= limits.maxTimeout || info.faults >= limits.maxSensor;
      if isBlocked {
        var newCycles := Increment(info.blockedCycles);
        if limits.unblockEnabled && newCycles >= limits.unblockAfter {
          if info.timeouts >= limits.maxTimeout {
            zones[Slot(zoneId)] := zones[Slot(zoneId)].(timeouts := Decrement(info.timeouts));
          }
          if info.faults >= limits.maxSensor {
            zones[Slot(zoneId)] := zones[Slot(zoneId)].(faults := Decrement(info.faults));
          }
          zones[Slot(zoneId)] := zones[Slot(zoneId)].(status := RetryRead, blockedCycles := 0);
          return Unblocked;
        }
        var status := if info.status == BlockSensorMissing || info.timeouts >= limits.maxTimeout
                      then BlockSensorMissing else BlockCommunicationError;
        zones[Slot(zoneId)] := zones[Slot(zoneId)].(status := status, blockedCycles := newCycles);
        return Rejected;
      }
      match answer
      case Temperature(replyId) =>
        UpdateTemperatureSuccess(replyId);
        reply := Read;
      case _ =>
        UpdateTempError(zoneId, answer);
        reply := QueryFailed;
    }

    method UpdateTemperatureSuccess(id: nat)
      requires Valid()
      modifies zones
      ensures zones[..] == old(zones[..])[Slot(id) := AfterSuccess(old(zones[Slot(id)]))]
    {
      var z := zones[Slot(id)].(status := Reading, blockedCycles := 0);
      if z.timeouts > 0 {
        z := z.(timeouts := z.timeouts - 1);
      }
      if z.faults > 0 {
        z := z.(faults := z.faults - 1);
      }
      zones[Slot(id)] := z;
    }

    method UpdateTempError(zoneId: nat, error: Answer)
      requires Valid() && !error.Temperature?
      modifies zones
      ensures zones[..] == match error
        case TimedOut => old(zones[..])[Slot(zoneId) := AfterTimeout(old(zones[Slot(zoneId)]), all(zoneId))]
        case SensorFault => old(zones[..])[Slot(zoneId) := AfterFault(old(zones[Slot(zoneId)]), all(zoneId))]
        case _ => old(zones[..])
    {
      var limits, z := all(zoneId), zones[Slot(zoneId)];
      match error
      case TimedOut =>
        z := z.(timeoutsTotal := Increment(z.timeoutsTotal), timeouts := Increment(z.timeouts));
        if z.timeouts >= limits.maxTimeout {
          z := z.(status := BlockSensorMissing, blockedCycles := 0);
        } else {
          z := z.(status := SensorMissing);
        }
        zones[Slot(zoneId)] := z;
      case SensorFault =>
        z := z.(faultsTotal := Increment(z.faultsTotal), faults := Increment(z.faults));
        if z.faults >= limits.maxSensor {
          z := z.(status := BlockCommunicationError, blockedCycles := 0);
        } else {
          z := z.(status := CommunicationError);
        }
        zones[Slot(zoneId)] := z;
      case OtherError =>
    }

    method ResetTemperatureSensor(zoneId: nat) returns (ok: bool)
      requires Valid()
      modifies zones
      ensures ok <==> 1 <= zoneId <= ZONES
      ensures zones[..] == if ok then Apply(old(zones[..]), all, ResetSensor(zoneId)) else old(zones[..])
    {
      if zoneId == 0 || zoneId > ZONES {
        return false;
      }
      zones[Slot(zoneId)] := AfterReset(zones[Slot(zoneId)]);
      return true;
    }
  }

  // ---------- What holds of a zone over every run ----------

  predicate Healthy(z: Zone, limits: Limits)
  {
    && z.timeouts <= limits.maxTimeout && z.faults <= limits.maxSensor
    && !(z.timeouts == limits.maxTimeout && z.faults == limits.maxSensor)
    && (z.status == BlockSensorMissing <==> z.timeouts == limits.maxTimeout)
    && (z.status == BlockCommunicationError <==> z.faults == limits.maxSensor)
    && (!Blocked(z, limits) ==> z.blockedCycles == 0)
  }

  function Run(zones: cache, all: limitsByZone, ops: seq<Op>): cache
  {
    if ops == [] then zones
    else Apply(Run(zones, all, ops[..|ops| - 1]), all, ops[|ops| - 1])
  }

  /** What has happened to one slot: failed network queries, rejected calls, tries granted,
  readings, resets, and by how much the two counters have been lowered. */
  datatype Ledger = Ledger(timeouts: nat, faults: nat, rejected: nat, granted: nat,
                           successes: nat, resets: nat, lowered: nat)
  {
    function Failed(): nat { timeouts + faults }
  }

  /** What one more call adds to the ledger of a slot, by what was asked and what was answered: a call
  for a blocked zone is rejected, and counts as a try granted once enough have been; any other call
  goes out, and its answer is a failure of the zone asked for or a reading of the zone that replied. */
  function Book(l: Ledger, before: cache, all: limitsByZone, op: Op, slot: nat): Ledger
    requires slot < ZONES
  {
    var z, limits := before[slot], all(op.zoneId);
    match op
    case ResetSensor(zoneId) =>
      if Slot(zoneId) == slot then l.(resets := l.resets + 1, lowered := l.lowered + z.timeouts + z.faults) else l
    case Query(zoneId, answer) =>
      if Blocked(before[Slot(zoneId)], limits) then
        if Slot(zoneId) != slot then l
        else
          var enough := limits.unblockEnabled && Increment(z.blockedCycles) >= limits.unblockAfter;
          l.(rejected := l.rejected + 1,
             granted := l.granted + (if enough then 1 else 0), lowered := l.lowered + (if enough then 1 else 0))
      else
        match answer
        case Temperature(replyId) =>
          if Slot(replyId) != slot then l
          else
            l.(successes := l.successes + 1,
               lowered := l.lowered + (if z.timeouts > 0 then 1 else 0) + (if z.faults > 0 then 1 else 0))
        case TimedOut => if Slot(zoneId) == slot then l.(timeouts := l.timeouts + 1) else l
        case SensorFault => if Slot(zoneId) == slot then l.(faults := l.faults + 1) else l
        case OtherError => l
  }

  /** The same, by what the call changes. */
  function Post(l: Ledger, z: Zone, change: Change): Ledger
  {
    match change
    case CountsTimeout => l.(timeouts := l.timeouts + 1)
    case CountsFault => l.(faults := l.faults + 1)
    case Rejects => l.(rejected := l.rejected + 1)
    case GrantsTry => l.(rejected := l.rejected + 1, granted := l.granted + 1, lowered := l.lowered + 1)
    case Succeeds =>
      l.(successes := l.successes + 1,
         lowered := l.lowered + (if z.timeouts > 0 then 1 else 0) + (if z.faults > 0 then 1 else 0))
    case Resets => l.(resets := l.resets + 1, lowered := l.lowered + z.timeouts + z.faults)
    case Nothing => l
  }

  const EMPTY := Ledger(0, 0, 0, 0, 0, 0, 0)

  /** The ledger of one slot over a run that starts with fresh zones. */
  function Account(all: limitsByZone, ops: seq<Op>, slot: nat): Ledger
    requires slot < ZONES
  {
    if ops == [] then EMPTY
    else
      var n := |ops| - 1;
      Book(Account(all, ops[..n], slot), Run(Start(), all, ops[..n]), all, ops[n], slot)
  }

  /** All calls for a slot run under the same limits. Each slot has one zone number from 1 to 256;
  the numbers beyond share its slot, but not its probe. */
  predicate SameLimits(all: limitsByZone, ops: seq<Op>, slot: nat, limits: Limits)
  {
    forall i :: 0 <= i < |ops| && Slot(ops[i].zoneId) == slot ==> all(ops[i].zoneId) == limits
  }

  /** A change the code makes to a zone in this state. */
  predicate Enabled(z: Zone, limits: Limits, change: Change)
  {
    match change
    case CountsTimeout => !Blocked(z, limits)
    case CountsFault => !Blocked(z, limits)
    case Rejects => Blocked(z, limits) && !GetsAnotherTry(z, limits)
    case GrantsTry => Blocked(z, limits) && GetsAnotherTry(z, limits)
    case _ => true
  }

  /** The totals have every failure, modulo 2^32. */
  predicate Totalled(z: Zone, l: Ledger)
  {
    z.timeoutsTotal == l.timeouts % 0x1_0000_0000 && z.faultsTotal == l.faults % 0x1_0000_0000
  }

  /** The books balance: every failure is still counted or has been taken off again ... */
  predicate Balanced(z: Zone, l: Ledger)
  {
    && l.Failed() == z.timeouts + z.faults + l.lowered
    && l.timeouts >= z.timeouts && l.faults >= z.faults
  }

  /** ... only readings, tries granted and resets take failures off ... */
  predicate LoweredBound(l: Ledger, limits: Limits)
    requires limits.Positive()
  {
    l.lowered <= l.granted + 2 * l.successes + Most(limits) * l.resets
  }

  /** ... and every try granted has been paid for with rejected calls. */
  predicate Paid(z: Zone, l: Ledger, limits: Limits)
  {
    && l.granted * limits.unblockAfter + z.blockedCycles <= l.rejected
    && (l.granted > 0 ==> limits.unblockEnabled)
  }

  predicate Invariant(z: Zone, l: Ledger, limits: Limits)
    requires limits.Positive()
  {
    Healthy(z, limits) && Balanced(z, l) && Totalled(z, l) && LoweredBound(l, limits) && Paid(z, l, limits)
  }

  /** The most failures the two counters can hold together. */
  function Most(limits: Limits): nat
    requires limits.Positive()
  {
    limits.maxTimeout + limits.maxSensor - 1
  }

  lemma StepHealthy(z: Zone, limits: Limits, change: Change)
    requires limits.Positive() && Healthy(z, limits) && Enabled(z, limits, change)
    ensures Healthy(After(z, limits, change), limits)
  {
  }

  lemma StepBalanced(z: Zone, l: Ledger, limits: Limits, change: Change)
    requires limits.Positive() && Healthy(z, limits) && Enabled(z, limits, change) && Balanced(z, l)
    ensures Balanced(After(z, limits, change), Post(l, z, change))
  {
  }

  lemma StepTotalled(z: Zone, l: Ledger, limits: Limits, change: Change)
    requires Totalled(z, l)
    ensures Totalled(After(z, limits, change), Post(l, z, change))
  {
    hide Blocked;
  }

  lemma StepLowered(z: Zone, l: Ledger, limits: Limits, change: Change)
    requires limits.Positive() && Healthy(z, limits) && LoweredBound(l, limits)
    ensures LoweredBound(Post(l, z, change), limits)
  {
    if change.Resets? {
      assert Most(limits) * (l.resets + 1) == Most(limits) * l.resets + Most(limits);
    }
  }

  lemma StepPaid(z: Zone, l: Ledger, limits: Limits, change: Change)
    requires limits.Positive() && Healthy(z, limits) && Enabled(z, limits, change) && Paid(z, l, limits)
    ensures Paid(After(z, limits, change), Post(l, z, change), limits)
  {
    if change.GrantsTry? {
      assert (l.granted + 1) * limits.unblockAfter == l.granted * limits.unblockAfter + limits.unblockAfter;
    }
  }

  /** One more call, on the values of one slot. */
  lemma StepKeepsInvariant(z: Zone, l: Ledger, limits: Limits, change: Change)
    requires limits.Positive() && Invariant(z, l, limits) && Enabled(z, limits, change)
    ensures Invariant(After(z, limits, change), Post(l, z, change), limits)
  {
    hide After, Post, Enabled, Healthy, Balanced, Totalled, LoweredBound, Paid;
    StepHealthy(z, limits, change);
    StepBalanced(z, l, limits, change);
    StepTotalled(z, l, limits, change);
    StepLowered(z, l, limits, change);
    StepPaid(z, l, limits, change);
  }

  /** What one more call does to the zone and the ledger of a slot. */
  lemma RunStep(all: limitsByZone, ops: seq<Op>, slot: nat)
    requires ops != [] && slot < ZONES
    ensures var n := |ops| - 1;
      var before, l := Run(Start(), all, ops[..n]), Account(all, ops[..n], slot);
      var (written, change) := Effect(before, all, ops[n]);
      && Run(Start(), all, ops)[slot]
           == (if written == slot then After(before[slot], all(ops[n].zoneId), change) else before[slot])
      && Account(all, ops, slot) == (if written == slot then Post(l, before[slot], change) else l)
  {
    hide After, Post, Effect, Book;
    var n := |ops| - 1;
    BookIsPost(Account(all, ops[..n], slot), Run(Start(), all, ops[..n]), all, ops[n], slot);
  }

  /** The books follow what is answered, the cache what a call changes: the two agree. */
  lemma BookIsPost(l: Ledger, before: cache, all: limitsByZone, op: Op, slot: nat)
    requires slot < ZONES
    ensures var (written, change) := Effect(before, all, op);
      Book(l, before, all, op, slot) == if written == slot then Post(l, before[slot], change) else l
  {
    hide Blocked, Slot;
  }

  lemma EffectIsEnabled(zones: cache, all: limitsByZone, op: Op, slot: nat, limits: Limits)
    requires slot < ZONES && (Slot(op.zoneId) == slot ==> all(op.zoneId) == limits)
    ensures var (written, change) := Effect(zones, all, op);
      written == slot ==>
        Enabled(zones[slot], limits, change)
        && After(zones[slot], all(op.zoneId), change) == After(zones[slot], limits, change)
  {
    hide Blocked, GetsAnotherTry, Slot;
  }

  lemma {:induction false} RunKeepsInvariant(all: limitsByZone, ops: seq<Op>, slot: nat, limits: Limits)
    requires limits.Positive() && slot < ZONES && SameLimits(all, ops, slot, limits)
    ensures Invariant(Run(Start(), all, ops)[slot], Account(all, ops, slot), limits)
    decreases |ops|
  {
    hide Effect, After, Post, Enabled, Slot, Run, Account, Invariant;
    if ops == [] {
      EmptyRun(all, slot);
      FreshInvariant(limits);
    } else {
      var n := |ops| - 1;
      var before, l := Run(Start(), all, ops[..n]), Account(all, ops[..n], slot);
      RunKeepsInvariant(all, ops[..n], slot, limits);
      RunStep(all, ops, slot);
      EffectIsEnabled(before, all, ops[n], slot, limits);
      var (written, change) := Effect(before, all, ops[n]);
      if written == slot {
        StepKeepsInvariant(before[slot], l, limits, change);
      }
    }
  }

  lemma FreshInvariant(limits: Limits)
    requires limits.Positive()
    ensures Invariant(FRESH, EMPTY, limits)
  {
  }

  /** Main result, over every run of blocking queries and resets: the failed network queries of a
  zone are bounded by the limits, one more for every try granted, two for every reading (and a
  fresh start for every reset), and each try granted has cost its number of rejected calls. */
  lemma AmortisedBound(all: limitsByZone, ops: seq<Op>, slot: nat, limits: Limits)
    requires limits.Positive() && slot < ZONES && SameLimits(all, ops, slot, limits)
    ensures var l := Account(all, ops, slot);
      && l.Failed() <= Most(limits) + l.granted + 2 * l.successes + Most(limits) * l.resets
      && l.granted * limits.unblockAfter <= l.rejected
  {
    hide Run, Account, SameLimits;
    RunKeepsInvariant(all, ops, slot, limits);
  }

  /** With unblocking off, a probe that never answers is queried at most `maxTimeout` times by
  timeout and `maxSensor` times by fault, ever, and never up to both limits. */
  lemma DeadSensorBound(all: limitsByZone, ops: seq<Op>, slot: nat, limits: Limits)
    requires limits.Positive() && slot < ZONES && !limits.unblockEnabled && SameLimits(all, ops, slot, limits)
    requires Account(all, ops, slot).successes == Account(all, ops, slot).resets == 0
    ensures Account(all, ops, slot).timeouts <= limits.maxTimeout
    ensures Account(all, ops, slot).faults <= limits.maxSensor
    ensures Account(all, ops, slot).Failed() <= Most(limits)
  {
    hide Run, Account, SameLimits;
    RunKeepsInvariant(all, ops, slot, limits);
  }

  /** `n` queries of a probe that only times out, or only reports a sensor fault. */
  function Failures(zoneId: nat, n: nat, fault: bool): (ops: seq<Op>)
    ensures |ops| == n
    ensures forall i :: 0 <= i < n ==> ops[i] == Query(zoneId, if fault then SensorFault else TimedOut)
  {
    seq(n, i => Query(zoneId, if fault then SensorFault else TimedOut))
  }

  /** A zone is blocked just when one of its counters is at its limit. */
  lemma BlockedExactly(z: Zone, limits: Limits)
    requires limits.Positive() && Healthy(z, limits)
    ensures Blocked(z, limits) <==> z.timeouts == limits.maxTimeout || z.faults == limits.maxSensor
  {
  }

  /** A zone that has seen nothing but `n` failures of one kind. */
  predicate OnlyFailed(z: Zone, l: Ledger, limits: Limits, n: nat, fault: bool)
  {
    var most := if fault then limits.maxSensor else limits.maxTimeout;
    && Healthy(z, limits)
    && (if fault then z.faults else z.timeouts) == (if fault then l.faults else l.timeouts) == Min(n, most)
    && (if fault then z.timeouts else z.faults) == 0
    && z.status == if n == 0 then NoRead
                   else if n < most then if fault then CommunicationError else SensorMissing
                   else if fault then BlockCommunicationError else BlockSensorMissing
  }

  function NextFailure(z: Zone, limits: Limits, fault: bool): Change
  {
    if Blocked(z, limits) then Rejects else if fault then CountsFault else CountsTimeout
  }

  lemma OneMoreFailure(z: Zone, l: Ledger, limits: Limits, n: nat, fault: bool)
    requires limits.Positive() && !limits.unblockEnabled && OnlyFailed(z, l, limits, n, fault)
    ensures var change := NextFailure(z, limits, fault);
      OnlyFailed(After(z, limits, change), Post(l, z, change), limits, n + 1, fault)
  {
    StepHealthy(z, limits, NextFailure(z, limits, fault));
  }

  lemma FailureEffect(zones: cache, all: limitsByZone, zoneId: nat, fault: bool)
    requires !all(zoneId).unblockEnabled
    ensures Effect(zones, all, Query(zoneId, if fault then SensorFault else TimedOut))
         == (Slot(zoneId), NextFailure(zones[Slot(zoneId)], all(zoneId), fault))
  {
    hide Blocked, Slot;
  }

  lemma {:induction false} FailuresLeave(all: limitsByZone, zoneId: nat, n: nat, fault: bool)
    requires all(zoneId).Positive() && !all(zoneId).unblockEnabled
    ensures var ops, slot := Failures(zoneId, n, fault), Slot(zoneId);
      OnlyFailed(Run(Start(), all, ops)[slot], Account(all, ops, slot), all(zoneId), n, fault)
  {
    hide Effect, After, Post, Slot, OnlyFailed, Blocked, Run, Account, NextFailure;
    var ops, slot := Failures(zoneId, n, fault), Slot(zoneId);
    if n == 0 {
      EmptyRun(all, slot);
      FreshOnlyFailed(all(zoneId), fault);
    } else {
      assert ops[..n - 1] == Failures(zoneId, n - 1, fault);
      FailuresLeave(all, zoneId, n - 1, fault);
      RunStep(all, ops, slot);
      var before, l := Run(Start(), all, ops[..n - 1]), Account(all, ops[..n - 1], slot);
      FailureEffect(before, all, zoneId, fault);
      OneMoreFailure(before[slot], l, all(zoneId), n - 1, fault);
    }
  }

  lemma FreshOnlyFailed(limits: Limits, fault: bool)
    requires limits.Positive()
    ensures OnlyFailed(FRESH, EMPTY, limits, 0, fault)
  {
  }

  /** The bound is met: `n` queries of a probe that only times out, or only reports a sensor fault, make
  `min(n, limit)` network attempts, all counted, and the probe is blocked, with the status for its kind
  of failure, from the last of them on. */
  lemma DeadSensorExactly(all: limitsByZone, zoneId: nat, n: nat, fault: bool)
    requires all(zoneId).Positive() && !all(zoneId).unblockEnabled
    ensures var ops, slot, limits := Failures(zoneId, n, fault), Slot(zoneId), all(zoneId);
      var z, l := Run(Start(), all, ops)[slot], Account(all, ops, slot);
      var most := if fault then limits.maxSensor else limits.maxTimeout;
      && (if fault then l.faults else l.timeouts) == Min(n, most)
      && (if fault then z.faults else z.timeouts) == Min(n, most)
      && (if fault then z.timeouts else z.faults) == 0
      && (Blocked(z, limits) <==> n >= most)
      && (z.status == BlockCommunicationError <==> fault && n >= most)
      && (z.status == BlockSensorMissing <==> !fault && n >= most)
      && (0 < n < most ==> z.status == if fault then CommunicationError else SensorMissing)
  {
    hide Run, Account, Slot, Blocked, Healthy;
    FailuresLeave(all, zoneId, n, fault);
    BlockedExactly(Run(Start(), all, Failures(zoneId, n, fault))[Slot(zoneId)], all(zoneId));
  }

  lemma EmptyRun(all: limitsByZone, slot: nat)
    requires slot < ZONES
    ensures Run(Start(), all, []) == Start() && Start()[slot] == FRESH && Account(all, [], slot) == EMPTY
  {
  }

  // ---------- What a call shows ----------

  /** A call that goes out changes one zone at most: a reading shows in the zone that replied, a timeout or
  a fault in the zone asked for, as a block just when it is the last one allowed; nothing else shows. */
  lemma AnswersShow(zones: cache, all: limitsByZone, zoneId: nat, answer: Answer, other: nat)
    requires other < ZONES && !Blocked(zones[Slot(zoneId)], all(zoneId))
    ensures var z, limits := zones[Slot(zoneId)], all(zoneId);
      var x := Apply(zones, all, Query(zoneId, answer));
      match answer
      case Temperature(replyId) =>
        x[Slot(replyId)].status == Reading && (other != Slot(replyId) ==> x[other] == zones[other])
      case TimedOut =>
        && x[Slot(zoneId)].status == (if z.timeouts + 1 == limits.maxTimeout then BlockSensorMissing else SensorMissing)
        && (other != Slot(zoneId) ==> x[other] == zones[other])
      case SensorFault =>
        && x[Slot(zoneId)].status
             == (if z.faults + 1 == limits.maxSensor then BlockCommunicationError else CommunicationError)
        && (other != Slot(zoneId) ==> x[other] == zones[other])
      case OtherError => x == zones
  {
    hide Slot;
  }

  /** A reset starts the zone asked for afresh, but for its totals, and leaves the others alone. */
  lemma ResetShows(zones: cache, all: limitsByZone, zoneId: nat, other: nat)
    requires other < ZONES
    ensures var z, x := zones[Slot(zoneId)], Apply(zones, all, ResetSensor(zoneId));
      && x[Slot(zoneId)] == Zone(NoRead, z.timeoutsTotal, z.faultsTotal, 0, 0, 0)
      && (other != Slot(zoneId) ==> x[other] == zones[other])
  {
    hide Slot;
  }

  // ---------- A blocked zone gets its try ----------

  /** A zone number queried over and over, with whatever answers. */
  predicate OnlyQueries(ops: seq<Op>, zoneId: nat)
  {
    forall i :: 0 <= i < |ops| ==> ops[i].Query? && ops[i].zoneId == zoneId
  }

  /** A blocked zone after `k` rejections: nothing but the cycle count has moved. */
  predicate Waits(z: Zone, before: Zone, limits: Limits, k: nat)
  {
    && Blocked(z, limits) && z.timeouts == before.timeouts && z.faults == before.faults && z.blockedCycles == k
  }

  lemma RejectStep(z: Zone, before: Zone, limits: Limits, k: nat)
    requires Waits(z, before, limits, k) && k + 1 < limits.unblockAfter
    ensures !GetsAnotherTry(z, limits) && Waits(Reject(z, limits), before, limits, k + 1)
  {
  }

  lemma BlockedEffect(zones: cache, all: limitsByZone, op: Op)
    requires op.Query? && Blocked(zones[Slot(op.zoneId)], all(op.zoneId))
    ensures Effect(zones, all, op) ==
      (Slot(op.zoneId), if GetsAnotherTry(zones[Slot(op.zoneId)], all(op.zoneId)) then GrantsTry else Rejects)
  {
    hide Blocked, GetsAnotherTry, Slot;
  }

  /** The rejections before the try: each call is rejected, and the zone keeps its counters. */
  lemma {:induction false} RejectedUntil(zones: cache, all: limitsByZone, ops: seq<Op>, zoneId: nat)
    requires OnlyQueries(ops, zoneId) && |ops| < all(zoneId).unblockAfter
    requires Blocked(zones[Slot(zoneId)], all(zoneId)) && zones[Slot(zoneId)].blockedCycles == 0
    ensures Waits(Run(zones, all, ops)[Slot(zoneId)], zones[Slot(zoneId)], all(zoneId), |ops|)
    decreases |ops|
  {
    hide Effect, After, Slot, Waits, Blocked, Reject;
    if ops == [] {
      WaitsAtFirst(zones[Slot(zoneId)], all(zoneId));
    } else {
      var n := |ops| - 1;
      var mid := Run(zones, all, ops[..n]);
      RejectedUntil(zones, all, ops[..n], zoneId);
      WaitsBlocked(mid[Slot(zoneId)], zones[Slot(zoneId)], all(zoneId), n);
      BlockedEffect(mid, all, ops[n]);
      RejectStep(mid[Slot(zoneId)], zones[Slot(zoneId)], all(zoneId), n);
      AfterRejects(mid[Slot(zoneId)], all(zoneId));
    }
  }

  lemma WaitsAtFirst(z: Zone, limits: Limits)
    requires Blocked(z, limits) && z.blockedCycles == 0
    ensures Waits(z, z, limits, 0)
  {
  }

  lemma WaitsBlocked(z: Zone, before: Zone, limits: Limits, k: nat)
    requires Waits(z, before, limits, k)
    ensures Blocked(z, limits) && z.blockedCycles == k
  {
  }

  lemma AfterRejects(z: Zone, limits: Limits)
    ensures After(z, limits, Rejects) == Reject(z, limits) && After(z, limits, GrantsTry) == Unblock(z, limits)
  {
  }

  /** Main result: with unblocking on, a zone that has just been blocked is not queried for exactly
  `unblockAfter` calls, whatever would be answered; the last of them lets it go, with each counter
  that was at its limit one lower, and the next call queries it. */
  lemma TryAfterExactly(zones: cache, all: limitsByZone, ops: seq<Op>, zoneId: nat)
    requires OnlyQueries(ops, zoneId) && |ops| == all(zoneId).unblockAfter > 0
    requires all(zoneId).Positive() && all(zoneId).unblockEnabled
    requires var z := zones[Slot(zoneId)];
      Healthy(z, all(zoneId)) && Blocked(z, all(zoneId)) && z.blockedCycles == 0
    ensures var slot, limits := Slot(zoneId), all(zoneId);
      && (forall k :: 0 <= k < |ops| ==> Blocked(Run(zones, all, ops[..k])[slot], limits))
      && Run(zones, all, ops)[slot].status == RetryRead && !Blocked(Run(zones, all, ops)[slot], limits)
      && Run(zones, all, ops)[slot].timeouts + Run(zones, all, ops)[slot].faults
           == zones[slot].timeouts + zones[slot].faults - 1
  {
    hide Effect, After, Slot, Waits, Blocked, Run, Unblock, Healthy, GetsAnotherTry;
    var slot, limits := Slot(zoneId), all(zoneId);
    forall k | 0 <= k < |ops| ensures Blocked(Run(zones, all, ops[..k])[slot], limits) {
      RejectedUntil(zones, all, ops[..k], zoneId);
      WaitsBlocked(Run(zones, all, ops[..k])[slot], zones[slot], limits, k);
    }
    var n := |ops| - 1;
    var mid := Run(zones, all, ops[..n]);
    RejectedUntil(zones, all, ops[..n], zoneId);
    LastRejection(mid[slot], zones[slot], limits);
    BlockedEffect(mid, all, ops[n]);
    AfterRejects(mid[slot], limits);
    RunApplies(zones, all, ops);
  }

  lemma RunApplies(zones: cache, all: limitsByZone, ops: seq<Op>)
    requires ops != []
    ensures Run(zones, all, ops) == Apply(Run(zones, all, ops[..|ops| - 1]), all, ops[|ops| - 1])
  {
  }

  lemma LastRejection(z: Zone, before: Zone, limits: Limits)
    requires limits.Positive() && limits.unblockEnabled && limits.unblockAfter > 0
    requires Healthy(before, limits) && Blocked(before, limits) && Waits(z, before, limits, limits.unblockAfter - 1)
    ensures Blocked(z, limits) && GetsAnotherTry(z, limits)
    ensures var x := Unblock(z, limits);
      x.status == RetryRead && !Blocked(x, limits) && x.timeouts + x.faults == before.timeouts + before.faults - 1
  {
  }
}
