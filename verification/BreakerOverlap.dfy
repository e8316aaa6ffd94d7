/** The temperature circuit breaker when calls for one zone overlap. A call looks at the zone, then
either writes a rejection back or queries the network, and counts the answer when it comes; other
calls run in between. The limits can then be passed, by the number of overlapping queries less one
and no more. */
module BreakerOverlap {
  import opened Breaker

  /** One zone: `out` queries are under way, `turned` are the zones as seen by calls that found them
  blocked and have not yet written that back. The rest counts what has happened. */
  datatype State = State(z: Zone, out: nat, turned: seq<Zone>,
                         failed: nat, rejected: nat, granted: nat, successes: nat, resets: nat)

  const IDLE := State(FRESH, 0, [], 0, 0, 0, 0, 0)

  /** `Stored` is a reading that the panel has labelled with this zone, whoever asked for it. */
  datatype Step = Ask | TurnAway | WriteBack(i: nat) | Fails(timeout: bool) | Returns | Stored | Reset

  /** Write back what a call that found the zone blocked as `seen` decides. */
  function Decide(z: Zone, seen: Zone, limits: Limits): Zone
  {
    if GetsAnotherTry(seen, limits) then Unblock(z, limits)
    else z.(status := Reject(seen, limits).status, blockedCycles := Reject(seen, limits).blockedCycles)
  }

  predicate Next(s: State, limits: Limits, step: Step, t: State)
  {
    match step
    case Ask => !Blocked(s.z, limits) && t == s.(out := s.out + 1)
    case TurnAway => Blocked(s.z, limits) && t == s.(turned := s.turned + [s.z])
    case WriteBack(i) =>
      && i < |s.turned|
      && t == s.(z := Decide(s.z, s.turned[i], limits), turned := s.turned[..i] + s.turned[i + 1..],
                 rejected := s.rejected + 1,
                 granted := s.granted + if GetsAnotherTry(s.turned[i], limits) then 1 else 0)
    case Fails(timeout) =>
      && s.out > 0
      && t == s.(z := if timeout then AfterTimeout(s.z, limits) else AfterFault(s.z, limits),
                 out := s.out - 1, failed := s.failed + 1)
    case Returns => s.out > 0 && t == s.(out := s.out - 1)
    case Stored => t == s.(z := AfterSuccess(s.z), successes := s.successes + 1)
    case Reset => t == s.(z := AfterReset(s.z), resets := s.resets + 1)
  }

  predicate IsRun(states: seq<State>, limits: Limits, steps: seq<Step>)
  {
    && |states| == |steps| + 1 && states[0] == IDLE
    && forall i :: 0 <= i < |steps| ==> Next(states[i], limits, steps[i], states[i + 1])
  }

  /** At most `width` queries of the zone are ever under way at once. */
  predicate AtMost(states: seq<State>, width: nat) { forall i :: 0 <= i < |states| ==> states[i].out <= width }

  // ---------- The bound ----------

  /** Both counters and the queries under way, together. */
  function Room(limits: Limits, width: nat): nat
    requires limits.Positive() && width > 0
  {
    limits.maxTimeout + limits.maxSensor + width - 2
  }

  predicate Bounded(s: State, limits: Limits, width: nat)
    requires limits.Positive() && width > 0
  {
    && s.z.timeouts + s.out <= limits.maxTimeout + width - 1
    && s.z.faults + s.out <= limits.maxSensor + width - 1
    && s.z.timeouts + s.z.faults + s.out <= Room(limits, width)
  }

  lemma DecideLowers(z: Zone, seen: Zone, limits: Limits)
    ensures var x := Decide(z, seen, limits);
      && x.timeouts <= z.timeouts && x.faults <= z.faults
      && z.timeouts + z.faults <= x.timeouts + x.faults + if GetsAnotherTry(seen, limits) then 2 else 0
  {
  }

  lemma NextKeepsBound(s: State, limits: Limits, step: Step, t: State, width: nat)
    requires limits.Positive() && width > 0 && t.out <= width
    requires Bounded(s, limits, width) && Next(s, limits, step, t)
    ensures Bounded(t, limits, width)
  {
    hide Decide, GetsAnotherTry, Blocked;
    match step
    case Ask => BelowLimits(s.z, limits);
    case WriteBack(i) => DecideLowers(s.z, s.turned[i], limits);
    case _ =>
  }

  lemma BelowLimits(z: Zone, limits: Limits)
    requires !Blocked(z, limits)
    ensures z.timeouts < limits.maxTimeout && z.faults < limits.maxSensor
  {
  }

  /** Main result: in every run with at most `width` overlapping queries of a zone, each counter
  stays within its limit plus `width` less one. */
  lemma {:induction false} OverlapBound(states: seq<State>, limits: Limits, steps: seq<Step>, width: nat, n: nat)
    requires limits.Positive() && width > 0 && IsRun(states, limits, steps) && AtMost(states, width)
    requires n < |states|
    ensures Bounded(states[n], limits, width)
    ensures states[n].z.timeouts <= limits.maxTimeout + width - 1
    ensures states[n].z.faults <= limits.maxSensor + width - 1
    decreases n
  {
    hide Next;
    if n > 0 {
      OverlapBound(states, limits, steps, width, n - 1);
      NextKeepsBound(states[n - 1], limits, steps[n - 1], states[n], width);
    }
  }

  /** Failures are still counted, or have been taken off by readings, granted tries and resets. */
  predicate Afforded(s: State, limits: Limits, width: nat)
    requires limits.Positive() && width > 0
  {
    s.failed <= s.z.timeouts + s.z.faults + 2 * s.granted + 2 * s.successes + Room(limits, width) * s.resets
  }

  lemma NextKeepsAfforded(s: State, limits: Limits, step: Step, t: State, width: nat)
    requires limits.Positive() && width > 0 && Next(s, limits, step, t)
    requires limits.maxTimeout + width <= 0xFFFF_FFFF && limits.maxSensor + width <= 0xFFFF_FFFF
    requires Bounded(s, limits, width) && Afforded(s, limits, width)
    ensures Afforded(t, limits, width)
  {
    hide Decide, GetsAnotherTry, Blocked;
    match step
    case WriteBack(i) => DecideLowers(s.z, s.turned[i], limits);
    case Reset => assert Room(limits, width) * t.resets == Room(limits, width) * s.resets + Room(limits, width);
    case _ =>
  }

  /** Main result: over every run with overlapping calls the failed queries of a zone are at most
  both limits and `width` less two, plus two for every try granted and every reading, and as many
  again for every reset. */
  lemma {:induction false} OverlapAmortised(states: seq<State>, limits: Limits, steps: seq<Step>, width: nat, n: nat)
    requires limits.Positive() && width > 0 && IsRun(states, limits, steps) && AtMost(states, width)
    requires limits.maxTimeout + width <= 0xFFFF_FFFF && limits.maxSensor + width <= 0xFFFF_FFFF
    requires n < |states|
    ensures Afforded(states[n], limits, width)
    ensures states[n].failed <=
      Room(limits, width) + 2 * states[n].granted + 2 * states[n].successes + Room(limits, width) * states[n].resets
    decreases n
  {
    hide Next;
    OverlapBound(states, limits, steps, width, n);
    if n > 0 {
      OverlapAmortised(states, limits, steps, width, n - 1);
      OverlapBound(states, limits, steps, width, n - 1);
      NextKeepsAfforded(states[n - 1], limits, steps[n - 1], states[n], width);
    }
  }

  // ---------- What a granted try costs ----------

  /** The price of the tries granted has been paid, and calls that wait to write have not spoilt it. */
  predicate Paid(s: State, limits: Limits)
  {
    && s.granted * limits.unblockAfter + s.z.blockedCycles <= s.rejected
    && forall i :: 0 <= i < |s.turned| ==> s.granted * limits.unblockAfter + s.turned[i].blockedCycles <= s.rejected
  }

  lemma DecideIsPaid(z: Zone, seen: Zone, limits: Limits, granted: nat, rejected: nat)
    requires granted * limits.unblockAfter + seen.blockedCycles <= rejected
    ensures (granted + if GetsAnotherTry(seen, limits) then 1 else 0) * limits.unblockAfter
              + Decide(z, seen, limits).blockedCycles <= rejected + 1
  {
    assert (granted + 1) * limits.unblockAfter == granted * limits.unblockAfter + limits.unblockAfter;
  }

  lemma NextKeepsPaid(s: State, limits: Limits, step: Step, t: State)
    requires Next(s, limits, step, t) && Paid(s, limits) && |s.turned| <= 1
    ensures Paid(t, limits)
  {
    hide Decide, GetsAnotherTry;
    match step
    case WriteBack(i) =>
      DecideIsPaid(s.z, s.turned[i], limits, s.granted, s.rejected);
      assert t.turned == [];
    case _ =>
  }

  // ---------- Runs ----------

  lemma Extend(states: seq<State>, limits: Limits, steps: seq<Step>, step: Step, t: State, width: nat, waiting: nat)
    requires IsRun(states, limits, steps) && AtMost(states, width) && Waiting(states, waiting)
    requires Next(states[|steps|], limits, step, t) && t.out <= width && |t.turned| <= waiting
    ensures IsRun(states + [t], limits, steps + [step])
    ensures AtMost(states + [t], width) && Waiting(states + [t], waiting)
    ensures (states + [t])[|steps + [step]|] == t
  {
    hide Next;
  }

  /** At most `waiting` calls that found the zone blocked ever wait at once to write that back. */
  predicate Waiting(states: seq<State>, waiting: nat)
  {
    forall i :: 0 <= i < |states| ==> |states[i].turned| <= waiting
  }

  /** Both counters below their limits or just there, nothing under way and nothing rejected yet. */
  predicate OnlyFailed(s: State, timeouts: nat, faults: nat, out: nat)
  {
    && s.z.timeouts == timeouts && s.z.faults == faults && s.z.blockedCycles == 0 && s.out == out
    && s.turned == [] && s.rejected == 0 && s.granted == 0
  }

  predicate Unblocked(s: State)
  {
    s.z.status == NoRead || s.z.status == SensorMissing || s.z.status == CommunicationError
  }

  function Failed(s: State, limits: Limits, timeout: bool): State
    requires s.out > 0
  {
    s.(z := if timeout then AfterTimeout(s.z, limits) else AfterFault(s.z, limits), out := s.out - 1,
       failed := s.failed + 1)
  }

  /** One query after the other, up to one below both limits: `m` timeouts and `k` faults. */
  lemma {:induction false} OneByOne(limits: Limits, m: nat, k: nat, width: nat)
    returns (states: seq<State>, steps: seq<Step>)
    requires limits.Positive() && m < limits.maxTimeout && k < limits.maxSensor && width > 0
    ensures IsRun(states, limits, steps) && AtMost(states, width) && Waiting(states, 0)
    ensures OnlyFailed(states[|steps|], m, k, 0) && Unblocked(states[|steps|])
    decreases m + k
  {
    if m == 0 && k == 0 {
      states, steps := [IDLE], [];
    } else {
      var timeout := m > 0;
      states, steps := OneByOne(limits, if timeout then m - 1 else 0, if timeout then k else k - 1, width);
      var asked := states[|steps|].(out := 1);
      Extend(states, limits, steps, Ask, asked, width, 0);
      states, steps := states + [asked], steps + [Ask];
      var t := Failed(asked, limits, timeout);
      Extend(states, limits, steps, Fails(timeout), t, width, 0);
      states, steps := states + [t], steps + [Fails(timeout)];
    }
  }

  /** Then `n` queries at once. */
  lemma {:induction false} AllAtOnce(limits: Limits, n: nat, width: nat) returns (states: seq<State>, steps: seq<Step>)
    requires limits.Positive() && n <= width && width > 0
    ensures IsRun(states, limits, steps) && AtMost(states, width) && Waiting(states, 0)
    ensures OnlyFailed(states[|steps|], limits.maxTimeout - 1, limits.maxSensor - 1, n) && Unblocked(states[|steps|])
    decreases n
  {
    if n == 0 {
      states, steps := OneByOne(limits, limits.maxTimeout - 1, limits.maxSensor - 1, width);
    } else {
      states, steps := AllAtOnce(limits, n - 1, width);
      var t := states[|steps|].(out := n);
      Extend(states, limits, steps, Ask, t, width, 0);
      states, steps := states + [t], steps + [Ask];
    }
  }

  /** Then all of them fail in the same way. */
  lemma {:induction false} AllFail(limits: Limits, n: nat, width: nat, timeout: bool)
    returns (states: seq<State>, steps: seq<Step>)
    requires limits.Positive() && n <= width && width > 0
    requires limits.maxTimeout + width <= 0x1_0000_0000 && limits.maxSensor + width <= 0x1_0000_0000
    ensures IsRun(states, limits, steps) && AtMost(states, width) && Waiting(states, 0)
    ensures OnlyFailed(states[|steps|], limits.maxTimeout - 1 + (if timeout then n else 0),
                       limits.maxSensor - 1 + (if timeout then 0 else n), width - n)
    decreases n
  {
    if n == 0 {
      states, steps := AllAtOnce(limits, width, width);
    } else {
      states, steps := AllFail(limits, n - 1, width, timeout);
      var t := Failed(states[|steps|], limits, timeout);
      Extend(states, limits, steps, Fails(timeout), t, width, 0);
      states, steps := states + [t], steps + [Fails(timeout)];
    }
  }

  /** Main result: the bounds are met, by timeouts and by faults, each alone and both counters
  together, for all limits and every number of overlapping queries; with two or more the limits are
  passed. */
  lemma OverlapReachesBound(limits: Limits, width: nat, timeout: bool) returns (states: seq<State>, steps: seq<Step>)
    requires limits.Positive() && width > 0
    requires limits.maxTimeout + width <= 0x1_0000_0000 && limits.maxSensor + width <= 0x1_0000_0000
    ensures IsRun(states, limits, steps) && AtMost(states, width)
    ensures var z := states[|steps|].z;
      && (timeout ==> z.timeouts == limits.maxTimeout + width - 1)
      && (!timeout ==> z.faults == limits.maxSensor + width - 1)
      && z.timeouts + z.faults == Room(limits, width)
  {
    states, steps := AllFail(limits, width, width, timeout);
  }

  // ---------- What a granted try costs, exactly ----------

  /** Main result: each try granted has cost its number of rejected calls, in every run in which no
  two calls that found the zone blocked wait at once to write that back. */
  lemma {:induction false} TriesArePaid(states: seq<State>, limits: Limits, steps: seq<Step>, n: nat)
    requires IsRun(states, limits, steps) && n < |states| && Waiting(states, 1)
    ensures Paid(states[n], limits)
    ensures states[n].granted * limits.unblockAfter <= states[n].rejected
    decreases n
  {
    hide Next;
    if n > 0 {
      TriesArePaid(states, limits, steps, n - 1);
      NextKeepsPaid(states[n - 1], limits, steps[n - 1], states[n]);
    }
  }

  /** Every try is granted to a rejected call, and none if unblocking is off. */
  lemma {:induction false} TriesAreRejections(states: seq<State>, limits: Limits, steps: seq<Step>, n: nat)
    requires IsRun(states, limits, steps) && n < |states|
    ensures states[n].granted <= states[n].rejected
    ensures !limits.unblockEnabled ==> states[n].granted == 0
    decreases n
  {
    if n > 0 {
      TriesAreRejections(states, limits, steps, n - 1);
      assert Next(states[n - 1], limits, steps[n - 1], states[n]);
    }
  }

  /** A zone with its timeouts at the limit, after `n` rejections. */
  predicate Turned(s: State, limits: Limits, n: nat)
  {
    && s.z.timeouts == limits.maxTimeout && s.z.blockedCycles == n
    && s.turned == [] && s.rejected == n && s.granted == 0 && s.out == 0
  }

  /** Block the zone, then turn `n` calls away one after the other, one short of the next try. */
  lemma {:induction false} TurnedAway(limits: Limits, n: nat) returns (states: seq<State>, steps: seq<Step>)
    requires limits.Positive() && limits.unblockEnabled && n < limits.unblockAfter
    ensures IsRun(states, limits, steps) && AtMost(states, 1) && Waiting(states, 2)
    ensures Turned(states[|steps|], limits, n)
    decreases n
  {
    if n == 0 {
      states, steps := AllFail(limits, 1, 1, true);
    } else {
      states, steps := TurnedAway(limits, n - 1);
      var s := states[|steps|];
      var seen := s.(turned := [s.z]);
      Extend(states, limits, steps, TurnAway, seen, 1, 2);
      states, steps := states + [seen], steps + [TurnAway];
      var t := s.(z := Decide(s.z, s.z, limits), rejected := n);
      assert [s.z][..0] + [s.z][1..] == [];
      Extend(states, limits, steps, WriteBack(0), t, 1, 2);
      states, steps := states + [t], steps + [WriteBack(0)];
    }
  }

  /** Two calls that both find the next try due, and both write it back. */
  lemma TwoTries(s: State, limits: Limits) returns (a: State, b: State, c: State, d: State)
    requires limits.Positive() && limits.unblockEnabled && limits.unblockAfter >= 2
    requires Turned(s, limits, limits.unblockAfter - 1)
    ensures Next(s, limits, TurnAway, a) && Next(a, limits, TurnAway, b)
    ensures Next(b, limits, WriteBack(0), c) && Next(c, limits, WriteBack(0), d)
    ensures |a.turned| <= 2 && |b.turned| <= 2 && |c.turned| <= 2 && |d.turned| <= 2
    ensures a.out == b.out == c.out == d.out == 0
    ensures d.granted == 2 && d.rejected == limits.unblockAfter + 1
  {
    hide Unblock;
    a := s.(turned := [s.z]);
    b := s.(turned := [s.z, s.z]);
    c := b.(z := Unblock(s.z, limits), turned := [s.z], rejected := s.rejected + 1, granted := 1);
    d := c.(z := Unblock(c.z, limits), turned := [], rejected := s.rejected + 2, granted := 2);
    assert [s.z] + [s.z] == [s.z, s.z];
    assert [s.z, s.z][..0] + [s.z, s.z][1..] == [s.z] && [s.z][..0] + [s.z][1..] == [];
  }

  /** If two do, one price can buy two tries, under all limits that have a price above one. */
  lemma OnePriceTwoTries(limits: Limits) returns (states: seq<State>, steps: seq<Step>)
    requires limits.Positive() && limits.unblockEnabled && limits.unblockAfter >= 2
    ensures IsRun(states, limits, steps) && Waiting(states, 2)
    ensures states[|steps|].granted * limits.unblockAfter > states[|steps|].rejected
  {
    hide Next, Turned;
    states, steps := TurnedAway(limits, limits.unblockAfter - 1);
    var a, b, c, d := TwoTries(states[|steps|], limits);
    Extend(states, limits, steps, TurnAway, a, 1, 2);
    states, steps := states + [a], steps + [TurnAway];
    Extend(states, limits, steps, TurnAway, b, 1, 2);
    states, steps := states + [b], steps + [TurnAway];
    Extend(states, limits, steps, WriteBack(0), c, 1, 2);
    states, steps := states + [c], steps + [WriteBack(0)];
    Extend(states, limits, steps, WriteBack(0), d, 1, 2);
    states, steps := states + [d], steps + [WriteBack(0)];
  }

  /** In every run with at most `waiting` calls waiting at once, every try has been paid for. */
  ghost predicate AlwaysPaid(limits: Limits, waiting: nat)
  {
    forall states: seq<State>, steps: seq<Step> ::
      IsRun(states, limits, steps) && Waiting(states, waiting) ==>
        states[|steps|].granted * limits.unblockAfter <= states[|steps|].rejected
  }

  /** Main result: the price is always paid exactly if at most one rejection waits at a time, or
  unblocking is off, or the price is not above one. */
  lemma PriceIsPaidExactly(limits: Limits, waiting: nat)
    requires limits.Positive()
    ensures AlwaysPaid(limits, waiting) <==> waiting <= 1 || !limits.unblockEnabled || limits.unblockAfter <= 1
  {
    hide Next, Waiting;
    if waiting <= 1 || !limits.unblockEnabled || limits.unblockAfter <= 1 {
      forall states: seq<State>, steps: seq<Step> | IsRun(states, limits, steps) && Waiting(states, waiting)
        ensures states[|steps|].granted * limits.unblockAfter <= states[|steps|].rejected
      {
        TriesAreRejections(states, limits, steps, |steps|);
        if waiting <= 1 {
          WaitingMore(states, waiting, 1);
          TriesArePaid(states, limits, steps, |steps|);
        } else if limits.unblockAfter == 1 {
          assert states[|steps|].granted * limits.unblockAfter == states[|steps|].granted;
        }
      }
    } else {
      var states, steps := OnePriceTwoTries(limits);
      WaitingMore(states, 2, waiting);
    }
  }

  lemma WaitingMore(states: seq<State>, few: nat, many: nat)
    requires Waiting(states, few) && few <= many
    ensures Waiting(states, many)
  {
  }
}
