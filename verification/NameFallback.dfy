/** Name queries with fallback to older query types: 5, 1 for zones, 17, 4 for outputs and
19, 18, 16, 0 for partitions. One algorithm serves the three, over different ladders of types. */
module NameFallback {

  /** Query types, newest first. */
  type ladder = l: seq<nat> | |l| > 0 && Descending(l) witness [0]

  predicate Descending(l: seq<nat>) { forall i, j :: 0 <= i < j < |l| ==> l[i] > l[j] }

  const ZONES: ladder := [5, 1]
  const OUTPUTS: ladder := [17, 4]
  const PARTITIONS: ladder := [19, 18, 16, 0]

  /** What one exchange brings: a name that parses or does not, a result code, another frame, or
  no frame at all. */
  datatype Reply = Named | Malformed | ResultCode | Unexpected | ExchangeError

  datatype Result = Read(byType: nat) | Empty | Error

  /** What the client remembers about the session. */
  datatype Session = Session(sessionType: nat, confirmed: bool)

  function Reset(l: ladder, extended: bool): Session
  {
    Session(if extended then l[0] else l[|l| - 1], false)
  }

  /** The part of the ladder from the session type down. */
  function From(l: ladder, sessionType: nat): (types: seq<nat>)
    ensures types != []
  {
    if i :| 0 <= i < |l| && l[i] == sessionType then l[i..] else [l[|l| - 1]]
  }

  function TypesToTry(l: ladder, s: Session, extended: bool): seq<nat>
  {
    if !extended then [l[|l| - 1]] else if s.confirmed then [s.sessionType] else From(l, s.sessionType)
  }

  datatype Queried = Queried(session: Session, result: Result, cost: nat)

  /** A reply with a name, to a query that read `captured` as session type when it started and finds
  the session `s` now: it confirms the session, and lowers its type if the type asked for is lower
  than the one captured. */
  function ConfirmLate(s: Session, captured: nat, devType: nat): Session
  {
    Session(if devType < captured then devType else s.sessionType, true)
  }

  /** The same with nothing in between. */
  function Confirm(s: Session, devType: nat): Session { ConfirmLate(s, s.sessionType, devType) }

  function Try(types: seq<nat>, s: Session, panel: nat -> Reply): Queried
    decreases |types|
  {
    if types == [] then Queried(s, Empty, 0)
    else
      match panel(types[0])
      case ResultCode => var q := Try(types[1..], s, panel); q.(cost := q.cost + 1)
      case Named => Queried(Confirm(s, types[0]), Read(types[0]), 1)
      case Malformed => Queried(Confirm(s, types[0]), Error, 1)
      case _ => Queried(s, Error, 1)
  }

  function Query(l: ladder, s: Session, extended: bool, panel: nat -> Reply): Queried
  {
    Try(TypesToTry(l, s, extended), s, panel)
  }

  class NameClient {
    const l: ladder
    var sessionType: nat
    var confirmed: bool

    constructor (l: ladder, extended: bool)
      ensures this.l == l && Session(sessionType, confirmed) == Reset(l, extended)
    {
      this.l := l;
      sessionType, confirmed := if extended then l[0] else l[|l| - 1], false;
    }

    /** `panel` answers the queries of this call; `cost` counts the exchanges made. */
    method QueryName(extended: bool, panel: nat -> Reply) returns (result: Result, cost: nat)
      modifies this
      ensures Queried(Session(sessionType, confirmed), result, cost)
           == Query(l, old(Session(sessionType, confirmed)), extended, panel)
    {
      ghost var before := Session(sessionType, confirmed);
      var captured := sessionType;
      var typesToTry := TypesToTry(l, Session(sessionType, confirmed), extended);
      var i := 0;
      while i < |typesToTry|
        invariant 0 <= i <= |typesToTry| && Session(sessionType, confirmed) == before
        invariant var q := Try(typesToTry[i..], before, panel);
          q.(cost := q.cost + i) == Try(typesToTry, before, panel)
      {
        assert typesToTry[i..][1..] == typesToTry[i + 1..];
        var devType := typesToTry[i];
        var response := panel(devType);
        i := i + 1;
        if response == ResultCode {
          continue;
        }
        if response == Named || response == Malformed {
          if devType < captured {
            sessionType := devType;
          }
          confirmed := true;
          return if response == Named then Read(devType) else Error, i;
        }
        return Error, i;
      }
      return Empty, i;
    }
  }

  // ---------- Whatever the panel answers ----------

  lemma {:induction false} TryOnlyLowers(types: seq<nat>, s: Session, panel: nat -> Reply)
    ensures var q := Try(types, s, panel);
      && q.session.sessionType <= s.sessionType && q.cost <= |types|
      && (s.confirmed ==> q.session.confirmed)
      && (q.result.Read? ==> q.session.confirmed && q.result.byType in types && panel(q.result.byType) == Named)
    decreases |types|
  {
    if types != [] && panel(types[0]) == ResultCode {
      TryOnlyLowers(types[1..], s, panel);
    }
  }

  /** The session type never rises, a confirmed type never changes, and one query costs at most
  one exchange per rung of the ladder, one in all once confirmed. */
  lemma TypeNeverRises(l: ladder, s: Session, extended: bool, panel: nat -> Reply)
    ensures var q := Query(l, s, extended, panel);
      && q.session.sessionType <= s.sessionType
      && (s.confirmed ==> q.session.confirmed && q.cost <= 1)
      && (s.confirmed && extended ==> q.session == s)
      && q.cost <= |l|
  {
    TryOnlyLowers(TypesToTry(l, s, extended), s, panel);
  }

  /** How many of the types come first that are answered by a result code. */
  function Refused(types: seq<nat>, panel: nat -> Reply): (k: nat)
    ensures k <= |types|
  {
    if types == [] || panel(types[0]) != ResultCode then 0 else Refused(types[1..], panel) + 1
  }

  /** Main result, for every panel: a query goes down its types until one is not answered by a result
  code, and that answer decides: a name is read, and confirms the session; a name that does not parse
  confirms it too, but is an error; any other frame, or none, is an error that leaves the session alone.
  If all types are refused the item is empty. */
  lemma {:induction false} FirstAnswerDecides(types: seq<nat>, s: Session, panel: nat -> Reply)
    ensures var q, k := Try(types, s, panel), Refused(types, panel);
      if k == |types| then q == Queried(s, Empty, |types|)
      else
        && q.cost == k + 1
        && match panel(types[k])
           case Named => q.result == Read(types[k]) && q.session == Confirm(s, types[k])
           case Malformed => q.result == Error && q.session == Confirm(s, types[k])
           case _ => q.result == Error && q.session == s
    decreases |types|
  {
    hide Confirm;
    if types != [] && panel(types[0]) == ResultCode {
      FirstAnswerDecides(types[1..], s, panel);
    }
  }

  /** The types tried by an unconfirmed session, in numbers. */
  lemma TypesTriedAre(sessionType: nat)
    ensures var s := Session(sessionType, false);
      && TypesToTry(PARTITIONS, s, true) == (if sessionType == 19 then [19, 18, 16, 0]
           else if sessionType == 18 then [18, 16, 0] else if sessionType == 16 then [16, 0] else [0])
      && TypesToTry(ZONES, s, true) == (if sessionType == 5 then [5, 1] else [1])
      && TypesToTry(OUTPUTS, s, true) == (if sessionType == 17 then [17, 4] else [4])
  {
    assert PARTITIONS[0] == 19 && PARTITIONS[1] == 18 && PARTITIONS[2] == 16 && PARTITIONS[3] == 0;
    assert ZONES[0] == 5 && ZONES[1] == 1 && OUTPUTS[0] == 17 && OUTPUTS[1] == 4;
  }

  /** Main result: without the extended types a query makes one exchange, in the oldest type, whatever
  the session: type 1 for zones, 4 for outputs and 0 for partitions. */
  lemma PlainQueriesAskOldest(s: Session, panel: nat -> Reply, l: ladder)
    requires l == ZONES || l == OUTPUTS || l == PARTITIONS
    ensures var oldest := if l == ZONES then 1 else if l == OUTPUTS then 4 else 0;
      var q := Query(l, s, false, panel);
      && q.cost == 1
      && q.result == (match panel(oldest) case Named => Read(oldest) case ResultCode => Empty case _ => Error)
      && (panel(oldest) == Named || panel(oldest) == Malformed ==> q.session.confirmed)
  {
    var oldest := if l == ZONES then 1 else if l == OUTPUTS then 4 else 0;
    assert ZONES[1] == 1 && OUTPUTS[1] == 4 && PARTITIONS[3] == 0;
    assert TypesToTry(l, s, false) == [oldest];
    OneTypeDecides(oldest, s, panel);
  }

  lemma OneTypeDecides(devType: nat, s: Session, panel: nat -> Reply)
    ensures var q := Try([devType], s, panel);
      && q.cost == 1
      && q.result == (match panel(devType) case Named => Read(devType) case ResultCode => Empty case _ => Error)
      && (panel(devType) == Named || panel(devType) == Malformed ==> q.session.confirmed)
  {
    assert [devType][1..] == [];
    assert Try([], s, panel) == Queried(s, Empty, 0);
  }

  // ---------- A panel with fixed support ----------

  /** The panel names exactly its configured items, in the query types it supports. */
  function Panel(supported: set<nat>, configured: set<nat>, item: nat): nat -> Reply
  {
    t => if t in supported && item in configured then Named else ResultCode
  }

  /** Position of the newest supported type on the ladder, or its length. */
  function Newest(l: seq<nat>, supported: set<nat>): (h: nat)
    ensures h <= |l| && (h < |l| ==> l[h] in supported)
    ensures forall i :: 0 <= i < h ==> l[i] !in supported
  {
    if l == [] || l[0] in supported then 0 else Newest(l[1..], supported) + 1
  }

  lemma {:induction false} TryFindsNewest(types: seq<nat>, s: Session, supported: set<nat>,
                                          configured: set<nat>, item: nat)
    ensures var q, h := Try(types, s, Panel(supported, configured, item)), Newest(types, supported);
      q == if item in configured && h < |types|
           then Queried(Confirm(s, types[h]), Read(types[h]), h + 1)
           else Queried(s, Empty, |types|)
    decreases |types|
  {
    if types != [] {
      TryFindsNewest(types[1..], s, supported, configured, item);
    }
  }

  /** Session, results and total cost of a run of queries after a reset in extended mode. */
  datatype Scan = Scan(session: Session, results: seq<Result>, cost: nat)

  function ScanItems(l: ladder, supported: set<nat>, configured: set<nat>, items: seq<nat>): Scan
  {
    if items == [] then Scan(Reset(l, true), [], 0)
    else
      var n := |items| - 1;
      var before := ScanItems(l, supported, configured, items[..n]);
      var q := Query(l, before.session, true, Panel(supported, configured, items[n]));
      Scan(q.session, before.results + [q.result], before.cost + q.cost)
  }

  /** How many leading items are not configured. */
  function Leading(configured: set<nat>, items: seq<nat>): (k: nat)
    ensures k <= |items| && (k < |items| ==> items[k] in configured)
    ensures forall i :: 0 <= i < k ==> items[i] !in configured
  {
    if items == [] || items[0] in configured then 0 else Leading(configured, items[1..]) + 1
  }

  lemma FreshSessionTriesAll(l: ladder)
    ensures TypesToTry(l, Reset(l, true), true) == l
  {
    assert l[0..] == l;
  }

  /** Each configured item is read in the newest supported type, if there is one. */
  predicate ResultsAre(l: ladder, supported: set<nat>, configured: set<nat>, items: seq<nat>, results: seq<Result>)
  {
    var h := Newest(l, supported);
    && |results| == |items|
    && forall i :: 0 <= i < |items| ==>
         results[i] == if items[i] in configured && h < |l| then Read(l[h]) else Empty
  }

  /** The exchanges spent on `n` items when each is tried in every type of the ladder. */
  function WholeLadder(l: ladder, n: nat): nat { if n == 0 then 0 else WholeLadder(l, n - 1) + |l| }

  lemma {:induction false} WholeLadderIsProduct(l: ladder, n: nat)
    ensures WholeLadder(l, n) == |l| * n
  {
    if n > 0 {
      WholeLadderIsProduct(l, n - 1);
    }
  }

  /** Session and cost after `n` items of which the first `k` are not configured. */
  predicate CostIs(l: ladder, h: nat, k: nat, n: nat, session: Session, cost: nat)
    requires k <= n
  {
    if k < n && h < |l|
    then session == Session(l[h], true) && cost == WholeLadder(l, k) + (h + 1) + (n - 1 - k)
    else session == Reset(l, true) && cost == WholeLadder(l, n)
  }

  lemma {:induction false} LeadingAppend(configured: set<nat>, items: seq<nat>, item: nat)
    ensures Leading(configured, items + [item]) ==
      if Leading(configured, items) < |items| then Leading(configured, items)
      else if item in configured then |items| else |items| + 1
    decreases |items|
  {
    if items == [] {
      assert [] + [item] == [item] && [item][1..] == [];
    } else if items[0] !in configured {
      assert (items + [item])[1..] == items[1..] + [item];
      LeadingAppend(configured, items[1..], item);
    }
  }

  /** Nothing named yet: the next query goes down the whole ladder, up to the newest type. */
  lemma FreshQuery(l: ladder, supported: set<nat>, configured: set<nat>, item: nat)
    ensures var q, h := Query(l, Reset(l, true), true, Panel(supported, configured, item)), Newest(l, supported);
      q == if item in configured && h < |l|
           then Queried(Session(l[h], true), Read(l[h]), h + 1)
           else Queried(Reset(l, true), Empty, |l|)
  {
    FreshSessionTriesAll(l);
    TryFindsNewest(l, Reset(l, true), supported, configured, item);
  }

  /** Confirmed: one exchange, in the newest supported type. */
  lemma ConfirmedQuery(l: ladder, supported: set<nat>, configured: set<nat>, item: nat)
    requires Newest(l, supported) < |l|
    ensures var s := Session(l[Newest(l, supported)], true);
      Query(l, s, true, Panel(supported, configured, item))
        == Queried(s, if item in configured then Read(s.sessionType) else Empty, 1)
  {
    var t := l[Newest(l, supported)];
    assert Newest([t], supported) == 0;
    TryFindsNewest([t], Session(t, true), supported, configured, item);
  }

  /** One more query, on values. */
  lemma CostStep(l: ladder, supported: set<nat>, configured: set<nat>, items: seq<nat>, item: nat, s: Scan)
    requires CostIs(l, Newest(l, supported), Leading(configured, items), |items|, s.session, s.cost)
    ensures var q, h := Query(l, s.session, true, Panel(supported, configured, item)), Newest(l, supported);
      && q.result == (if item in configured && h < |l| then Read(l[h]) else Empty)
      && CostIs(l, h, Leading(configured, items + [item]), |items| + 1, q.session, s.cost + q.cost)
  {
    hide Query, Newest, Leading, Reset;
    var n, h := |items|, Newest(l, supported);
    LeadingAppend(configured, items, item);
    if Leading(configured, items) < n && h < |l| {
      ConfirmedQuery(l, supported, configured, item);
    } else {
      FreshQuery(l, supported, configured, item);
    }
  }

  lemma {:induction false} ScanHasFacts(l: ladder, supported: set<nat>, configured: set<nat>, items: seq<nat>)
    ensures var s := ScanItems(l, supported, configured, items);
      && ResultsAre(l, supported, configured, items, s.results)
      && CostIs(l, Newest(l, supported), Leading(configured, items), |items|, s.session, s.cost)
    decreases |items|
  {
    hide Query, Newest, Leading, Reset, CostIs;
    if items == [] {
      NothingScanned(l, Newest(l, supported));
    } else {
      var n := |items| - 1;
      ScanHasFacts(l, supported, configured, items[..n]);
      assert items == items[..n] + [items[n]];
      CostStep(l, supported, configured, items[..n], items[n], ScanItems(l, supported, configured, items[..n]));
    }
  }

  lemma NothingScanned(l: ladder, h: nat)
    ensures CostIs(l, h, 0, 0, Reset(l, true), 0)
  {
  }

  /** Main result, for every panel, ladder and list of items queried after a reset: each
  configured item is read, in the newest type the panel supports (if it supports any), the first
  of them fixes the session type there, and the number of exchanges is the length of the ladder
  for each item before it, down to the supported rung for it, and one for each item after it. */
  lemma ScanReadsEverything(l: ladder, supported: set<nat>, configured: set<nat>, items: seq<nat>)
    ensures var s, h, k := ScanItems(l, supported, configured, items), Newest(l, supported), Leading(configured, items);
      && ResultsAre(l, supported, configured, items, s.results)
      && (k < |items| && h < |l| ==>
            && s.session == Session(l[h], true)
            && s.cost == |l| * k + (h + 1) + (|items| - 1 - k)
            && s.cost <= |l| * (k + 1) + (|items| - (k + 1)))
  {
    hide ScanItems, Newest, Leading, ResultsAre, WholeLadder;
    ScanHasFacts(l, supported, configured, items);
    var k := Leading(configured, items);
    WholeLadderIsProduct(l, k);
    assert |l| * (k + 1) == |l| * k + |l|;
  }

  /** For partitions: `n` queries of which the `k`-th is the first of a configured one, on a panel
  that supports any of the four types, cost at most `4k + (n - k)` exchanges. */
  lemma PartitionScanCost(supported: set<nat>, configured: set<nat>, items: seq<nat>, k: nat)
    requires 1 <= k <= |items| && k - 1 == Leading(configured, items)
    requires supported * {19, 18, 16, 0} != {}
    ensures var s := ScanItems(PARTITIONS, supported, configured, items);
      && s.cost <= 4 * k + (|items| - k)
      && s.session.confirmed && s.session.sessionType in supported
      && forall t :: t in supported * {19, 18, 16, 0} ==> t <= s.session.sessionType
  {
    hide ScanItems, Leading;
    ScanReadsEverything(PARTITIONS, supported, configured, items);
    var h := Newest(PARTITIONS, supported);
    var t :| t in supported * {19, 18, 16, 0};
    NewestIsReached(PARTITIONS, supported, if t == 19 then 0 else if t == 18 then 1 else if t == 16 then 2 else 3);
    forall u | u in supported * {19, 18, 16, 0} ensures u <= PARTITIONS[h] {
      assert u == PARTITIONS[0] || u == PARTITIONS[1] || u == PARTITIONS[2] || u == PARTITIONS[3];
    }
  }

  /** The same for zones and for outputs, with their two types: at most `2k + (n - k)` exchanges. */
  lemma TwoTypeScanCost(l: ladder, supported: set<nat>, configured: set<nat>, items: seq<nat>, k: nat)
    requires l == ZONES || l == OUTPUTS
    requires 1 <= k <= |items| && k - 1 == Leading(configured, items)
    requires l[0] in supported || l[1] in supported
    ensures var s := ScanItems(l, supported, configured, items);
      && s.cost <= 2 * k + (|items| - k)
      && s.session == Session(if l[0] in supported then l[0] else l[1], true)
  {
    hide ScanItems, Leading;
    ScanReadsEverything(l, supported, configured, items);
    NewestIsReached(l, supported, if l[0] in supported then 0 else 1);
  }

  lemma NewestIsReached(l: seq<nat>, supported: set<nat>, i: nat)
    requires i < |l| && l[i] in supported
    ensures Newest(l, supported) <= i
  {
  }

  // ---------- A reset while a query is under way ----------

  /** From then on every query reads in the type confirmed, so configured items are read exactly if
  the panel supports that type, and come back empty, all of them, if it does not. */
  lemma ConfirmedTypeDecides(l: ladder, s: Session, supported: set<nat>, configured: set<nat>, item: nat)
    requires s.confirmed
    ensures var q := Query(l, s, true, Panel(supported, configured, item));
      && q.session == s && q.cost == 1
      && q.result == if s.sessionType in supported && item in configured then Read(s.sessionType) else Empty
  {
    var types := TypesToTry(l, s, true);
    assert types == [s.sessionType] && types[1..] == [];
    TryFindsNewest(types, s, supported, configured, item);
  }

  /** A late reply confirms the type that was answered exactly if it is lower than the type captured,
  or is the session type now. */
  lemma ConfirmLateExactly(s: Session, captured: nat, devType: nat)
    ensures ConfirmLate(s, captured, devType).confirmed
    ensures ConfirmLate(s, captured, devType).sessionType == devType <==> devType < captured || devType == s.sessionType
  {
  }

  /** Main result, for every session, captured type and answered type: after a late reply every query
  makes one exchange and changes nothing, and reads its item exactly if that is configured and the
  type was lowered to the one answered or the panel supports the session type as it is now. */
  lemma LateReplyDecides(l: ladder, s: Session, captured: nat, devType: nat,
                         supported: set<nat>, configured: set<nat>, item: nat)
    requires devType in supported
    ensures var t := ConfirmLate(s, captured, devType);
      var q := Query(l, t, true, Panel(supported, configured, item));
      && q.session == t && q.cost == 1
      && (q.result.Read? <==> item in configured && (devType < captured || s.sessionType in supported))
  {
    ConfirmLateExactly(s, captured, devType);
    ConfirmedTypeDecides(l, ConfirmLate(s, captured, devType), supported, configured, item);
  }

  /** A query started before names were switched to the extended types, and answered with a name
  after it, confirms the newest type, which it has not tried. Until the next reset every configured
  item is then read if the panel supports the newest type, and none if it does not. */
  lemma LateReplyExactly(l: ladder, supported: set<nat>, configured: set<nat>, items: seq<nat>)
    ensures var oldest := l[|l| - 1];
      var s := ConfirmLate(Reset(l, true), Reset(l, false).sessionType, oldest);
      && s == Session(l[0], true)
      && forall i :: 0 <= i < |items| ==>
           var q := Query(l, s, true, Panel(supported, configured, items[i]));
           && q.session == s
           && (q.result.Read? <==> items[i] in configured && l[0] in supported)
  {
    var s := Session(l[0], true);
    forall i | 0 <= i < |items|
      ensures var q := Query(l, s, true, Panel(supported, configured, items[i]));
        q.session == s && (q.result.Read? <==> items[i] in configured && l[0] in supported)
    {
      ConfirmedTypeDecides(l, s, supported, configured, items[i]);
    }
  }

  /** The same happens to a query in a confirmed lower type while the extended types are switched off
  and on again: whatever type was confirmed, the newest one is confirmed untried. */
  lemma LateReplyAfterToggle(l: ladder, confirmed: nat, supported: set<nat>, configured: set<nat>, item: nat)
    requires confirmed in supported
    ensures var s := ConfirmLate(Reset(l, true), confirmed, confirmed);
      var read := Query(l, s, true, Panel(supported, configured, item)).result.Read?;
      && s == Session(l[0], true)
      && (s.sessionType == confirmed <==> confirmed == l[0])
      && (read <==> item in configured && l[0] in supported)
  {
    ConfirmLateExactly(Reset(l, true), confirmed, confirmed);
    LateReplyDecides(l, Reset(l, true), confirmed, confirmed, supported, configured, item);
  }
}
