/** The connection worker runs the mask protocol. Its state, with what the panel has been told by the
log of its exchanges, is a state of `MaskReload`; every event it handles, with the hot reloads that
fall into it, is a path of protocol steps whose mask exchanges are those the event logs. So what is
proved there of all interleavings holds of the worker. */
module MaskLink {
  import opened Bytes
  import opened Demux
  import opened PushMask
  import W = WorkerSpec
  import P = WorkerProperties
  import F = WorkerFaults
  import M = MaskReload

  // ---------- What the log says about the panel ----------

  datatype Outcome = InForce | Refused | Unanswered

  /** A mask that was sent, and what became of it. */
  datatype Sent = Sent(mask: seq<byte>, outcome: Outcome)

  /** The panel takes a mask if it answers with 0x7F or an acceptance, and refuses it with any other
  result code. */
  function OutcomeOf(answer: W.Answer): Outcome
  {
    match answer
    case Replied(f) => if f != [] && (f[0] == 0x7F || Accepts(f)) then InForce else Refused
    case _ => Unanswered
  }

  predicate IsMaskExchange(mark: W.Mark) { mark.Exchanged? && mark.data != [] && mark.data[0] == 0x7F }

  function SentBy(mark: W.Mark): Sent
    requires IsMaskExchange(mark)
  {
    Sent(mark.data[1..], OutcomeOf(mark.answer))
  }

  /** The masks sent, in order. */
  function Masks(log: seq<W.Mark>): seq<Sent>
  {
    if log == [] then []
    else
      var mark := log[|log| - 1];
      Masks(log[..|log| - 1]) + if IsMaskExchange(mark) then [SentBy(mark)] else []
  }

  /** The mask in force after one more is sent; an unanswered one may have been applied. */
  function Told(panel: seq<byte>, sent: Sent, applied: bool): seq<byte>
  {
    if sent.outcome == InForce || (sent.outcome == Unanswered && applied) then sent.mask else panel
  }

  /** The mask in force in the session begun last; `applied` tells for each place of the log whether
  the panel applied the mask sent there although no answer came. */
  function PanelOf(log: seq<W.Mark>, applied: nat -> bool): seq<byte>
  {
    if log == [] then SILENT
    else
      var n := |log| - 1;
      var mark := log[n];
      if mark.Entered? && mark.phase == W.Connecting then SILENT
      else if IsMaskExchange(mark) then Told(PanelOf(log[..n], applied), SentBy(mark), applied(n))
      else PanelOf(log[..n], applied)
  }

  /** The last mask of the session, if it was refused. */
  function RefusedOf(log: seq<W.Mark>): Option<seq<byte>>
  {
    if log == [] then None
    else
      var before, mark := RefusedOf(log[..|log| - 1]), log[|log| - 1];
      if mark.Entered? && mark.phase == W.Connecting then None
      else if !IsMaskExchange(mark) then before
      else
        match SentBy(mark).outcome
        case InForce => None
        case Refused => Some(SentBy(mark).mask)
        case Unanswered => before
  }

  /** The worker and its log as a state of the protocol. */
  function View(w: W.Worker, applied: nat -> bool): M.State
  {
    M.State(w.shared.config, w.shared.dirty, w.shared.pending, M.Idle, w.t.phase == W.Connected,
            PanelOf(w.log, applied), RefusedOf(w.log))
  }

  lemma LogAppend(log: seq<W.Mark>, mark: W.Mark, applied: nat -> bool)
    ensures Masks(log + [mark]) == if IsMaskExchange(mark) then Masks(log) + [SentBy(mark)] else Masks(log)
    ensures PanelOf(log + [mark], applied) ==
      if mark.Entered? && mark.phase == W.Connecting then SILENT
      else if IsMaskExchange(mark) then Told(PanelOf(log, applied), SentBy(mark), applied(|log|))
      else PanelOf(log, applied)
    ensures RefusedOf(log + [mark]) ==
      if mark.Entered? && mark.phase == W.Connecting then None
      else if !IsMaskExchange(mark) || SentBy(mark).outcome == Unanswered then RefusedOf(log)
      else if SentBy(mark).outcome == Refused then Some(mark.data[1..]) else None
  {
    hide Told, OutcomeOf;
    assert (log + [mark])[..|log|] == log;
  }

  // ---------- Paths of the protocol ----------

  /** What a step does to the mask under way. */
  function StepMasks(s: M.State, step: M.Step): seq<Sent>
  {
    if !s.worker.Sending? then []
    else
      match step
      case Accept => [Sent(s.worker.mask, InForce)]
      case Refuse => [Sent(s.worker.mask, Refused)]
      case SendFail(_, _) => [Sent(s.worker.mask, Unanswered)]
      case _ => []
  }

  /** A path from `s` to `t` that sends just these masks, in order, with these outcomes. */
  ghost predicate Path(s: M.State, steps: seq<M.Step>, masks: seq<Sent>, t: M.State)
    decreases |steps|
  {
    if steps == [] then s == t && masks == []
    else
      exists mid: M.State, rest: seq<Sent> ::
        && Path(mid, steps[1..], rest, t)
        && M.Next(s, steps[0], mid) && masks == StepMasks(s, steps[0]) + rest
  }

  ghost predicate Reaches(s: M.State, masks: seq<Sent>, t: M.State)
  {
    exists steps: seq<M.Step> :: Path(s, steps, masks, t)
  }

  lemma {:induction false} PathThen(s: M.State, a: seq<M.Step>, ms: seq<Sent>, t: M.State,
                                    b: seq<M.Step>, ns: seq<Sent>, u: M.State)
    requires Path(s, a, ms, t) && Path(t, b, ns, u)
    ensures Path(s, a + b, ms + ns, u)
    decreases |a|
  {
    hide M.Next, StepMasks;
    if a == [] {
      assert a + b == b && ms + ns == ns;
    } else {
      var mid: M.State, rest: seq<Sent> :|
        Path(mid, a[1..], rest, t) && M.Next(s, a[0], mid) && ms == StepMasks(s, a[0]) + rest;
      PathThen(mid, a[1..], rest, t, b, ns, u);
      assert (a + b)[1..] == a[1..] + b && (a + b)[0] == a[0];
      assert ms + ns == StepMasks(s, a[0]) + (rest + ns);
    }
  }

  lemma Then(s: M.State, ms: seq<Sent>, t: M.State, ns: seq<Sent>, u: M.State)
    requires Reaches(s, ms, t) && Reaches(t, ns, u)
    ensures Reaches(s, ms + ns, u)
    ensures ms == [] ==> Reaches(s, ns, u)
    ensures ns == [] ==> Reaches(s, ms, u)
  {
    hide Path;
    var a: seq<M.Step> :| Path(s, a, ms, t);
    var b: seq<M.Step> :| Path(t, b, ns, u);
    PathThen(s, a, ms, t, b, ns, u);
    assert ms == [] ==> ms + ns == ns;
    assert ns == [] ==> ms + ns == ms;
  }

  lemma Stays(s: M.State)
    ensures Reaches(s, [], s)
  {
    assert Path(s, [], [], s);
  }

  lemma Steps(s: M.State, step: M.Step, t: M.State)
    requires M.Next(s, step, t)
    ensures Reaches(s, StepMasks(s, step), t)
  {
    hide M.Next, StepMasks;
    assert Path(t, [step][1..], [], t);
    assert StepMasks(s, step) == StepMasks(s, step) + [];
    assert Path(s, [step], StepMasks(s, step), t);
  }

  // ---------- What hot reloads do meanwhile ----------

  function SharedOf(s: M.State): W.Shared { W.Shared(s.config, s.dirty, s.pending) }

  function With(s: M.State, shared: W.Shared): M.State
  {
    s.(config := shared.config, dirty := shared.dirty, pending := shared.pending)
  }

  lemma ReloadReaches(s: M.State, r: W.Reload)
    ensures Reaches(s, [], With(s, W.Reloaded(SharedOf(s), r)))
  {
    hide Reaches, BuildPushMask;
    var t := With(s, W.Reloaded(SharedOf(s), r));
    match r
    case WritesConfig(config) => Steps(s, M.ReloadWrite(config), t);
    case StoresFlag =>
      if s.pending > 0 {
        Steps(s, M.ReloadStore, t);
      } else {
        Stays(s);
      }
  }

  lemma {:induction false} ReloadsReach(s: M.State, reloads: seq<W.Reload>)
    ensures Reaches(s, [], With(s, W.ReloadedAll(SharedOf(s), reloads)))
    decreases |reloads|
  {
    hide Reaches, W.Reloaded;
    if reloads == [] {
      Stays(s);
    } else {
      var mid := With(s, W.Reloaded(SharedOf(s), reloads[0]));
      ReloadReaches(s, reloads[0]);
      ReloadsReach(mid, reloads[1..]);
      Then(s, [], mid, [], With(s, W.ReloadedAll(SharedOf(s), reloads)));
    }
  }

  /** Between the start and the end of an exchange nothing but hot reloads touches the protocol. */
  lemma AttemptReaches(w: W.Worker, data: seq<byte>, expected: byte, isPing: bool, io: W.Io, s: M.State)
    requires w.stream.Some? && SharedOf(s) == w.shared
    ensures Reaches(s, [], With(s, W.Attempt(w, data, expected, isPing, io).0.shared))
  {
    hide Reaches, W.ReloadedAll, Serve;
    var mid := With(s, W.ReloadedAll(w.shared, io.sending.reloads));
    ReloadsReach(s, io.sending.reloads);
    ReloadsReach(mid, io.receiving.reloads);
    Then(s, [], mid, [], With(s, W.ReloadedAll(SharedOf(mid), io.receiving.reloads)));
  }

  // ---------- What exchanges do to the log ----------

  /** The two logs say the same about masks. */
  ghost predicate SameMasks(a: seq<W.Mark>, b: seq<W.Mark>)
  {
    && Masks(a) == Masks(b) && RefusedOf(a) == RefusedOf(b)
    && forall applied: nat -> bool :: PanelOf(a, applied) == PanelOf(b, applied)
  }

  /** Marks that say nothing about masks. */
  predicate IsQuiet(mark: W.Mark)
  {
    !IsMaskExchange(mark) && !(mark.Entered? && mark.phase == W.Connecting)
  }

  lemma QuietAppend(log: seq<W.Mark>, mark: W.Mark)
    requires IsQuiet(mark)
    ensures SameMasks(log + [mark], log)
  {
    forall applied: nat -> bool ensures PanelOf(log + [mark], applied) == PanelOf(log, applied) {
      LogAppend(log, mark, applied);
    }
    LogAppend(log, mark, _ => false);
  }

  lemma SameMasksTwice(a: seq<W.Mark>, b: seq<W.Mark>, c: seq<W.Mark>)
    requires SameMasks(a, b) && SameMasks(b, c)
    ensures SameMasks(a, c)
  {
    hide Masks, PanelOf, RefusedOf;
  }

  lemma LostIsQuiet(w: W.Worker)
    ensures SameMasks(W.ToLost(w).log, w.log)
  {
    hide SameMasks, W.ToLost;
    P.LostLog(w);
    QuietAppend(w.log, W.Entered(W.ConnectionLost, w.clock, w.wall));
  }

  lemma FinishIsQuiet(w: W.Worker, end: End)
    ensures SameMasks(W.Finish(w, end).0.log, w.log)
  {
    hide SameMasks, W.ToLost;
    SameLog(w.log);
    LostIsQuiet(w);
    LostIsQuiet(w.(t := w.t.(ioErrors := w.t.ioErrors + 1)));
  }

  lemma SameLog(log: seq<W.Mark>)
    ensures SameMasks(log, log)
  {
  }

  lemma AttemptIsQuiet(w: W.Worker, data: seq<byte>, expected: byte, isPing: bool, io: W.Io)
    requires w.stream.Some?
    ensures SameMasks(W.Attempt(w, data, expected, isPing, io).0.log, w.log)
  {
    hide SameMasks, Serve, TakenIn, W.PassAll, W.ReloadedAll, W.Finish, W.ToLost;
    var sending := W.Wait(w, io.sending);
    SameLog(w.log);
    LostIsQuiet(sending.(t := sending.t.(ioErrors := sending.t.ioErrors + 1)));
    var call := ForExchange(expected, isPing, io.patience);
    var wrote := w.log + [W.Wrote(data, isPing, sending.clock)];
    var absorbed := W.Absorb(W.Wait(W.Sent(sending, data, isPing), io.receiving), w.stream.value, call);
    QuietAppend(w.log, W.Wrote(data, isPing, sending.clock));
    QuietAppend(wrote, W.Took(TakenIn(w.stream.value, call)));
    FinishIsQuiet(absorbed, Serve(w.stream.value, call).end);
    SameMasksTwice(absorbed.log, wrote, w.log);
    SameMasksTwice(W.Finish(absorbed, Serve(w.stream.value, call).end).0.log, absorbed.log, w.log);
  }

  /** An exchange that does not send a mask. */
  lemma ExchangeReaches(w: W.Worker, data: seq<byte>, expected: byte, isPing: bool, io: W.Io, s: M.State)
    requires SharedOf(s) == w.shared && (data == [] || data[0] != 0x7F)
    ensures var x := W.Exchange(w, data, expected, isPing, io).0;
      Reaches(s, [], With(s, x.shared)) && SameMasks(x.log, w.log)
  {
    hide Reaches, SameMasks, W.Attempt;
    if w.stream.None? {
      Stays(s);
      SameLog(w.log);
    } else {
      var (x, a) := W.Attempt(w, data, expected, isPing, io);
      AttemptReaches(w, data, expected, isPing, io, s);
      AttemptIsQuiet(w, data, expected, isPing, io);
      QuietAppend(x.log, W.Exchanged(data, a));
      SameMasksTwice(x.log + [W.Exchanged(data, a)], x.log, w.log);
    }
  }

  /** One that does: what is sent, how it is answered, and what the log then says. */
  lemma MaskReaches(w: W.Worker, m: W.MaskIo, s: M.State, applied: nat -> bool)
    requires w.stream.Some? && SharedOf(s) == w.shared
    ensures var (x, a) := W.SendPushMask(w, m);
      var sent := Sent(BuildPushMask(w.shared.config, m.support14), OutcomeOf(a));
      && Reaches(s, [], With(s, x.shared)) && a != W.NotConnected && x.log != []
      && Masks(x.log) == Masks(w.log) + [sent]
      && PanelOf(x.log, applied) == Told(PanelOf(w.log, applied), sent, applied(|x.log| - 1))
      && RefusedOf(x.log) == match sent.outcome
           case InForce => None
           case Refused => Some(sent.mask)
           case Unanswered => RefusedOf(w.log)
  {
    hide Reaches, W.Attempt, BuildPushMask, Masks, PanelOf, RefusedOf;
    var mask := BuildPushMask(w.shared.config, m.support14);
    var data := W.MaskData(w.shared.config, m.support14);
    var (x, a) := W.Attempt(w, data, W.LIST_OF_NEW_DATA, false, m.io);
    assert data[0] == 0x7F && data[1..] == mask;
    AttemptReaches(w, data, W.LIST_OF_NEW_DATA, false, m.io, s);
    AttemptIsQuiet(w, data, W.LIST_OF_NEW_DATA, false, m.io);
    F.AttemptPhase(w, data, W.LIST_OF_NEW_DATA, false, m.io);
    LogAppend(x.log, W.Exchanged(data, a), applied);
  }

  // ---------- The parts of an event that matter ----------

  /** The worker at some place of the protocol in which no session is open. */
  function Offline(w: W.Worker, applied: nat -> bool, place: M.Worker): M.State
  {
    View(w, applied).(worker := place, connected := false)
  }

  lemma Quietly(a: seq<W.Mark>, b: seq<W.Mark>, applied: nat -> bool)
    requires SameMasks(a, b)
    ensures Masks(a) == Masks(b) && PanelOf(a, applied) == PanelOf(b, applied) && RefusedOf(a) == RefusedOf(b)
  {
    hide Masks, PanelOf, RefusedOf;
  }

  /** A tick that finds the flag up. */
  lemma RefreshReaches(w: W.Worker, m: W.MaskIo, applied: nat -> bool)
    requires w.t.phase == W.Connected && w.stream.Some?
    ensures Leads(View(w, applied), w.log, W.Refresh(w, m), applied)
  {
    hide Reaches, Leads, Masks, PanelOf, RefusedOf, BuildPushMask, W.Exchange, StepMasks;
    var s := View(w, applied);
    if !w.shared.dirty {
      SameLeads(w, applied);
    } else {
      var cleared := W.SetDirty(w, false);
      var (x, a) := W.SendPushMask(cleared, m);
      var mask := BuildPushMask(w.shared.config, m.support14);
      var sent := Sent(mask, OutcomeOf(a));
      var s1 := s.(dirty := false, worker := M.Swapped);
      var s2 := s1.(worker := M.Sending(mask, false));
      var s3 := With(s2, x.shared);
      Steps(s, M.TickSwap, s1);
      Steps(s1, M.ReadMask(m.support14), s2);
      MaskReaches(cleared, m, s2, applied);
      RefreshPhase(w, m);
      NoMask(s, M.TickSwap);
      NoMask(s1, M.ReadMask(m.support14));
      Then(s, [], s1, [], s2);
      Then(s, [], s2, [], s3);
      RefreshEnds(w, m, applied, s3);
      Then(s, [], s3, [sent], View(W.Refresh(w, m), applied));
      LeadsWith(s, w.log, W.Refresh(w, m), applied, [sent]);
    }
  }

  lemma NoMask(s: M.State, step: M.Step)
    requires !s.worker.Sending?
    ensures StepMasks(s, step) == []
  {
  }

  lemma RefreshPhase(w: W.Worker, m: W.MaskIo)
    requires w.t.phase == W.Connected && w.stream.Some? && w.shared.dirty
    ensures var (x, a) := W.SendPushMask(W.SetDirty(w, false), m);
      && W.Refresh(w, m) == (if a.Replied? then x else W.SetDirty(x, true))
      && (a.Replied? || a == W.Timeout ==> x.t.phase == W.Connected && x.stream.Some?)
      && (!a.Replied? && a != W.Timeout ==> x.t.phase == W.ConnectionLost && x.stream.None?)
  {
    hide W.Exchange, BuildPushMask;
    F.ExchangePhase(W.SetDirty(w, false), W.MaskData(w.shared.config, m.support14), W.LIST_OF_NEW_DATA, false, m.io);
  }

  /** How the answer to a mask ends the sending of it. */
  lemma AnswerReaches(s: M.State, sent: Sent, applied: bool, lost: bool)
    requires s.worker.Sending? && s.worker.mask == sent.mask
    ensures var panel := Told(s.panel, sent, applied);
      var place := if s.worker.connecting then M.Configured else M.Idle;
      match sent.outcome
      case InForce => Reaches(s, [sent], s.(panel := panel, refused := None, worker := place))
      case Refused => Reaches(s, [sent], s.(panel := panel, refused := Some(sent.mask), worker := place))
      case Unanswered =>
        Reaches(s, [sent], s.(panel := panel, connected := s.connected && !lost,
                              worker := if s.worker.connecting then M.Idle else M.Failing))
  {
    hide Reaches;
    var panel := Told(s.panel, sent, applied);
    var place := if s.worker.connecting then M.Configured else M.Idle;
    match sent.outcome
    case InForce => Steps(s, M.Accept, s.(panel := panel, refused := None, worker := place));
    case Refused => Steps(s, M.Refuse, s.(panel := panel, refused := Some(sent.mask), worker := place));
    case Unanswered =>
      Steps(s, M.SendFail(lost, applied),
            s.(panel := panel, connected := s.connected && !lost,
               worker := if s.worker.connecting then M.Idle else M.Failing));
  }

  lemma RefreshEnds(w: W.Worker, m: W.MaskIo, applied: nat -> bool, s: M.State)
    requires w.t.phase == W.Connected && w.stream.Some? && w.shared.dirty
    requires var (x, a) := W.SendPushMask(W.SetDirty(w, false), m);
      s == With(View(w, applied).(worker := M.Sending(BuildPushMask(w.shared.config, m.support14), false)), x.shared)
    ensures var (x, a) := W.SendPushMask(W.SetDirty(w, false), m);
      Reaches(s, [Sent(BuildPushMask(w.shared.config, m.support14), OutcomeOf(a))], View(W.Refresh(w, m), applied))
  {
    hide Reaches, Masks, PanelOf, RefusedOf, BuildPushMask, W.SendPushMask, StepMasks, W.Refresh;
    var cleared := W.SetDirty(w, false);
    var (x, a) := W.SendPushMask(cleared, m);
    var sent := Sent(BuildPushMask(w.shared.config, m.support14), OutcomeOf(a));
    var lost := x.t.phase != W.Connected;
    MaskReaches(cleared, m, View(cleared, applied), applied);
    RefreshPhase(w, m);
    AnswerReaches(s, sent, applied(|x.log| - 1), lost);
    if sent.outcome == Unanswered {
      var failing := s.(panel := Told(s.panel, sent, applied(|x.log| - 1)), connected := !lost, worker := M.Failing);
      Steps(failing, M.StoreBack, View(W.SetDirty(x, true), applied));
      NoMask(failing, M.StoreBack);
      Then(s, [sent], failing, [], View(W.SetDirty(x, true), applied));
    }
  }

  /** Whatever else happens to a worker, it can only lose its connection. */
  lemma Drops(s: M.State, connected: bool)
    requires s.worker == M.Idle && (connected ==> s.connected)
    ensures Reaches(s, [], s.(connected := connected))
  {
    hide Reaches;
    if connected == s.connected {
      Stays(s);
    } else {
      Steps(s, M.Drop, s.(connected := false));
      NoMask(s, M.Drop);
    }
  }

  /** An event that sends no mask: the shared state changes by reloads alone, the log says nothing
  new about masks, and a session may end. */
  lemma QuietReaches(w: W.Worker, x: W.Worker, applied: nat -> bool)
    requires Reaches(View(w, applied), [], With(View(w, applied), x.shared)) && SameMasks(x.log, w.log)
    requires x.t.phase == W.Connected ==> w.t.phase == W.Connected
    ensures Masks(x.log) == Masks(w.log) && Reaches(View(w, applied), [], View(x, applied))
  {
    hide Reaches, Masks, PanelOf, RefusedOf, SameMasks;
    Quietly(x.log, w.log, applied);
    var mid := With(View(w, applied), x.shared);
    Drops(mid, x.t.phase == W.Connected);
    Then(View(w, applied), [], mid, [], View(x, applied));
  }

  lemma KeepAliveReaches(w: W.Worker, io: W.Io, maxMissed: nat, applied: nat -> bool)
    ensures var x := W.KeepAlive(w, io, maxMissed);
      Masks(x.log) == Masks(w.log) && Reaches(View(w, applied), [], View(x, applied))
  {
    hide Reaches, SameMasks, Masks, W.Exchange, W.ToLost, View;
    var (x, a) := W.Exchange(w, [W.PANEL_VERSION], W.PANEL_VERSION, true, io);
    var y := W.HandlePingTimeout(x);
    ViewStays(w, applied);
    ExchangeReaches(w, [W.PANEL_VERSION], W.PANEL_VERSION, true, io, View(w, applied));
    F.ExchangePhase(w, [W.PANEL_VERSION], W.PANEL_VERSION, true, io);
    QuietReaches(w, x, applied);
    QuietAppend(x.log, W.PingTimedOut);
    LostIsQuiet(y);
    SameMasksTwice(y.log, x.log, w.log);
    SameMasksTwice(W.ToLost(y).log, y.log, w.log);
    LostFacts(y);
    QuietReaches(w, y, applied);
    QuietReaches(w, W.ToLost(y), applied);
  }

  lemma LostFacts(w: W.Worker)
    ensures W.ToLost(w).shared == w.shared && W.ToLost(w).t.phase == W.ConnectionLost
  {
  }

  lemma ViewStays(w: W.Worker, applied: nat -> bool)
    ensures Masks(w.log) == Masks(w.log) && Reaches(View(w, applied), [], View(w, applied))
    ensures SharedOf(View(w, applied)) == w.shared
  {
    Stays(View(w, applied));
  }

  // ---------- A connection attempt ----------

  /** While no session is open and no mask is sent, a worker moves on quietly in its place. */
  lemma OfflineReaches(w: W.Worker, x: W.Worker, applied: nat -> bool, place: M.Worker)
    requires SameMasks(x.log, w.log)
    requires Reaches(Offline(w, applied, place), [], With(Offline(w, applied, place), x.shared))
    ensures Masks(x.log) == Masks(w.log)
    ensures Reaches(Offline(w, applied, place), [], Offline(x, applied, place))
  {
    hide Reaches, Masks, PanelOf, RefusedOf, SameMasks;
    Quietly(x.log, w.log, applied);
    assert With(Offline(w, applied, place), x.shared) == Offline(x, applied, place);
  }

  lemma WaitReaches(w: W.Worker, d: W.Delay, applied: nat -> bool, place: M.Worker)
    ensures Reaches(Offline(w, applied, place), [], Offline(W.Wait(w, d), applied, place))
  {
    hide Reaches, SameMasks, W.ReloadedAll;
    ReloadsReach(Offline(w, applied, place), d.reloads);
    SameLog(w.log);
    OfflineReaches(w, W.Wait(w, d), applied, place);
  }

  lemma QueryReaches(w: W.Worker, command: byte, io: W.Io, parses: bool, applied: nat -> bool, place: M.Worker)
    requires command != 0x7F
    ensures var x := W.VersionQuery(w, command, io, parses).0;
      Masks(x.log) == Masks(w.log) && Reaches(Offline(w, applied, place), [], Offline(x, applied, place))
  {
    hide Reaches, SameMasks, Masks, Offline, W.Exchange, W.ToLost;
    var x := W.Exchange(w, [command], command, false, io).0;
    OfflineShared(w, applied, place);
    ExchangeReaches(w, [command], command, false, io, Offline(w, applied, place));
    LostIsQuiet(x);
    LostFacts(x);
    SameMasksTwice(W.ToLost(x).log, x.log, w.log);
    OfflineReaches(w, x, applied, place);
    OfflineReaches(w, W.ToLost(x), applied, place);
    OfflineReaches(w, W.Notify(x, W.Version), applied, place);
  }

  lemma OfflineShared(w: W.Worker, applied: nat -> bool, place: M.Worker)
    ensures SharedOf(Offline(w, applied, place)) == w.shared
  {
  }

  lemma PhaseIsQuiet(w: W.Worker, x: W.Worker, phase: W.Phase)
    requires phase != W.Connecting && x.log == w.log + [W.Entered(phase, w.clock, w.wall)]
    ensures SameMasks(x.log, w.log)
  {
    QuietAppend(w.log, W.Entered(phase, w.clock, w.wall));
  }

  /** The end of a successful attempt. */
  lemma ConnectedReaches(w: W.Worker, applied: nat -> bool)
    ensures var x := W.ToConnected(w);
      Masks(x.log) == Masks(w.log) && Reaches(Offline(w, applied, M.Configured), [], View(x, applied))
  {
    hide Reaches, SameMasks, Masks, PanelOf, RefusedOf;
    var x := W.ToConnected(w);
    PhaseIsQuiet(w, x, W.Connected);
    Quietly(x.log, w.log, applied);
    Steps(Offline(w, applied, M.Configured), M.SetConnected, View(x, applied));
    NoMask(Offline(w, applied, M.Configured), M.SetConnected);
  }

  /** The end of a failed one, with no mask sent. */
  lemma FailedReaches(w: W.Worker, applied: nat -> bool)
    requires w.t.phase != W.Connected
    ensures Reaches(Offline(w, applied, M.Cleared), [], View(w, applied))
  {
    hide Reaches, PanelOf, RefusedOf;
    Steps(Offline(w, applied, M.Cleared), M.ConnectFail, View(w, applied));
    NoMask(Offline(w, applied, M.Cleared), M.ConnectFail);
  }

  /** What a part of an event sends, and where it leads. */
  ghost predicate Leads(s: M.State, before: seq<W.Mark>, x: W.Worker, applied: nat -> bool)
  {
    exists sent :: Masks(x.log) == Masks(before) + sent && Reaches(s, sent, View(x, applied))
  }

  lemma LeadsWith(s: M.State, before: seq<W.Mark>, x: W.Worker, applied: nat -> bool, sent: seq<Sent>)
    requires Masks(x.log) == Masks(before) + sent && Reaches(s, sent, View(x, applied))
    ensures Leads(s, before, x, applied)
  {
  }

  lemma LeadsQuietly(s: M.State, before: seq<W.Mark>, x: W.Worker, applied: nat -> bool)
    requires Masks(x.log) == Masks(before) && Reaches(s, [], View(x, applied))
    ensures Leads(s, before, x, applied)
  {
    hide Reaches, Masks, View;
    assert Masks(x.log) == Masks(before) + [];
  }

  /** A quiet stretch before. */
  lemma LeadsAfter(s: M.State, t: M.State, before: seq<W.Mark>, between: seq<W.Mark>, x: W.Worker, applied: nat -> bool)
    requires Reaches(s, [], t) && Masks(between) == Masks(before) && Leads(t, between, x, applied)
    ensures Leads(s, before, x, applied)
  {
    hide Reaches, Masks, View;
    var sent :| Masks(x.log) == Masks(between) + sent && Reaches(t, sent, View(x, applied));
    Then(s, [], t, sent, View(x, applied));
  }

  /** A quiet stretch behind. */
  lemma LeadsOn(s: M.State, before: seq<W.Mark>, y: W.Worker, x: W.Worker, applied: nat -> bool)
    requires Leads(s, before, y, applied)
    requires Masks(x.log) == Masks(y.log) && Reaches(View(y, applied), [], View(x, applied))
    ensures Leads(s, before, x, applied)
  {
    hide Reaches, Masks, View;
    var sent :| Masks(y.log) == Masks(before) + sent && Reaches(s, sent, View(y, applied));
    Then(s, sent, View(y, applied), [], View(x, applied));
  }

  lemma SilentLeads(w: W.Worker, io: W.ConnectIo, applied: nat -> bool)
    requires w.t.phase == W.Handshake && !w.shared.config.IsEnabled()
    ensures Leads(Offline(w, applied, M.Cleared), w.log, W.Subscribe(w, io), applied)
  {
    hide Reaches, Masks, PanelOf, RefusedOf, Leads;
    var s := Offline(w, applied, M.Cleared);
    Steps(s, M.CheckAutoRead, Offline(w, applied, M.Configured));
    NoMask(s, M.CheckAutoRead);
    ConnectedReaches(w, applied);
    Then(s, [], Offline(w, applied, M.Configured), [], View(W.ToConnected(w), applied));
    LeadsQuietly(s, w.log, W.ToConnected(w), applied);
  }

  lemma SubscribedLeads(w: W.Worker, io: W.ConnectIo, applied: nat -> bool)
    requires w.t.phase == W.Handshake && w.stream.Some? && w.shared.config.IsEnabled()
    ensures Leads(Offline(w, applied, M.Cleared), w.log, W.Subscribe(w, io), applied)
  {
    hide Reaches, Masks, PanelOf, RefusedOf, Leads, BuildPushMask, W.SendPushMask, StepMasks;
    var (x, a) := W.SendPushMask(w, io.mask);
    var sent := Sent(BuildPushMask(w.shared.config, io.mask.support14), OutcomeOf(a));
    var s := Offline(w, applied, M.Cleared);
    var s1 := s.(worker := M.Chosen);
    var s2 := s.(worker := M.Sending(sent.mask, true));
    var s3 := With(s2, x.shared);
    Steps(s, M.CheckAutoRead, s1);
    NoMask(s, M.CheckAutoRead);
    Steps(s1, M.ReadMask(io.mask.support14), s2);
    NoMask(s1, M.ReadMask(io.mask.support14));
    MaskReaches(w, io.mask, s2, applied);
    AnswerReaches(s3, sent, applied(|x.log| - 1), false);
    Then(s, [], s1, [], s2);
    Then(s, [], s2, [], s3);
    if a.Replied? {
      Then(s, [], s3, [sent], Offline(x, applied, M.Configured));
      ConnectedReaches(x, applied);
      Then(s, [sent], Offline(x, applied, M.Configured), [], View(W.ToConnected(x), applied));
      LeadsWith(s, w.log, W.ToConnected(x), applied, [sent]);
    } else {
      LostIsQuiet(x);
      LostFacts(x);
      Quietly(W.ToLost(x).log, x.log, applied);
      LostView(x, applied);
      Then(s, [], s3, [sent], View(W.ToLost(x), applied));
      LeadsWith(s, w.log, W.ToLost(x), applied, [sent]);
    }
  }

  lemma LostView(w: W.Worker, applied: nat -> bool)
    ensures View(W.ToLost(w), applied) == Offline(w, applied, M.Idle)
  {
    hide W.ToLost, SameMasks, Masks, PanelOf, RefusedOf;
    LostIsQuiet(w);
    LostFacts(w);
    Quietly(W.ToLost(w).log, w.log, applied);
  }

  lemma DialLeads(w: W.Worker, io: W.ConnectIo, applied: nat -> bool)
    requires w.t.phase == W.Connecting
    ensures Leads(Offline(w, applied, M.Cleared), w.log, W.Dial(w, io), applied)
  {
    hide Reaches, Masks, Leads, Offline, View, W.VersionQuery, W.Subscribe, W.ReloadedAll, W.ToLost;
    var dialled := W.Wait(w, io.dial);
    var s := Offline(w, applied, M.Cleared);
    WaitReaches(w, io.dial, applied, M.Cleared);
    match io.inbox
    case None =>
      GivesUp(dialled, applied);
      LeadsAfter(s, Offline(dialled, applied, M.Cleared), w.log, dialled.log, W.ToLost(dialled), applied);
    case Some(inbox) =>
      var shaking := W.ToHandshake(dialled, inbox);
      var greeted := W.Wait(shaking, io.settle);
      ShakesQuietly(dialled, inbox, applied);
      WaitReaches(shaking, io.settle, applied, M.Cleared);
      Then(s, [], Offline(dialled, applied, M.Cleared), [], Offline(shaking, applied, M.Cleared));
      Then(s, [], Offline(shaking, applied, M.Cleared), [], Offline(greeted, applied, M.Cleared));
      GreetedLeads(greeted, io, applied);
      LeadsAfter(s, Offline(greeted, applied, M.Cleared), w.log, greeted.log, W.Dial(w, io), applied);
  }

  lemma GivesUp(w: W.Worker, applied: nat -> bool)
    ensures Leads(Offline(w, applied, M.Cleared), w.log, W.ToLost(w), applied)
  {
    hide Reaches, Masks, PanelOf, RefusedOf, Leads, SameMasks, W.ToLost;
    LostView(w, applied);
    LostIsQuiet(w);
    Quietly(W.ToLost(w).log, w.log, applied);
    Steps(Offline(w, applied, M.Cleared), M.ConnectFail, Offline(w, applied, M.Idle));
    NoMask(Offline(w, applied, M.Cleared), M.ConnectFail);
    LeadsQuietly(Offline(w, applied, M.Cleared), w.log, W.ToLost(w), applied);
  }

  lemma ShakesQuietly(w: W.Worker, inbox: seq<Incoming>, applied: nat -> bool)
    ensures var x := W.ToHandshake(w, inbox);
      && Masks(x.log) == Masks(w.log)
      && Reaches(Offline(w, applied, M.Cleared), [], Offline(x, applied, M.Cleared))
  {
    hide Reaches, SameMasks, Masks, PanelOf, RefusedOf;
    var x := W.ToHandshake(w, inbox);
    PhaseIsQuiet(w, x, W.Handshake);
    Stays(Offline(w, applied, M.Cleared));
    OfflineReaches(w, x, applied, M.Cleared);
  }

  /** What follows the two version queries. */
  lemma GreetedLeads(w: W.Worker, io: W.ConnectIo, applied: nat -> bool)
    requires w.t.phase == W.Handshake && w.stream.Some?
    ensures var (x, ok) := W.VersionQuery(w, W.MODULE_VERSION, io.ethm, io.ethmParses);
      var (y, go) := W.VersionQuery(x, W.PANEL_VERSION, io.panel, io.panelParses);
      var z := if !ok then x else if !go then y else W.Subscribe(W.Wait(y, io.pause), io);
      Leads(Offline(w, applied, M.Cleared), w.log, z, applied)
  {
    hide Reaches, Masks, Leads, Offline, View, W.VersionQuery, W.Subscribe, W.ReloadedAll;
    var s := Offline(w, applied, M.Cleared);
    var (x, ok) := W.VersionQuery(w, W.MODULE_VERSION, io.ethm, io.ethmParses);
    QueryReaches(w, W.MODULE_VERSION, io.ethm, io.ethmParses, applied, M.Cleared);
    QueryPhase(w, W.MODULE_VERSION, io.ethm, io.ethmParses);
    if !ok {
      FailedReaches(x, applied);
      Then(s, [], Offline(x, applied, M.Cleared), [], View(x, applied));
      LeadsQuietly(s, w.log, x, applied);
    } else {
      var (y, go) := W.VersionQuery(x, W.PANEL_VERSION, io.panel, io.panelParses);
      QueryReaches(x, W.PANEL_VERSION, io.panel, io.panelParses, applied, M.Cleared);
      QueryPhase(x, W.PANEL_VERSION, io.panel, io.panelParses);
      Then(s, [], Offline(x, applied, M.Cleared), [], Offline(y, applied, M.Cleared));
      if !go {
        FailedReaches(y, applied);
        Then(s, [], Offline(y, applied, M.Cleared), [], View(y, applied));
        LeadsQuietly(s, w.log, y, applied);
      } else {
        var z := W.Wait(y, io.pause);
        WaitReaches(y, io.pause, applied, M.Cleared);
        Then(s, [], Offline(y, applied, M.Cleared), [], Offline(z, applied, M.Cleared));
        if z.shared.config.IsEnabled() {
          SubscribedLeads(z, io, applied);
        } else {
          SilentLeads(z, io, applied);
        }
        LeadsAfter(s, Offline(z, applied, M.Cleared), w.log, z.log, W.Subscribe(z, io), applied);
      }
    }
  }

  lemma QueryPhase(w: W.Worker, command: byte, io: W.Io, parses: bool)
    requires w.t.phase == W.Handshake && w.stream.Some?
    ensures var (x, ok) := W.VersionQuery(w, command, io, parses);
      && x.t.phase != W.Connected
      && (ok ==> x.t.phase == W.Handshake && x.stream.Some?)
  {
    hide W.Exchange;
    F.ExchangePhase(w, [command], command, false, io);
  }

  lemma ConnectLeads(w: W.Worker, io: W.ConnectIo, applied: nat -> bool)
    requires w.t.phase != W.Connected
    ensures Leads(View(w, applied), w.log, W.Connect(w, io), applied)
  {
    hide Reaches, Masks, PanelOf, RefusedOf, Leads, W.Dial;
    var dialling := W.SetDirty(W.ToConnecting(w), false);
    LogAppend(w.log, W.Entered(W.Connecting, w.clock, w.wall), applied);
    Steps(View(w, applied), M.ConnectClear, Offline(dialling, applied, M.Cleared));
    NoMask(View(w, applied), M.ConnectClear);
    DialLeads(dialling, io, applied);
    LeadsAfter(View(w, applied), Offline(dialling, applied, M.Cleared), w.log, dialling.log, W.Connect(w, io), applied);
  }

  // ---------- Whole events and whole runs ----------

  lemma TickLeads(w: W.Worker, io: W.TickIo, maxMissed: nat, applied: nat -> bool)
    requires w.t.phase == W.Connected ==> w.stream.Some?
    ensures Leads(View(w, applied), w.log, W.Tick(w, io, maxMissed), applied)
  {
    hide Reaches, Masks, Leads, View, SameMasks, W.Refresh, W.KeepAlive, W.Connect, W.ToLost, W.CalculateBackoff;
    SameLeads(w, applied);
    match w.t.phase
    case Connected =>
      var x := W.Refresh(w, io.mask);
      RefreshReaches(w, io.mask, applied);
      KeepAliveReaches(x, io.ping, maxMissed, applied);
      LeadsOn(View(w, applied), w.log, x, W.KeepAlive(x, io.ping, maxMissed), applied);
    case ConnectionLost =>
      var x := W.StartReconnect(w);
      StartsQuietly(w, applied);
      ConnectLeads(x, io.connect, applied);
      LeadsAfter(View(w, applied), View(x, applied), w.log, x.log, W.Connect(x, io.connect), applied);
    case _ =>
      LostLeads(w, applied);
  }

  lemma SameLeads(w: W.Worker, applied: nat -> bool)
    ensures Leads(View(w, applied), w.log, w, applied)
  {
    hide Reaches, Masks, Leads, View;
    Stays(View(w, applied));
    LeadsQuietly(View(w, applied), w.log, w, applied);
  }

  lemma StartsQuietly(w: W.Worker, applied: nat -> bool)
    ensures var x := W.StartReconnect(w);
      Masks(x.log) == Masks(w.log) && Reaches(View(w, applied), [], View(x, applied))
  {
    hide Reaches, SameMasks, Masks, PanelOf, RefusedOf;
    QuietAppend(w.log, W.ReconnectStarted(w.clock));
    Quietly(W.StartReconnect(w).log, w.log, applied);
    Stays(View(w, applied));
  }

  /** A worker that has changed nothing the protocol shares, and at most lost its connection. */
  lemma QuietLeads(w: W.Worker, x: W.Worker, applied: nat -> bool)
    requires x.shared == w.shared && SameMasks(x.log, w.log)
    requires x.t.phase == W.Connected ==> w.t.phase == W.Connected
    ensures Leads(View(w, applied), w.log, x, applied)
  {
    hide Reaches, Masks, Leads, SameMasks, PanelOf, RefusedOf;
    Stays(View(w, applied));
    QuietReaches(w, x, applied);
    LeadsQuietly(View(w, applied), w.log, x, applied);
  }

  lemma LostLeads(w: W.Worker, applied: nat -> bool)
    ensures Leads(View(w, applied), w.log, W.ToLost(w), applied)
  {
    hide Leads, SameMasks, W.ToLost;
    LostIsQuiet(w);
    LostFacts(w);
    QuietLeads(w, W.ToLost(w), applied);
  }

  lemma PushLeads(w: W.Worker, ready: bool, cut: bool, applied: nat -> bool)
    requires w.t.phase == W.Connected
    ensures Leads(View(w, applied), w.log, W.ReceivePush(w, ready, cut), applied)
  {
    hide Leads, SameMasks, W.ToLost, TakenIn, Serve, W.PassAll;
    SameLog(w.log);
    if w.stream.Some? {
      var x := W.Absorb(w, w.stream.value, ForPush(ready, cut));
      var counted := W.Record(x.(t := x.t.(ioErrors := x.t.ioErrors + 1)), W.PushFailed);
      QuietAppend(w.log, W.Took(TakenIn(w.stream.value, ForPush(ready, cut))));
      QuietAppend(x.log, W.PushFailed);
      SameMasksTwice(counted.log, x.log, w.log);
      LostIsQuiet(x);
      LostIsQuiet(counted);
      LostFacts(x);
      LostFacts(counted);
      SameMasksTwice(W.ToLost(x).log, x.log, w.log);
      SameMasksTwice(W.ToLost(counted).log, counted.log, w.log);
    }
    QuietLeads(w, W.ReceivePush(w, ready, cut), applied);
  }

  lemma ExchangeLeads(w: W.Worker, data: seq<byte>, io: W.Io, applied: nat -> bool)
    requires data == [] || data[0] != 0x7F
    ensures Leads(View(w, applied), w.log, W.Exchange(w, data, W.FirstByte(data), false, io).0, applied)
  {
    hide Leads, Reaches, SameMasks, Masks, PanelOf, RefusedOf, W.Exchange;
    var x := W.Exchange(w, data, W.FirstByte(data), false, io).0;
    ExchangeReaches(w, data, W.FirstByte(data), false, io, View(w, applied));
    F.ExchangePhase(w, data, W.FirstByte(data), false, io);
    QuietReaches(w, x, applied);
    LeadsQuietly(View(w, applied), w.log, x, applied);
  }

  lemma WaitLeads(w: W.Worker, d: W.Delay, applied: nat -> bool)
    ensures Leads(View(w, applied), w.log, W.Wait(w, d), applied)
  {
    hide Leads, Reaches, Masks, PanelOf, RefusedOf, W.ReloadedAll;
    ReloadsReach(View(w, applied), d.reloads);
    LeadsQuietly(View(w, applied), w.log, W.Wait(w, d), applied);
  }

  /** The caller of an exchange does not send a mask of its own. */
  predicate SendsNoMask(e: W.Event)
  {
    match e
    case ExchangeStandard(data, _, _) => data == [] || data[0] != 0x7F
    case ExchangePriority(data, _) => data == [] || data[0] != 0x7F
    case _ => true
  }

  /** Main result: every event the worker handles, with the hot reloads that fall into it, is a path
  of the protocol from the worker's state to its state; and the masks sent along the path are, in
  order and with their outcomes, exactly those of the exchanges the event logs. */
  lemma EventFollows(w: W.Worker, e: W.Event, maxMissed: nat, applied: nat -> bool)
    requires SendsNoMask(e) && (w.t.phase == W.Connected ==> w.stream.Some?)
    ensures var x := W.Handle(w, e, maxMissed);
      exists sent :: Masks(x.log) == Masks(w.log) + sent && Reaches(View(w, applied), sent, View(x, applied))
  {
    HandleLeads(w, e, maxMissed, applied);
  }

  lemma HandleLeads(w: W.Worker, e: W.Event, maxMissed: nat, applied: nat -> bool)
    requires SendsNoMask(e) && (w.t.phase == W.Connected ==> w.stream.Some?)
    ensures Leads(View(w, applied), w.log, W.Handle(w, e, maxMissed), applied)
  {
    hide Leads, View, SameMasks, W.Tick, W.Connect, W.Exchange, W.ReceivePush, W.ReloadedAll;
    SameLeads(w, applied);
    match e
    case TimePasses(d) => WaitLeads(w, d, applied);
    case PushReady(ready, cut) =>
      if w.t.phase == W.Connected {
        PushLeads(w, ready, cut, applied);
      }
    case TickEvent(io) => TickLeads(w, io, maxMissed, applied);
    case ExchangeStandard(data, _, io) => ExchangeLeads(w, data, io, applied);
    case ExchangePriority(data, io) => ExchangeLeads(w, data, io, applied);
    case ConnectRequest(io) =>
      if w.t.phase != W.Connected {
        ConnectLeads(w, io, applied);
      }
    case DisconnectRequest =>
      PhaseIsQuiet(w, W.ToDisconnected(w), W.Disconnected);
      QuietLeads(w, W.ToDisconnected(w), applied);
    case StatisticsReset =>
      QuietAppend(w.log, W.CountersReset(w.wall));
      QuietLeads(w, W.ResetStatistics(w), applied);
  }

  /** Main result, over all runs: from the protocol's initial state a path leads to the worker's
  state, and sends just the masks that the log has. */
  lemma {:induction false} RunFollows(l: W.Launch, events: seq<W.Event>, applied: nat -> bool)
    requires forall i :: 0 <= i < |events| ==> SendsNoMask(events[i])
    ensures var start := View(W.NewWorker(l.config, l.clock, l.wall), applied);
      var w := W.RunWorker(l, events);
      M.Init(start) && Reaches(start, Masks(w.log), View(w, applied))
    decreases |events|
  {
    hide Reaches, Leads, W.Connect, W.Handle, SendsNoMask, P.AtBoundary;
    var newborn := W.NewWorker(l.config, l.clock, l.wall);
    var w := W.RunWorker(l, events);
    if events == [] {
      ConnectLeads(newborn, l.first, applied);
      Unpack(View(newborn, applied), newborn.log, w, applied);
      var sent :| Masks(w.log) == Masks(newborn.log) + sent && Reaches(View(newborn, applied), sent, View(w, applied));
      assert Masks(newborn.log) + sent == sent;
    } else {
      var n := |events| - 1;
      var before := W.RunWorker(l, events[..n]);
      RunFollows(l, events[..n], applied);
      P.RunIsConsistent(l, events[..n]);
      F.BoundaryFacts(before, l.maxMissed);
      HandleLeads(before, events[n], l.maxMissed, applied);
      Unpack(View(before, applied), before.log, w, applied);
      var sent :| Masks(w.log) == Masks(before.log) + sent && Reaches(View(before, applied), sent, View(w, applied));
      Then(View(newborn, applied), Masks(before.log), View(before, applied), sent, View(w, applied));
    }
  }

  lemma Unpack(s: M.State, before: seq<W.Mark>, x: W.Worker, applied: nat -> bool)
    requires Leads(s, before, x, applied)
    ensures exists sent :: Masks(x.log) == Masks(before) + sent && Reaches(s, sent, View(x, applied))
  {
    hide Reaches, Masks, View;
  }

  lemma {:induction false} PathKeepsInvariant(s: M.State, steps: seq<M.Step>, masks: seq<Sent>, t: M.State)
    requires M.Invariant(s) && Path(s, steps, masks, t)
    ensures M.Invariant(t)
    decreases |steps|
  {
    hide M.Invariant, M.Next, StepMasks;
    if steps != [] {
      var mid: M.State, rest: seq<Sent> :|
        Path(mid, steps[1..], rest, t) && M.Next(s, steps[0], mid) && masks == StepMasks(s, steps[0]) + rest;
      M.NextKeepsInvariant(s, steps[0], mid);
      PathKeepsInvariant(mid, steps[1..], rest, t);
    }
  }

  /** Main result, over all runs of the worker with hot reloads at any time: if a session is open and
  the mask in force does not say what the settings say, then the flag is up, or a reload has yet to
  store it, or the panel has refused just this mask. */
  lemma WorkerLosesNothing(l: W.Launch, events: seq<W.Event>, applied: nat -> bool)
    requires forall i :: 0 <= i < |events| ==> SendsNoMask(events[i])
    ensures var w := W.RunWorker(l, events);
      var refused := RefusedOf(w.log);
      w.t.phase == W.Connected && !M.Agrees(PanelOf(w.log, applied), w.shared.config) ==>
        || w.shared.dirty || w.shared.pending > 0
        || (refused.Some? && M.Agrees(refused.value, w.shared.config))
  {
    hide Path, W.RunWorker, PanelOf, RefusedOf, Masks, M.Agrees, SendsNoMask, W.NewWorker;
    RunFollows(l, events, applied);
    var start, w := View(W.NewWorker(l.config, l.clock, l.wall), applied), W.RunWorker(l, events);
    var steps: seq<M.Step> :| Path(start, steps, Masks(w.log), View(w, applied));
    PathKeepsInvariant(start, steps, Masks(w.log), View(w, applied));
  }
}
