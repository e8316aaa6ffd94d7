/** What the connection worker does when it has to: which exchanges it starts, when it pings, when it
gives a silent panel up, and when an attempt ends in a connection. Each is said of every run, in terms
of the log, the clock and what the stream delivers. */
module WorkerProgress {
  import opened Bytes
  import opened Demux
  import opened PushMask
  import opened WorkerSpec
  import opened WorkerProperties
  import F = WorkerFaults
  import T = WorkerTelemetry

  /** An exchange that was started: what was to be sent, and how it was answered. */
  datatype Asked = Asked(data: seq<byte>, answer: Answer)

  function Exchanges(log: seq<Mark>): seq<Asked>
  {
    if log == [] then []
    else
      Exchanges(log[..|log| - 1])
        + match log[|log| - 1] case Exchanged(data, answer) => [Asked(data, answer)] case _ => []
  }

  lemma ExchangesAppend(log: seq<Mark>, mark: Mark)
    ensures Exchanges(log + [mark]) ==
      Exchanges(log) + match mark case Exchanged(data, answer) => [Asked(data, answer)] case _ => []
  {
    assert (log + [mark])[..|log|] == log;
  }

  /** A mark that is no exchange. */
  lemma OtherAppend(log: seq<Mark>, mark: Mark)
    requires !mark.Exchanged?
    ensures Exchanges(log + [mark]) == Exchanges(log)
  {
    ExchangesAppend(log, mark);
    assert Exchanges(log) + [] == Exchanges(log);
  }

  // ---------- One exchange ----------

  /** The caller's answer, by how the receive loop ends. */
  function AnswerTo(end: End): Answer
  {
    match end
    case Reply(f) => Replied(f)
    case StreamFailed => IoFailed
    case StreamClosed => Ended
    case _ => Timeout
  }

  predicate Loses(answer: Answer) { answer == IoFailed || answer == Ended }

  /** What the log shows of an exchange over an open stream: unless the write fails or takes too long,
  the data is written once, and then frames are taken off the stream until one starts with `expected`. */
  ghost predicate Shows(w: Worker, x: Worker, data: seq<byte>, expected: byte, isPing: bool, io: Io, answer: Answer)
  {
    var lost := if Loses(answer) then [Entered(ConnectionLost, x.clock, x.wall)] else [];
    && w.stream.Some?
    && match io.send
       case SendFailed => answer == IoFailed && x.log == w.log + lost + [Exchanged(data, answer)]
       case SendTimedOut => answer == Timeout && x.log == w.log + lost + [Exchanged(data, answer)]
       case SendOk =>
         var call := ForExchange(expected, isPing, io.patience);
         && answer == AnswerTo(Serve(w.stream.value, call).end)
         && x.log == w.log + [Wrote(data, isPing, w.clock + io.sending.millis), Took(TakenIn(w.stream.value, call))]
                     + lost + [Exchanged(data, answer)]
  }

  lemma ExchangeShows(w: Worker, data: seq<byte>, expected: byte, isPing: bool, io: Io)
    requires w.stream.Some?
    ensures var (x, answer) := Exchange(w, data, expected, isPing, io); Shows(w, x, data, expected, isPing, io, answer)
  {
    hide Serve, TakenIn, PassAll, ReloadedAll, ToLost;
    var sending := Wait(w, io.sending);
    LostLog(sending.(t := sending.t.(ioErrors := sending.t.ioErrors + 1)));
    var call := ForExchange(expected, isPing, io.patience);
    var wrote := Wait(Sent(sending, data, isPing), io.receiving);
    var absorbed := Absorb(wrote, w.stream.value, call);
    LostLog(absorbed);
    LostLog(absorbed.(t := absorbed.t.(ioErrors := absorbed.t.ioErrors + 1)));
    LostClock(sending.(t := sending.t.(ioErrors := sending.t.ioErrors + 1)));
    LostClock(absorbed);
    LostClock(absorbed.(t := absorbed.t.(ioErrors := absorbed.t.ioErrors + 1)));
  }

  lemma LostClock(w: Worker)
    ensures ToLost(w).clock == w.clock && ToLost(w).wall == w.wall
  {
  }

  lemma ShowsExchange(w: Worker, x: Worker, data: seq<byte>, expected: byte, isPing: bool, io: Io, answer: Answer)
    requires w.stream.Some? && Shows(w, x, data, expected, isPing, io, answer)
    ensures Exchanges(x.log) == Exchanges(w.log) + [Asked(data, answer)]
  {
    hide Exchanges, Serve, TakenIn;
    var n := |x.log| - 1;
    var before := x.log[..n];
    assert x.log == before + [Exchanged(data, answer)];
    ExchangesAppend(before, Exchanged(data, answer));
    var wrote := Wrote(data, isPing, w.clock + io.sending.millis);
    var took := Took(TakenIn(w.stream.value, ForExchange(expected, isPing, io.patience)));
    var start := if io.send.SendOk? then w.log + [wrote] + [took] else w.log;
    OtherAppend(w.log, wrote);
    OtherAppend(w.log + [wrote], took);
    OtherAppend(start, Entered(ConnectionLost, x.clock, x.wall));
    assert before == if Loses(answer) then start + [Entered(ConnectionLost, x.clock, x.wall)] else start;
  }

  lemma ExchangeIsLogged(w: Worker, data: seq<byte>, expected: byte, isPing: bool, io: Io)
    ensures var (x, answer) := Exchange(w, data, expected, isPing, io);
      Exchanges(x.log) == if w.stream.Some? then Exchanges(w.log) + [Asked(data, answer)] else Exchanges(w.log)
  {
    hide Exchanges, Attempt, Shows;
    if w.stream.Some? {
      ExchangeShows(w, data, expected, isPing, io);
      var (x, answer) := Exchange(w, data, expected, isPing, io);
      ShowsExchange(w, x, data, expected, isPing, io, answer);
    }
  }

  // ---------- What is reported of the panel ----------

  /** The versions and auto-read reports among the messages to the state worker. */
  function ReportsIn(notes: seq<Note>): seq<Note>
  {
    if notes == [] then []
    else
      var last := notes[|notes| - 1];
      ReportsIn(notes[..|notes| - 1]) + if last.Version? || last.AutoReadReport? then [last] else []
  }

  lemma ReportsAppend(notes: seq<Note>, note: Note)
    ensures ReportsIn(notes + [note]) == ReportsIn(notes) + if note.Version? || note.AutoReadReport? then [note] else []
  {
    assert (notes + [note])[..|notes|] == notes;
  }

  lemma {:induction false} FramesAreNoReports(notes: seq<Note>, frames: seq<frame>)
    ensures ReportsIn(notes + PassAll(frames)) == ReportsIn(notes)
    decreases |frames|
  {
    if frames == [] {
      assert notes + [] == notes;
    } else {
      assert notes + PassAll(frames) == notes + [Passed(frames[0])] + PassAll(frames[1..]);
      FramesAreNoReports(notes + [Passed(frames[0])], frames[1..]);
      ReportsAppend(notes, Passed(frames[0]));
    }
  }

  lemma PhasesAreNoReports(w: Worker, phase: Phase)
    ensures ReportsIn(Announce(w, phase).notes) == ReportsIn(w.notes)
  {
    hide ReportsIn;
    ReportsAppend(w.notes, Status(phase));
    assert ReportsIn(w.notes) + [] == ReportsIn(w.notes);
  }

  lemma LossIsNoReport(w: Worker)
    ensures ReportsIn(ToLost(w).notes) == ReportsIn(w.notes)
  {
    hide ReportsIn;
    PhasesAreNoReports(w, ConnectionLost);
  }

  lemma ExchangeReportsNothing(w: Worker, data: seq<byte>, expected: byte, isPing: bool, io: Io)
    ensures ReportsIn(Exchange(w, data, expected, isPing, io).0.notes) == ReportsIn(w.notes)
  {
    hide ReportsIn, Serve, TakenIn, PassAll, ReloadedAll, ToLost;
    if w.stream.Some? {
      var sending := Wait(w, io.sending);
      LossIsNoReport(sending.(t := sending.t.(ioErrors := sending.t.ioErrors + 1)));
      var call := ForExchange(expected, isPing, io.patience);
      FramesAreNoReports(w.notes, Serve(w.stream.value, call).forwarded);
      var absorbed := Absorb(Wait(Sent(sending, data, isPing), io.receiving), w.stream.value, call);
      LossIsNoReport(absorbed);
      LossIsNoReport(absorbed.(t := absorbed.t.(ioErrors := absorbed.t.ioErrors + 1)));
    }
  }

  // ---------- A worker in the phase that its log shows ----------

  /** What a run that is in this phase by its log, and has not panicked, can rely on. */
  lemma InPhase(l: Launch, events: seq<Event>, phase: Phase, since: nat)
    requires LastPhase(RunWorker(l, events).log) == Some((phase, since))
    ensures var w := RunWorker(l, events);
      && w.t.phase == phase && w.t.lastEventAt == since
      && (w.stream.Some? <==> phase == Handshake || phase == Connected)
      && phase != Connecting
      && Consistent(w)
      && w.t.lastSendAt == T.LastSend(w.log, l.clock)
  {
    hide RunWorker, T.LastSend, T.TallyOf, T.Reported, PingsCounted, OutageTracked, OwedPassed, Sessions, TotalLength,
      LostAmong, LastPhase;
    RunIsConsistent(l, events);
    T.TelemetryAccounting(l, events);
  }

  lemma OneMore(l: Launch, events: seq<Event>, e: Event)
    ensures RunWorker(l, events + [e]) == Handle(RunWorker(l, events), e, l.maxMissed)
  {
    hide Handle, Connect;
    assert (events + [e])[..|events|] == events;
    RunLast(l, events + [e]);
  }

  // ---------- Callers ----------

  /** Main result, over all runs: a caller's exchange is carried out exactly if the worker is connected
  (for a priority one, or in its handshake) and it has not waited too long. It writes just what the
  caller gave, waits for its first byte (0 for an empty command), and is logged with its answer;
  otherwise nothing happens. */
  lemma CallersAreServedExactly(l: Launch, events: seq<Event>, phase: Phase, since: nat,
                                data: seq<byte>, expired: bool, priority: bool, io: Io)
    requires LastPhase(RunWorker(l, events).log) == Some((phase, since)) && !RunWorker(l, events).dead
    ensures var e := if priority then ExchangePriority(data, io) else ExchangeStandard(data, expired, io);
      var w, x := RunWorker(l, events), RunWorker(l, events + [e]);
      var awaited := if data == [] then 0 else data[0];
      if (phase == Connected && (priority || !expired)) || (phase == Handshake && priority)
      then exists answer :: Shows(w, x, data, awaited, false, io, answer)
      else x == w
  {
    hide RunWorker, LastPhase, Exchange, Shows, Consistent, T.LastSend;
    var e := if priority then ExchangePriority(data, io) else ExchangeStandard(data, expired, io);
    var w := RunWorker(l, events);
    InPhase(l, events, phase, since);
    OneMore(l, events, e);
    if w.stream.Some? {
      ExchangeShows(w, data, FirstByte(data), false, io);
    }
  }

  // ---------- Pings ----------

  /** What a ping that is not answered in time leads to, once the exchange `y` is over. */
  ghost predicate PingMissed(y: Worker, x: Worker, maxMissed: nat)
  {
    var log := y.log + [PingTimedOut];
    if 0 < maxMissed <= TrailingMisses(log)
    then x.log == log + [Entered(ConnectionLost, x.clock, x.wall)] && x.t.phase == ConnectionLost
    else x.log == log && x.t.phase == Connected
  }

  lemma KeepAliveExactly(w: Worker, io: Io, maxMissed: nat)
    requires w.t.phase == Connected && w.stream.Some? && Consistent(w) && maxMissed <= MAX_U32
    ensures var x := KeepAlive(w, io, maxMissed);
      if w.clock < w.t.lastSendAt + 2000 then x == w
      else
        exists y: Worker, answer: Answer ::
          && Shows(w, y, [0x7E], 0x7E, true, io, answer) && y.log <= x.log
          && Exchanges(x.log) == Exchanges(w.log) + [Asked([0x7E], answer)]
          && if answer == Timeout then PingMissed(y, x, maxMissed)
             else x.t.phase == (if answer.Replied? then Connected else ConnectionLost)
  {
    hide Exchanges, Consistent, TrailingMisses, PingMissed, ToLost, HandlePingTimeout, Exchange, Shows;
    if w.clock >= w.t.lastSendAt + 2000 {
      var (x, answer) := Exchange(w, [PANEL_VERSION], PANEL_VERSION, true, io);
      ExchangeShows(w, [PANEL_VERSION], PANEL_VERSION, true, io);
      ExchangeIsLogged(w, [PANEL_VERSION], PANEL_VERSION, true, io);
      F.ExchangePhase(w, [PANEL_VERSION], PANEL_VERSION, true, io);
      if answer == Timeout {
        ExchangeKeeps(w, [PANEL_VERSION], PANEL_VERSION, true, io);
        MissExactly(x, maxMissed);
      }
      assert answer == Timeout || KeepAlive(w, io, maxMissed) == x;
    }
  }

  /** From the timeout on. */
  lemma MissExactly(x: Worker, maxMissed: nat)
    requires Consistent(x) && x.t.phase == Connected && maxMissed <= MAX_U32
    ensures var y := HandlePingTimeout(x);
      var z := if TooManyMissed(y, maxMissed) then ToLost(y) else y;
      PingMissed(x, z, maxMissed) && Exchanges(z.log) == Exchanges(x.log) && x.log <= z.log
  {
    hide Exchanges, Consistent, TrailingMisses, ToLost;
    var y := HandlePingTimeout(x);
    PingTimeoutKeeps(x);
    CountedPings(y);
    LostLog(y);
    LostClock(y);
    LostFacts(y);
    OtherAppend(x.log, PingTimedOut);
    OtherAppend(y.log, Entered(ConnectionLost, y.clock, y.wall));
    assert TooManyMissed(y, maxMissed) <==> 0 < maxMissed <= TrailingMisses(y.log);
  }

  lemma CountedPings(w: Worker)
    requires Consistent(w)
    ensures w.missedPings == Capped(TrailingMisses(w.log))
  {
    hide TrailingMisses, Accounted, OutageTracked, OwedPassed, Stamped;
  }

  /** Main result, over all runs: a tick of a connected worker whose flag is down sends a ping, and
  nothing else, exactly if nothing has been sent for two seconds. A ping that times out is logged as
  missed, and the connection is given up exactly if there is a limit and the misses in a row have
  reached it. */
  lemma PingsAreSentExactly(l: Launch, events: seq<Event>, since: nat, io: TickIo)
    requires LastPhase(RunWorker(l, events).log) == Some((Connected, since)) && !RunWorker(l, events).dead
    requires !RunWorker(l, events).shared.dirty && l.maxMissed <= MAX_U32
    ensures var w, x := RunWorker(l, events), RunWorker(l, events + [TickEvent(io)]);
      if w.clock < T.LastSend(w.log, l.clock) + 2000 then x == w
      else
        exists y: Worker, answer: Answer ::
          && Shows(w, y, [0x7E], 0x7E, true, io.ping, answer) && y.log <= x.log
          && Exchanges(x.log) == Exchanges(w.log) + [Asked([0x7E], answer)]
          && if answer == Timeout then PingMissed(y, x, l.maxMissed)
             else x.t.phase == (if answer.Replied? then Connected else ConnectionLost)
  {
    hide RunWorker, LastPhase, KeepAlive, Consistent, T.LastSend, Exchanges, PingMissed, Shows;
    InPhase(l, events, Connected, since);
    OneMore(l, events, TickEvent(io));
    KeepAliveExactly(RunWorker(l, events), io.ping, l.maxMissed);
  }

  // ---------- The mask ----------

  /** A hot reload: the settings are the new ones at once, and the flag is raised later exactly if one of
  the eighteen settings has changed. */
  lemma ReloadRaisesExactly(s: Shared, config: AutoRead)
    ensures var written := Reloaded(s, WritesConfig(config));
      && written.config == config && written.dirty == s.dirty
      && written.pending == (if config == s.config then s.pending else s.pending + 1)
    ensures Reloaded(s, StoresFlag) ==
      if s.pending == 0 then s else Shared(s.config, true, s.pending - 1)
  {
    hide BuildPushMask;
    if BuildPushMask(s.config, true) == BuildPushMask(config, true) {
      MaskDeterminesSettings(s.config, config, true);
    }
  }

  /** Main result, over all runs: a tick of a connected worker whose flag is up sends the mask for the
  settings it has then, before anything else; after it comes at most a ping. */
  lemma DirtyTickSendsMask(l: Launch, events: seq<Event>, since: nat, io: TickIo)
    requires LastPhase(RunWorker(l, events).log) == Some((Connected, since)) && !RunWorker(l, events).dead
    requires RunWorker(l, events).shared.dirty
    ensures var w, x := RunWorker(l, events), RunWorker(l, events + [TickEvent(io)]);
      var mask := [0x7F] + BuildPushMask(w.shared.config, io.mask.support14);
      exists y: Worker, answer: Answer, pings: seq<Asked> ::
        && Shows(w, y, mask, 0x7F, false, io.mask.io, answer) && y.log <= x.log
        && Exchanges(x.log) == Exchanges(w.log) + [Asked(mask, answer)] + pings
        && (pings == [] || (|pings| == 1 && pings[0].data == [0x7E]))
        && ReportsIn(x.notes) == ReportsIn(w.notes) + if answer.Replied? then [AutoReadReport] else []
  {
    hide RunWorker, LastPhase, KeepAlive, Consistent, T.LastSend, Exchanges, BuildPushMask, Exchange, ReportsIn,
      Shows;
    var w := RunWorker(l, events);
    InPhase(l, events, Connected, since);
    OneMore(l, events, TickEvent(io));
    var mask := [0x7F] + BuildPushMask(w.shared.config, io.mask.support14);
    ExchangeIsLogged(SetDirty(w, false), mask, LIST_OF_NEW_DATA, false, io.mask.io);
    var answer := Exchange(SetDirty(w, false), mask, LIST_OF_NEW_DATA, false, io.mask.io).1;
    ExchangeShows(SetDirty(w, false), mask, LIST_OF_NEW_DATA, false, io.mask.io);
    ShowsCleared(w, Exchange(SetDirty(w, false), mask, LIST_OF_NEW_DATA, false, io.mask.io).0, mask,
                 LIST_OF_NEW_DATA, false, io.mask.io, answer);
    ExchangeReportsNothing(SetDirty(w, false), mask, LIST_OF_NEW_DATA, false, io.mask.io);
    var y := Refresh(w, io.mask);
    ReportsAppend(Exchange(SetDirty(w, false), mask, LIST_OF_NEW_DATA, false, io.mask.io).0.notes, AutoReadReport);
    assert ReportsIn(w.notes) + [] == ReportsIn(w.notes);
    assert Exchanges(y.log) == Exchanges(w.log) + [Asked(mask, answer)];
    var pings := KeepAliveAsks(y, io.ping, l.maxMissed);
  }

  lemma ShowsCleared(w: Worker, x: Worker, data: seq<byte>, expected: byte, isPing: bool, io: Io, answer: Answer)
    requires w.stream.Some? && Shows(SetDirty(w, false), x, data, expected, isPing, io, answer)
    ensures Shows(w, x, data, expected, isPing, io, answer)
  {
    hide Serve, TakenIn;
  }

  lemma KeepAliveAsks(w: Worker, io: Io, maxMissed: nat) returns (pings: seq<Asked>)
    ensures Exchanges(KeepAlive(w, io, maxMissed).log) == Exchanges(w.log) + pings
    ensures pings == [] || (|pings| == 1 && pings[0].data == [0x7E])
    ensures ReportsIn(KeepAlive(w, io, maxMissed).notes) == ReportsIn(w.notes)
    ensures w.log <= KeepAlive(w, io, maxMissed).log
  {
    hide Exchanges, Exchange, ToLost, ReportsIn;
    ExchangeReportsNothing(w, [PANEL_VERSION], PANEL_VERSION, true, io);
    ExchangeGrows(w, [PANEL_VERSION], PANEL_VERSION, true, io);
    LossIsNoReport(HandlePingTimeout(Exchange(w, [PANEL_VERSION], PANEL_VERSION, true, io).0));
    var (x, answer) := Exchange(w, [PANEL_VERSION], PANEL_VERSION, true, io);
    ExchangeIsLogged(w, [PANEL_VERSION], PANEL_VERSION, true, io);
    var y := HandlePingTimeout(x);
    OtherAppend(x.log, PingTimedOut);
    LostLog(y);
    OtherAppend(y.log, Entered(ConnectionLost, y.clock, y.wall));
    pings := if Elapsed(w.clock, w.t.lastSendAt) >= PING_AFTER_MS && w.stream.Some?
             then [Asked([0x7E], answer)] else [];
    assert Exchanges(w.log) + [] == Exchanges(w.log);
  }

  // ---------- A connection attempt ----------

  /** The worker as it asks for the panel's version, and as it comes to the mask. */
  function AfterModule(w: Worker, io: ConnectIo): (Worker, Answer)
    requires io.inbox.Some?
  {
    Exchange(F.Greeted(w, io), [0x7C], 0x7C, false, io.ethm)
  }

  function AfterPanel(w: Worker, io: ConnectIo): (Worker, Answer)
    requires io.inbox.Some?
  {
    Exchange(Notify(AfterModule(w, io).0, Version), [0x7E], 0x7E, false, io.panel)
  }

  function BeforeMask(w: Worker, io: ConnectIo): Worker
    requires io.inbox.Some?
  {
    Wait(Notify(AfterPanel(w, io).0, Version), io.pause)
  }

  function AfterMask(w: Worker, io: ConnectIo): (Worker, Answer)
    requires io.inbox.Some?
  {
    var z := BeforeMask(w, io);
    Exchange(z, [0x7F] + BuildPushMask(z.shared.config, io.mask.support14), 0x7F, false, io.mask.io)
  }

  /** Main result: a connection attempt, from any state, ends Connected exactly if dialling succeeds,
  the module and the panel answer with versions that parse, and the panel answers the mask, if the
  settings then ask for anything. */
  lemma ConnectedExactly(w: Worker, io: ConnectIo)
    ensures Connect(w, io).t.phase == Connected <==>
      && io.inbox.Some?
      && AfterModule(w, io).1.Replied? && io.ethmParses
      && AfterPanel(w, io).1.Replied? && io.panelParses
      && (BeforeMask(w, io).shared.config.IsEnabled() ==> AfterMask(w, io).1.Replied?)
  {
    hide Exchange, ReloadedAll, BuildPushMask, AutoRead.IsEnabled;
    if io.inbox.Some? {
      var q := F.Greeted(w, io);
      F.ExchangePhase(q, [0x7C], 0x7C, false, io.ethm);
      var x := Notify(AfterModule(w, io).0, Version);
      F.ExchangePhase(x, [0x7E], 0x7E, false, io.panel);
    }
  }

  /** What such an attempt asks, in order: the module's version, the panel's version, and the mask. */
  lemma ConnectAsksExactly(w: Worker, io: ConnectIo)
    ensures var asked := Exchanges(Connect(w, io).log);
      if io.inbox.None? then asked == Exchanges(w.log)
      else
        var z := BeforeMask(w, io);
        var module_, panel := AfterModule(w, io).1, AfterPanel(w, io).1;
        var first, second := Asked([0x7C], module_), Asked([0x7E], panel);
        if !(module_.Replied? && io.ethmParses) then asked == Exchanges(w.log) + [first]
        else if !(panel.Replied? && io.panelParses && z.shared.config.IsEnabled())
        then asked == Exchanges(w.log) + [first] + [second]
        else
          asked == Exchanges(w.log) + [first] + [second]
                 + [Asked([0x7F] + BuildPushMask(z.shared.config, io.mask.support14), AfterMask(w, io).1)]
  {
    hide Exchange, Exchanges, ReloadedAll, BuildPushMask, AutoRead.IsEnabled, ToLost;
    OtherAppend(w.log, Entered(Connecting, w.clock, w.wall));
    var dialled := Wait(SetDirty(ToConnecting(w), false), io.dial);
    LostAsks(dialled);
    if io.inbox.Some? {
      OtherAppend(dialled.log, Entered(Handshake, dialled.clock, dialled.wall));
      var q := F.Greeted(w, io);
      assert Exchanges(q.log) == Exchanges(w.log);
      ExchangeIsLogged(q, [0x7C], 0x7C, false, io.ethm);
      F.ExchangePhase(q, [0x7C], 0x7C, false, io.ethm);
      LostAsks(AfterModule(w, io).0);
      var x := Notify(AfterModule(w, io).0, Version);
      if AfterModule(w, io).1.Replied? && io.ethmParses {
        ExchangeIsLogged(x, [0x7E], 0x7E, false, io.panel);
        F.ExchangePhase(x, [0x7E], 0x7E, false, io.panel);
        LostAsks(AfterPanel(w, io).0);
        if AfterPanel(w, io).1.Replied? && io.panelParses {
          SubscribeAsks(BeforeMask(w, io), io);
        }
      }
    }
  }

  /** What it reports, in order: each version that parses, and the mask if the panel answers it. */
  lemma ConnectReportsExactly(w: Worker, io: ConnectIo)
    ensures var reported := ReportsIn(Connect(w, io).notes);
      if io.inbox.None? || !(AfterModule(w, io).1.Replied? && io.ethmParses) then reported == ReportsIn(w.notes)
      else if !(AfterPanel(w, io).1.Replied? && io.panelParses) then reported == ReportsIn(w.notes) + [Version]
      else if !(BeforeMask(w, io).shared.config.IsEnabled() && AfterMask(w, io).1.Replied?)
      then reported == ReportsIn(w.notes) + [Version] + [Version]
      else reported == ReportsIn(w.notes) + [Version] + [Version] + [AutoReadReport]
  {
    hide Exchange, ReportsIn, ReloadedAll, BuildPushMask, AutoRead.IsEnabled, ToLost;
    PhasesAreNoReports(w, Connecting);
    var dialled := Wait(SetDirty(ToConnecting(w), false), io.dial);
    LossIsNoReport(dialled);
    if io.inbox.Some? {
      PhasesAreNoReports(dialled, Handshake);
      var q := F.Greeted(w, io);
      assert ReportsIn(q.notes) == ReportsIn(w.notes);
      ExchangeReportsNothing(q, [0x7C], 0x7C, false, io.ethm);
      LossIsNoReport(AfterModule(w, io).0);
      ReportsAppend(AfterModule(w, io).0.notes, Version);
      var x := Notify(AfterModule(w, io).0, Version);
      ExchangeReportsNothing(x, [0x7E], 0x7E, false, io.panel);
      LossIsNoReport(AfterPanel(w, io).0);
      ReportsAppend(AfterPanel(w, io).0.notes, Version);
      SubscribeReports(BeforeMask(w, io), io);
    }
  }

  lemma SubscribeReports(w: Worker, io: ConnectIo)
    ensures var mask := [0x7F] + BuildPushMask(w.shared.config, io.mask.support14);
      var answered := w.shared.config.IsEnabled() && Exchange(w, mask, 0x7F, false, io.mask.io).1.Replied?;
      ReportsIn(Subscribe(w, io).notes) == ReportsIn(w.notes) + if answered then [AutoReadReport] else []
  {
    hide Exchange, ReportsIn, BuildPushMask, AutoRead.IsEnabled, ToLost;
    var mask := [0x7F] + BuildPushMask(w.shared.config, io.mask.support14);
    ExchangeReportsNothing(w, mask, 0x7F, false, io.mask.io);
    var x := Exchange(w, mask, 0x7F, false, io.mask.io).0;
    LossIsNoReport(x);
    ReportsAppend(x.notes, AutoReadReport);
    PhasesAreNoReports(w, Connected);
    PhasesAreNoReports(Notify(x, AutoReadReport), Connected);
    assert ReportsIn(w.notes) + [] == ReportsIn(w.notes);
  }

  lemma LostAsks(w: Worker)
    ensures Exchanges(ToLost(w).log) == Exchanges(w.log)
  {
    hide ToLost;
    LostLog(w);
    OtherAppend(w.log, Entered(ConnectionLost, w.clock, w.wall));
  }

  lemma SubscribeAsks(w: Worker, io: ConnectIo)
    requires w.stream.Some?
    ensures var mask := [0x7F] + BuildPushMask(w.shared.config, io.mask.support14);
      Exchanges(Subscribe(w, io).log) ==
        if w.shared.config.IsEnabled()
        then Exchanges(w.log) + [Asked(mask, Exchange(w, mask, 0x7F, false, io.mask.io).1)]
        else Exchanges(w.log)
  {
    hide Exchange, Exchanges, BuildPushMask, AutoRead.IsEnabled, ToLost;
    var mask := [0x7F] + BuildPushMask(w.shared.config, io.mask.support14);
    ExchangeIsLogged(w, mask, 0x7F, false, io.mask.io);
    var x := Exchange(w, mask, 0x7F, false, io.mask.io).0;
    LostAsks(x);
    OtherAppend(w.log, Entered(Connected, w.clock, w.wall));
    OtherAppend(x.log, Entered(Connected, x.clock, x.wall));
  }

  // ---------- Requests and pushed frames ----------

  /** Main result, over all runs: a connect request starts an attempt exactly if the worker is
  disconnected or has lost its connection; a disconnect request closes the stream exactly if it is not
  disconnected. Neither does anything else. */
  lemma RequestsAreServedExactly(l: Launch, events: seq<Event>, phase: Phase, since: nat, io: ConnectIo)
    requires LastPhase(RunWorker(l, events).log) == Some((phase, since)) && !RunWorker(l, events).dead
    ensures var w, x := RunWorker(l, events), RunWorker(l, events + [ConnectRequest(io)]);
      if phase == Disconnected || phase == ConnectionLost
      then w.log + [Entered(Connecting, w.clock, w.wall)] <= x.log else x == w
    ensures var w, x := RunWorker(l, events), RunWorker(l, events + [DisconnectRequest]);
      if phase == Disconnected then x == w
      else
        && x.log == w.log + [Entered(Disconnected, w.clock, w.wall)]
        && x.t.phase == Disconnected && x.stream.None? && x.clock == w.clock && x.shared == w.shared
  {
    hide RunWorker, LastPhase, Connect, Consistent, T.LastSend;
    InPhase(l, events, phase, since);
    OneMore(l, events, ConnectRequest(io));
    OneMore(l, events, DisconnectRequest);
    ConnectGrows(RunWorker(l, events), io);
  }

  /** A statistics reset is logged, and touches nothing but the counters and the start of the session; while
  time passes only the clocks move, and hot reloads access what they share. */
  lemma OtherEventsExactly(l: Launch, events: seq<Event>, d: Delay)
    requires !RunWorker(l, events).dead
    ensures var w, x := RunWorker(l, events), RunWorker(l, events + [StatisticsReset]);
      && x == w.(t := x.t, log := w.log + [CountersReset(w.wall)])
      && x.t.phase == w.t.phase && x.t.lastEventAt == w.t.lastEventAt && x.t.lastSendAt == w.t.lastSendAt
      && x.t.failedAttempts == w.t.failedAttempts
    ensures var w, x := RunWorker(l, events), RunWorker(l, events + [TimePasses(d)]);
      x == w.(clock := w.clock + d.millis, wall := d.wall, shared := ReloadedAll(w.shared, d.reloads))
  {
    hide RunWorker;
    OneMore(l, events, StatisticsReset);
    OneMore(l, events, TimePasses(d));
  }

  /** Main result, over all runs: a connected worker whose stream has something ready takes exactly one
  arrival. An empty frame ends the worker; a stream error or the end of the stream loses the
  connection; anything else leaves it connected, and is logged as taken. */
  lemma PushesAreTakenExactly(l: Launch, events: seq<Event>, since: nat, ready: bool, cut: bool)
    requires LastPhase(RunWorker(l, events).log) == Some((Connected, since)) && !RunWorker(l, events).dead
    ensures var w, x := RunWorker(l, events), RunWorker(l, events + [PushReady(ready, cut)]);
      && w.stream.Some?
      && var inbox := w.stream.value;
         if !ready || inbox == [] then x == Record(w, Took([]))
         else if inbox[0] == Arrival([]) then x == w.(dead := true)
         else
           && w.log + [Took(TakenIn(inbox, ForPush(true, cut)))] <= x.log && !x.dead
           && (if inbox[0].Arrival? then x.t.phase == Connected && x.stream == Some(inbox[1..])
               else x.t.phase == ConnectionLost && x.stream.None?)
  {
    hide RunWorker, LastPhase, Consistent, T.LastSend, ReceivePush;
    InPhase(l, events, Connected, since);
    OneMore(l, events, PushReady(ready, cut));
    PushStep(RunWorker(l, events), ready, cut);
  }

  lemma PushStep(w: Worker, ready: bool, cut: bool)
    requires w.stream.Some? && w.t.phase == Connected && !w.dead
    ensures var x, inbox := ReceivePush(w, ready, cut), w.stream.value;
      if !ready || inbox == [] then x == Record(w, Took([]))
      else if inbox[0] == Arrival([]) then x == w.(dead := true)
      else
        && w.log + [Took(TakenIn(inbox, ForPush(true, cut)))] <= x.log && !x.dead
        && (if inbox[0].Arrival? then x.t.phase == Connected && x.stream == Some(inbox[1..])
            else x.t.phase == ConnectionLost && x.stream.None?)
  {
    hide TakenIn, ToLost, PassAll;
    var inbox := w.stream.value;
    var x := Absorb(w, inbox, ForPush(ready, cut));
    if !ready || inbox == [] {
      NothingTaken(inbox, ready, cut);
      assert inbox[0..] == inbox && w.notes + [] == w.notes && PassAll([]) == [] by { PassNothing(); }
    } else {
      LostLog(x);
      LostFacts(x);
      var failed := Record(x.(t := x.t.(ioErrors := x.t.ioErrors + 1)), PushFailed);
      LostLog(failed);
      LostFacts(failed);
    }
  }

  lemma PassNothing()
    ensures PassAll([]) == []
  {
  }

  lemma NothingTaken(inbox: seq<Incoming>, ready: bool, cut: bool)
    requires !ready || inbox == []
    ensures TakenIn(inbox, ForPush(ready, cut)) == []
  {
    hide TakenBy;
    NoFrames();
    NoneTaken(ForPush(ready, cut));
  }

  lemma LostFacts(w: Worker)
    ensures ToLost(w).t.phase == ConnectionLost && ToLost(w).stream.None? && ToLost(w).dead == w.dead
  {
  }
}
