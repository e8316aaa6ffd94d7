/** The worker's telemetry over every run, added up again from its log. */
module WorkerTelemetry {
  import opened Bytes
  import opened Demux
  import opened PushMask
  import opened WorkerSpec
  import opened WorkerProperties

  // ---------- What the log adds up to ----------

  /** Rejections that exchanges took off the stream. */
  function RejectionsIn(taken: seq<Taken>): nat
  {
    if taken == [] then 0
    else One(taken[0].taker.ForExchange? && Rejects(taken[0].f)) + RejectionsIn(taken[1..])
  }

  /** Frames taken, but for those that answer a ping. */
  function TrafficIn(taken: seq<Taken>): nat
  {
    if taken == [] then 0
    else
      var answersPing := taken[0].taker.ForExchange? && taken[0].taker.isPing && taken[0].returned;
      One(!answersPing) + TrafficIn(taken[1..])
  }

  /** Counts since the last statistics reset; the last successful write, the connection attempts that
  have failed since a connection was last established or given up, and the phases, over the whole log. */
  datatype Tally = Tally(timeouts: nat, ioErrors: nat, rejected: nat, nonPing: nat,
                         lastSend: Option<nat>, failed: nat, phases: seq<Phase>)

  const NOTHING := Tally(0, 0, 0, 0, None, 0, [])

  function Add(t: Tally, mark: Mark): Tally
  {
    match mark
    case Entered(phase, _, _) =>
      t.(phases := t.phases + [phase],
         failed := if phase == ConnectionLost then t.failed + 1
                   else if phase == Connected || phase == Disconnected then 0 else t.failed)
    case Wrote(_, isPing, clock) => t.(lastSend := Some(clock), nonPing := t.nonPing + One(!isPing))
    case Took(taken) =>
      t.(rejected := t.rejected + RejectionsIn(taken), nonPing := t.nonPing + TrafficIn(taken))
    case Exchanged(_, answer) =>
      t.(timeouts := t.timeouts + One(answer == Timeout), ioErrors := t.ioErrors + One(answer == IoFailed))
    case PushFailed => t.(ioErrors := t.ioErrors + 1)
    case CountersReset(_) => t.(timeouts := 0, ioErrors := 0, rejected := 0, nonPing := 0)
    case _ => t
  }

  function TallyOf(log: seq<Mark>): Tally
  {
    if log == [] then NOTHING else Add(TallyOf(log[..|log| - 1]), log[|log| - 1])
  }

  /** The phases reported to the state worker. */
  function Reported(notes: seq<Note>): seq<Phase>
  {
    if notes == [] then []
    else Reported(notes[..|notes| - 1]) + match notes[|notes| - 1] case Status(phase) => [phase] case _ => []
  }

  /** When something was last sent, for a worker created at `start`. */
  function LastSend(log: seq<Mark>, start: nat): nat
  {
    match TallyOf(log).lastSend case None => start case Some(clock) => clock
  }

  // ---------- Frames taken and frames counted ----------

  lemma CountsFirst(f: frame, frames: seq<frame>, call: Call, replies: bool)
    ensures var all, rest := TakenBy([f] + frames, call, replies), TakenBy(frames, call, replies);
      && RejectionsIn(all) == One(call.ForExchange? && Rejects(f)) + RejectionsIn(rest)
      && TrafficIn(all) == One(!(call.ForExchange? && call.isPing && replies && frames == [])) + TrafficIn(rest)
  {
    assert ([f] + frames)[1..] == frames;
    assert TakenBy([f] + frames, call, replies)[1..] == TakenBy(frames, call, replies);
  }

  lemma CountsNone(call: Call, replies: bool)
    ensures RejectionsIn(TakenBy([], call, replies)) == 0 && TrafficIn(TakenBy([], call, replies)) == 0
  {
  }

  lemma {:induction false} ExchangeCounts(inbox: seq<Incoming>, patience: nat, expected: byte, isPing: bool)
    ensures var c := Collect(inbox, patience, expected, isPing);
      var taken := TakenBy(Frames(inbox[..c.consumed]), ForExchange(expected, isPing, patience), c.end.Reply?);
      c.rejected == RejectionsIn(taken) && c.nonPing == TrafficIn(taken)
    decreases |inbox|
  {
    ExchangeCountsAs(inbox, patience, expected, isPing, ForExchange(expected, isPing, patience));
  }

  lemma {:induction false} ExchangeCountsAs(inbox: seq<Incoming>, patience: nat, expected: byte, isPing: bool,
                                            call: Call)
    requires call.ForExchange? && call.expected == expected && call.isPing == isPing
    ensures var c := Collect(inbox, patience, expected, isPing);
      var taken := TakenBy(Frames(inbox[..c.consumed]), call, c.end.Reply?);
      c.rejected == RejectionsIn(taken) && c.nonPing == TrafficIn(taken)
    decreases |inbox|
  {
    hide Frames, TakenBy, RejectionsIn, TrafficIn, ExchangeForwards;
    NoFrames();
    CountsNone(call, false);
    var c := Collect(inbox, patience, expected, isPing);
    if c.consumed > 0 {
      var tail := inbox[1..];
      assert inbox[..c.consumed] == [inbox[0]] + tail[..c.consumed - 1];
      FirstFrame(inbox[0], tail[..c.consumed - 1]);
      if inbox[0].Arrival? {
        var f := inbox[0].f;
        if f != [] && IsTarget(f, expected) {
          CountsNone(call, true);
          CountsFirst(f, [], call, true);
          assert [f] + [] == [f];
        } else {
          ExchangeCountsAs(tail, patience - 1, expected, isPing, call);
          ReplyIsTaken(tail, patience - 1, expected, isPing);
          if f != [] {
            CountsFirst(f, Frames(tail[..c.consumed - 1]), call, c.end.Reply?);
          }
        }
      }
    }
  }

  lemma ReplyIsTaken(inbox: seq<Incoming>, patience: nat, expected: byte, isPing: bool)
    ensures var c := Collect(inbox, patience, expected, isPing);
      c.end.Reply? ==> Frames(inbox[..c.consumed]) != []
  {
    hide Collect, Frames;
    ExchangeRepliesFirstTarget(inbox, patience, expected, isPing);
  }

  lemma ServeCounts(inbox: seq<Incoming>, call: Call)
    requires !Serve(inbox, call).end.Panicked?
    ensures Serve(inbox, call).rejected == RejectionsIn(TakenIn(inbox, call))
    ensures Serve(inbox, call).nonPing == TrafficIn(TakenIn(inbox, call))
  {
    hide Collect, Frames, TakenBy, RejectionsIn, TrafficIn;
    match call
    case ForExchange(expected, isPing, patience) => ExchangeCounts(inbox, patience, expected, isPing);
    case ForPush(_, _) =>
      NoFrames();
      CountsNone(call, false);
      if Serve(inbox, call).consumed == 1 {
        assert inbox[..1] == [inbox[0]] + [];
        FirstFrame(inbox[0], []);
        if inbox[0].Arrival? {
          CountsFirst(inbox[0].f, [], call, false);
        }
      }
  }

  // ---------- Each transition keeps the books ----------

  /** The telemetry is what the log adds up to, but for errors of an exchange not yet logged. */
  predicate Matches(w: Worker, start: nat, timeouts: nat, ioErrors: nat)
  {
    var tally := TallyOf(w.log);
    && w.t.timeouts == tally.timeouts + timeouts && w.t.ioErrors == tally.ioErrors + ioErrors
    && w.t.rejected == tally.rejected && w.t.nonPing == tally.nonPing
    && w.t.lastSendAt == LastSend(w.log, start)
    && w.t.failedAttempts == tally.failed
    && Reported(w.notes) == tally.phases
  }

  lemma TallyAppend(log: seq<Mark>, mark: Mark)
    ensures TallyOf(log + [mark]) == Add(TallyOf(log), mark)
  {
    assert (log + [mark])[..|log|] == log;
  }

  lemma ReportedAppend(notes: seq<Note>, note: Note)
    ensures Reported(notes + [note]) == Reported(notes) + match note case Status(phase) => [phase] case _ => []
  {
    assert (notes + [note])[..|notes|] == notes;
  }

  lemma {:induction false} ReportedFrames(notes: seq<Note>, frames: seq<frame>)
    ensures Reported(notes + PassAll(frames)) == Reported(notes)
    decreases |frames|
  {
    if frames == [] {
      assert notes + [] == notes;
    } else {
      assert notes + PassAll(frames) == notes + [Passed(frames[0])] + PassAll(frames[1..]);
      ReportedFrames(notes + [Passed(frames[0])], frames[1..]);
      ReportedAppend(notes, Passed(frames[0]));
    }
  }

  lemma PhaseMatches(w: Worker, phase: Phase, start: nat, timeouts: nat, ioErrors: nat)
    requires Matches(w, start, timeouts, ioErrors)
    ensures var failed := Add(TallyOf(w.log), Entered(phase, w.clock, w.wall)).failed;
      Matches(Announce(w.(t := w.t.(failedAttempts := failed)), phase), start, timeouts, ioErrors)
  {
    hide TallyOf, Reported;
    TallyAppend(w.log, Entered(phase, w.clock, w.wall));
    ReportedAppend(w.notes, Status(phase));
  }

  /** Fields that the books do not cover. */
  predicate SameBooks(w: Worker, x: Worker)
  {
    && w.log == x.log && w.notes == x.notes
    && w.t.timeouts == x.t.timeouts && w.t.ioErrors == x.t.ioErrors && w.t.rejected == x.t.rejected
    && w.t.nonPing == x.t.nonPing && w.t.lastSendAt == x.t.lastSendAt && w.t.failedAttempts == x.t.failedAttempts
  }

  lemma SameMatches(w: Worker, x: Worker, start: nat, timeouts: nat, ioErrors: nat)
    requires SameBooks(w, x) && Matches(w, start, timeouts, ioErrors)
    ensures Matches(x, start, timeouts, ioErrors)
  {
    hide TallyOf, Reported, LastSend;
  }

  lemma EntersMatches(w: Worker, x: Worker, phase: Phase, start: nat, timeouts: nat, ioErrors: nat)
    requires Matches(w, start, timeouts, ioErrors)
    requires var failed := Add(TallyOf(w.log), Entered(phase, w.clock, w.wall)).failed;
      SameBooks(Announce(w.(t := w.t.(failedAttempts := failed)), phase), x)
    ensures Matches(x, start, timeouts, ioErrors)
  {
    hide TallyOf, Matches, SameBooks, Announce;
    PhaseMatches(w, phase, start, timeouts, ioErrors);
    var failed := Add(TallyOf(w.log), Entered(phase, w.clock, w.wall)).failed;
    SameMatches(Announce(w.(t := w.t.(failedAttempts := failed)), phase), x, start, timeouts, ioErrors);
  }

  lemma LostMatches(w: Worker, start: nat, timeouts: nat, ioErrors: nat)
    requires Matches(w, start, timeouts, ioErrors)
    ensures Matches(ToLost(w), start, timeouts, ioErrors)
  {
    hide TallyOf, Reported, LastSend;
    EntersMatches(w, ToLost(w), ConnectionLost, start, timeouts, ioErrors);
  }

  lemma PhasesMatch(w: Worker, inbox: seq<Incoming>, start: nat)
    requires Matches(w, start, 0, 0)
    ensures Matches(ToConnecting(w), start, 0, 0) && Matches(ToHandshake(w, inbox), start, 0, 0)
    ensures Matches(ToConnected(w), start, 0, 0) && Matches(ToDisconnected(w), start, 0, 0)
  {
    hide TallyOf, Reported, LastSend;
    EntersMatches(w, ToConnecting(w), Connecting, start, 0, 0);
    EntersMatches(w, ToHandshake(w, inbox), Handshake, start, 0, 0);
    EntersMatches(w, ToConnected(w), Connected, start, 0, 0);
    EntersMatches(w, ToDisconnected(w), Disconnected, start, 0, 0);
  }

  /** Reports to the state worker that are no phases and no frames. */
  lemma NotifyMatches(w: Worker, note: Note, start: nat)
    requires Matches(w, start, 0, 0) && (note.Version? || note.AutoReadReport?)
    ensures Matches(Notify(w, note), start, 0, 0)
  {
    hide TallyOf, Reported, LastSend;
    ReportedAppend(w.notes, note);
    assert Reported(w.notes) + [] == Reported(w.notes);
  }

  lemma SentMatches(w: Worker, data: seq<byte>, isPing: bool, start: nat)
    requires Matches(w, start, 0, 0)
    ensures Matches(Sent(w, data, isPing), start, 0, 0)
  {
    hide TallyOf, Reported;
    TallyAppend(w.log, Wrote(data, isPing, w.clock));
  }

  lemma AbsorbMatches(w: Worker, inbox: seq<Incoming>, call: Call, start: nat)
    requires Matches(w, start, 0, 0) && !Serve(inbox, call).end.Panicked?
    ensures Matches(Absorb(w, inbox, call), start, 0, 0)
  {
    hide TallyOf, Reported, TakenIn, Serve, RejectionsIn, TrafficIn;
    TallyAppend(w.log, Took(TakenIn(inbox, call)));
    ReportedFrames(w.notes, Serve(inbox, call).forwarded);
    ServeCounts(inbox, call);
  }

  /** The errors an exchange has counted when it ends, and not yet logged. */
  function TimeoutsOf(answer: Answer): nat { One(answer == Timeout) }
  function IoErrorsOf(answer: Answer): nat { One(answer == IoFailed) }

  lemma ErrorMatches(w: Worker, start: nat)
    requires Matches(w, start, 0, 0)
    ensures Matches(w.(t := w.t.(timeouts := w.t.timeouts + 1)), start, 1, 0)
    ensures Matches(w.(t := w.t.(ioErrors := w.t.ioErrors + 1)), start, 0, 1)
    ensures Matches(ToLost(w.(t := w.t.(ioErrors := w.t.ioErrors + 1))), start, 0, 1)
  {
    hide ToLost;
    CountMatches(w, start);
    LostMatches(w.(t := w.t.(ioErrors := w.t.ioErrors + 1)), start, 0, 1);
  }

  lemma CountMatches(w: Worker, start: nat)
    requires Matches(w, start, 0, 0)
    ensures Matches(w.(t := w.t.(timeouts := w.t.timeouts + 1)), start, 1, 0)
    ensures Matches(w.(t := w.t.(ioErrors := w.t.ioErrors + 1)), start, 0, 1)
  {
    hide TallyOf, Reported, LastSend;
  }

  lemma FinishMatches(w: Worker, end: End, start: nat)
    requires Matches(w, start, 0, 0)
    ensures var (x, a) := Finish(w, end); Matches(x, start, TimeoutsOf(a), IoErrorsOf(a))
  {
    hide Matches, ToLost;
    ErrorMatches(w, start);
    LostMatches(w, start, 0, 0);
  }

  lemma AttemptMatches(w: Worker, data: seq<byte>, expected: byte, isPing: bool, io: Io, start: nat)
    requires Matches(w, start, 0, 0) && w.stream.Some?
    ensures var (x, a) := Attempt(w, data, expected, isPing, io); Matches(x, start, TimeoutsOf(a), IoErrorsOf(a))
  {
    hide Matches, Absorb, ToLost, Finish, Collect, ReloadedAll;
    var sending := Wait(w, io.sending);
    SameMatches(w, sending, start, 0, 0);
    ErrorMatches(sending, start);
    var call := ForExchange(expected, isPing, io.patience);
    NeverPanics(w.stream.value, call);
    SentMatches(sending, data, isPing, start);
    var sent := Sent(sending, data, isPing);
    SameMatches(sent, Wait(sent, io.receiving), start, 0, 0);
    AbsorbMatches(Wait(sent, io.receiving), w.stream.value, call, start);
    FinishMatches(Absorb(Wait(sent, io.receiving), w.stream.value, call), Serve(w.stream.value, call).end, start);
  }

  lemma {:induction false} NeverPanics(inbox: seq<Incoming>, call: Call)
    requires call.ForExchange?
    ensures !Serve(inbox, call).end.Panicked?
    decreases |inbox|
  {
    if call.patience > 0 && inbox != [] {
      NeverPanics(inbox[1..], call.(patience := call.patience - 1));
    }
  }

  lemma AnsweredMatches(w: Worker, data: seq<byte>, answer: Answer, start: nat)
    requires Matches(w, start, TimeoutsOf(answer), IoErrorsOf(answer))
    ensures Matches(Record(w, Exchanged(data, answer)), start, 0, 0)
  {
    hide TallyOf, Reported;
    TallyAppend(w.log, Exchanged(data, answer));
  }

  lemma ExchangeMatches(w: Worker, data: seq<byte>, expected: byte, isPing: bool, io: Io, start: nat)
    requires Matches(w, start, 0, 0)
    ensures Matches(Exchange(w, data, expected, isPing, io).0, start, 0, 0)
  {
    hide Matches, Attempt;
    if w.stream.Some? {
      AttemptMatches(w, data, expected, isPing, io, start);
      var (x, a) := Attempt(w, data, expected, isPing, io);
      AnsweredMatches(x, data, a, start);
    }
  }

  lemma PushMatches(w: Worker, ready: bool, cut: bool, start: nat)
    requires Matches(w, start, 0, 0)
    ensures Matches(ReceivePush(w, ready, cut), start, 0, 0)
  {
    hide Matches, Absorb, Serve, ToLost;
    SameMatches(w, w.(dead := true), start, 0, 0);
    if w.stream.Some? && !Serve(w.stream.value, ForPush(ready, cut)).end.Panicked? {
      AbsorbMatches(w, w.stream.value, ForPush(ready, cut), start);
      var x := Absorb(w, w.stream.value, ForPush(ready, cut));
      ErrorMatches(x, start);
      PushFailedMatches(x.(t := x.t.(ioErrors := x.t.ioErrors + 1)), start);
      LostMatches(Record(x.(t := x.t.(ioErrors := x.t.ioErrors + 1)), PushFailed), start, 0, 0);
      LostMatches(x, start, 0, 0);
    }
  }

  lemma PushFailedMatches(w: Worker, start: nat)
    requires Matches(w, start, 0, 1)
    ensures Matches(Record(w, PushFailed), start, 0, 0)
  {
    hide TallyOf, Reported;
    TallyAppend(w.log, PushFailed);
  }

  lemma MaskMatches(w: Worker, m: MaskIo, start: nat)
    requires Matches(w, start, 0, 0)
    ensures Matches(SendPushMask(w, m).0, start, 0, 0) && Matches(Refresh(w, m), start, 0, 0)
  {
    hide Matches, Exchange, BuildPushMask;
    var data := MaskData(w.shared.config, m.support14);
    ExchangeMatches(w, data, LIST_OF_NEW_DATA, false, m.io, start);
    NotifyMatches(Exchange(w, data, LIST_OF_NEW_DATA, false, m.io).0, AutoReadReport, start);
    var cleared := SetDirty(w, false);
    SameMatches(w, cleared, start, 0, 0);
    ExchangeMatches(cleared, data, LIST_OF_NEW_DATA, false, m.io, start);
    var x := Exchange(cleared, data, LIST_OF_NEW_DATA, false, m.io).0;
    NotifyMatches(x, AutoReadReport, start);
    SameMatches(x, SetDirty(x, true), start, 0, 0);
  }

  lemma QueryMatches(w: Worker, command: byte, io: Io, parses: bool, start: nat)
    requires Matches(w, start, 0, 0)
    ensures Matches(VersionQuery(w, command, io, parses).0, start, 0, 0)
  {
    hide Matches, Exchange, ToLost;
    ExchangeMatches(w, [command], command, false, io, start);
    var x := Exchange(w, [command], command, false, io).0;
    LostMatches(x, start, 0, 0);
    NotifyMatches(x, Version, start);
  }

  lemma SubscribeMatches(w: Worker, io: ConnectIo, start: nat)
    requires Matches(w, start, 0, 0)
    ensures Matches(Subscribe(w, io), start, 0, 0)
  {
    hide Matches, SendPushMask, ToLost, ToConnected;
    MaskMatches(w, io.mask, start);
    var x := SendPushMask(w, io.mask).0;
    PhasesMatch(w, [], start);
    PhasesMatch(x, [], start);
    LostMatches(x, start, 0, 0);
  }

  lemma ConnectMatches(w: Worker, io: ConnectIo, start: nat)
    requires Matches(w, start, 0, 0)
    ensures Matches(Connect(w, io), start, 0, 0)
  {
    hide Matches, VersionQuery, Subscribe, ToConnecting, ToHandshake, ToLost, ReloadedAll;
    var dialled := Wait(SetDirty(ToConnecting(w), false), io.dial);
    PhasesMatch(w, [], start);
    SameMatches(ToConnecting(w), dialled, start, 0, 0);
    LostMatches(dialled, start, 0, 0);
    if io.inbox.Some? {
      var shaking := ToHandshake(dialled, io.inbox.value);
      PhasesMatch(dialled, io.inbox.value, start);
      var greeted := Wait(shaking, io.settle);
      SameMatches(shaking, greeted, start, 0, 0);
      QueryMatches(greeted, MODULE_VERSION, io.ethm, io.ethmParses, start);
      var x := VersionQuery(greeted, MODULE_VERSION, io.ethm, io.ethmParses).0;
      QueryMatches(x, PANEL_VERSION, io.panel, io.panelParses, start);
      var y := VersionQuery(x, PANEL_VERSION, io.panel, io.panelParses).0;
      SameMatches(y, Wait(y, io.pause), start, 0, 0);
      SubscribeMatches(Wait(y, io.pause), io, start);
    }
  }

  /** Marks that say nothing the books cover. */
  lemma MarkMatches(w: Worker, start: nat)
    requires Matches(w, start, 0, 0)
    ensures Matches(HandlePingTimeout(w), start, 0, 0)
    ensures Matches(StartReconnect(w), start, 0, 0)
    ensures Matches(ResetStatistics(w), start, 0, 0)
  {
    hide TallyOf, Reported;
    TallyAppend(w.log, PingTimedOut);
    TallyAppend(w.log, ReconnectStarted(w.clock));
    TallyAppend(w.log, CountersReset(w.wall));
  }

  lemma KeepAliveMatches(w: Worker, io: Io, maxMissed: nat, start: nat)
    requires Matches(w, start, 0, 0)
    ensures Matches(KeepAlive(w, io, maxMissed), start, 0, 0)
  {
    hide Matches, Exchange, ToLost, HandlePingTimeout;
    ExchangeMatches(w, [PANEL_VERSION], PANEL_VERSION, true, io, start);
    var x := Exchange(w, [PANEL_VERSION], PANEL_VERSION, true, io).0;
    MarkMatches(x, start);
    LostMatches(HandlePingTimeout(x), start, 0, 0);
  }

  lemma TickMatches(w: Worker, io: TickIo, maxMissed: nat, start: nat)
    requires Matches(w, start, 0, 0)
    ensures Matches(Tick(w, io, maxMissed), start, 0, 0)
  {
    hide Matches, Refresh, KeepAlive, Connect, ToLost, CalculateBackoff, StartReconnect;
    match w.t.phase
    case Connected =>
      MaskMatches(w, io.mask, start);
      KeepAliveMatches(Refresh(w, io.mask), io.ping, maxMissed, start);
    case ConnectionLost =>
      MarkMatches(w, start);
      ConnectMatches(StartReconnect(w), io.connect, start);
    case _ => LostMatches(w, start, 0, 0);
  }

  lemma HandleMatches(w: Worker, e: Event, maxMissed: nat, start: nat)
    requires Matches(w, start, 0, 0)
    ensures Matches(Handle(w, e, maxMissed), start, 0, 0)
  {
    hide Matches, Tick, Connect, Exchange, ReceivePush, ToDisconnected, ResetStatistics, ReloadedAll;
    match e
    case TimePasses(d) => SameMatches(w, Wait(w, d), start, 0, 0);
    case PushReady(ready, cut) => PushMatches(w, ready, cut, start);
    case TickEvent(io) => TickMatches(w, io, maxMissed, start);
    case ExchangeStandard(data, _, io) => ExchangeMatches(w, data, FirstByte(data), false, io, start);
    case ExchangePriority(data, io) => ExchangeMatches(w, data, FirstByte(data), false, io, start);
    case ConnectRequest(io) => ConnectMatches(w, io, start);
    case DisconnectRequest => PhasesMatch(w, [], start);
    case StatisticsReset => MarkMatches(w, start);
  }

  lemma NewMatches(l: Launch)
    ensures Matches(NewWorker(l.config, l.clock, l.wall), l.clock, 0, 0)
  {
  }

  lemma {:induction false} RunMatches(l: Launch, events: seq<Event>)
    ensures Matches(RunWorker(l, events), l.clock, 0, 0)
    decreases |events|
  {
    hide Matches, Connect, Handle;
    if events == [] {
      NewMatches(l);
      ConnectMatches(NewWorker(l.config, l.clock, l.wall), l.first, l.clock);
    } else {
      RunMatches(l, events[..|events| - 1]);
      HandleMatches(RunWorker(l, events[..|events| - 1]), events[|events| - 1], l.maxMissed, l.clock);
    }
  }

  /** Main result, over all runs: every counter of the telemetry is what the log adds up to since the
  last statistics reset, the last send is the last write in the log, the failed attempts are the
  losses in the log since a connection was last established or given up, and the state worker has
  been told of every phase, in order. */
  lemma TelemetryAccounting(l: Launch, events: seq<Event>)
    ensures var w := RunWorker(l, events);
      var tally := TallyOf(w.log);
      && w.t.timeouts == tally.timeouts && w.t.ioErrors == tally.ioErrors
      && w.t.rejected == tally.rejected && w.t.nonPing == tally.nonPing
      && w.t.lastSendAt == LastSend(w.log, l.clock)
      && w.t.failedAttempts == tally.failed
      && Reported(w.notes) == tally.phases
  {
    hide RunWorker, TallyOf, Reported, LastSend;
    RunMatches(l, events);
  }
}
