/** What holds of the connection worker over every run: session accounting, the ping watchdog and
the pacing of reconnects. */
module WorkerProperties {
  import opened Bytes
  import opened Demux
  import opened PushMask
  import opened WorkerSpec

  // ---------- What the log says ----------

  /** When the running session was opened, or restarted by a statistics reset. */
  function OpenSince(log: seq<Mark>): Option<int>
  {
    if log == [] then None
    else
      var rest := log[..|log| - 1];
      match log[|log| - 1]
      case Entered(phase, _, wall) => if phase == Connected then Some(wall) else None
      case CountersReset(wall) => if OpenSince(rest).Some? then Some(wall) else None
      case _ => OpenSince(rest)
  }

  /** A closed session: from when to when it ran, and whether it was lost or cleanly ended. */
  datatype Session = Session(from: int, until: int, lost: bool)

  /** The sessions closed since the last statistics reset. */
  function Sessions(log: seq<Mark>): seq<Session>
  {
    if log == [] then []
    else
      var rest := log[..|log| - 1];
      match log[|log| - 1]
      case Entered(phase, _, wall) =>
        Sessions(rest) + (match OpenSince(rest)
                          case Some(since) => [Session(since, wall, phase == ConnectionLost)]
                          case None => [])
      case CountersReset(_) => []
      case _ => Sessions(rest)
  }

  /** A wall clock that has been set back makes no negative length. */
  function Clamped(length: int): nat { if length < 0 then 0 else length }

  function TotalLength(sessions: seq<Session>): nat
  {
    if sessions == [] then 0
    else
      var last := sessions[|sessions| - 1];
      TotalLength(sessions[..|sessions| - 1]) + Clamped(last.until - last.from)
  }

  function LostAmong(sessions: seq<Session>): (n: nat)
    ensures n <= |sessions|
  {
    if sessions == [] then 0
    else LostAmong(sessions[..|sessions| - 1]) + One(sessions[|sessions| - 1].lost)
  }

  /** Sessions established, and automatic reconnects started, since the last statistics reset. */
  function Established(log: seq<Mark>): nat
  {
    if log == [] then 0
    else
      var rest := Established(log[..|log| - 1]);
      match log[|log| - 1]
      case Entered(phase, _, _) => rest + One(phase == Connected)
      case CountersReset(_) => 0
      case _ => rest
  }

  function Reconnects(log: seq<Mark>): nat
  {
    if log == [] then 0
    else
      match log[|log| - 1]
      case ReconnectStarted(_) => Reconnects(log[..|log| - 1]) + 1
      case CountersReset(_) => 0
      case _ => Reconnects(log[..|log| - 1])
  }

  /** One if a session was running at the last statistics reset. */
  function Carried(log: seq<Mark>): nat
  {
    if log == [] then 0
    else
      match log[|log| - 1]
      case CountersReset(_) => One(OpenSince(log[..|log| - 1]).Some?)
      case _ => Carried(log[..|log| - 1])
  }

  /** Phases whose beginning opens or ends a session. */
  predicate ChangesSession(phase: Phase) { phase == Connected || phase == ConnectionLost || phase == Disconnected }

  /** Ping timeouts since the last non-empty frame whose receive was not cut, or session change. */
  function TrailingMisses(log: seq<Mark>): nat
  {
    if log == [] then 0
    else
      var rest := log[..|log| - 1];
      match log[|log| - 1]
      case PingTimedOut => TrailingMisses(rest) + 1
      case Took(taken) => if AllCut(taken) then TrailingMisses(rest) else 0
      case Entered(phase, _, _) => if ChangesSession(phase) then 0 else TrailingMisses(rest)
      case _ => TrailingMisses(rest)
  }

  /** While the panel is out of reach: when it was lost, and when automatic reconnects started. */
  function Outage(log: seq<Mark>): seq<nat>
  {
    if log == [] then []
    else
      var rest := Outage(log[..|log| - 1]);
      match log[|log| - 1]
      case Entered(phase, clock, _) =>
        if phase == Connected || phase == Disconnected then []
        else if phase == ConnectionLost && rest == [] then [clock] else rest
      case ReconnectStarted(clock) => rest + [clock]
      case _ => rest
  }

  /** The phase entered last, and when by the monotone clock. */
  function LastPhase(log: seq<Mark>): Option<(Phase, nat)>
  {
    if log == [] then None
    else
      match log[|log| - 1]
      case Entered(phase, clock, _) => Some((phase, clock))
      case _ => LastPhase(log[..|log| - 1])
  }

  /** Every non-empty frame taken off the streams, in order. */
  function TakenOf(log: seq<Mark>): seq<Taken>
  {
    if log == [] then []
    else
      TakenOf(log[..|log| - 1]) + match log[|log| - 1] case Took(taken) => taken case _ => []
  }

  /** The frames among the messages to the state worker. */
  function PassedOf(notes: seq<Note>): seq<frame>
  {
    if notes == [] then []
    else PassedOf(notes[..|notes| - 1]) + match notes[|notes| - 1] case Passed(f) => [f] case _ => []
  }

  function Capped(n: nat): nat { if n < MAX_U32 then n else MAX_U32 }

  function One(b: bool): nat { if b then 1 else 0 }

  // ---------- The invariant ----------

  /** The stream is open, and a session is running, just in the phases that say so; the counters
  and the total are those of the sessions in the log. */
  predicate Accounted(w: Worker)
  {
    && (w.stream.Some? <==> w.t.phase == Handshake || w.t.phase == Connected)
    && w.t.connectedSince == OpenSince(w.log)
    && (w.t.connectedSince.Some? <==> w.t.phase == Connected)
    && w.t.established == Established(w.log)
    && w.t.lost == LostAmong(Sessions(w.log))
    && w.t.reconnectAttempts == Reconnects(w.log)
    && w.t.totalConnectedBefore == TotalLength(Sessions(w.log))
  }

  predicate PingsCounted(w: Worker)
  {
    w.missedPings == Capped(TrailingMisses(w.log))
  }

  /** Each automatic reconnect kept its distance from the attempt, or the loss, before it. */
  predicate Paced(outage: seq<nat>)
  {
    forall k :: 1 <= k < |outage| ==> outage[k] >= outage[k - 1] + CalculateBackoff(k)
  }

  /** While the panel is out of reach every attempt has been counted as failed. */
  predicate OutageTracked(w: Worker)
  {
    var outage := Outage(w.log);
    && Paced(outage)
    && w.t.lastEventAt <= w.clock
    && (outage != [] ==>
          && outage[|outage| - 1] <= w.t.lastEventAt
          && w.t.failedAttempts + One(w.t.phase != ConnectionLost) >= |outage|)
    && (w.t.phase == ConnectionLost ==> outage != [])
    && (w.t.phase == Connected || w.t.phase == Disconnected ==> outage == [])
  }

  /** The state worker has been given exactly the frames it is owed whose receive was not cut. */
  predicate OwedPassed(w: Worker)
  {
    PassedOf(w.notes) == Given(TakenOf(w.log))
  }

  /** When the present phase began, by the log. */
  predicate Stamped(w: Worker)
  {
    LastPhase(w.log).Some? ==> LastPhase(w.log).value == (w.t.phase, w.t.lastEventAt)
  }

  predicate Consistent(w: Worker)
  {
    Accounted(w) && PingsCounted(w) && OutageTracked(w) && OwedPassed(w) && Stamped(w)
  }

  // ---------- Each transition keeps it ----------

  /** What one more mark changes. */
  lemma SessionsAppend(log: seq<Mark>, mark: Mark)
    ensures OpenSince(log + [mark]) == match mark
      case Entered(phase, _, wall) => if phase == Connected then Some(wall) else None
      case CountersReset(wall) => if OpenSince(log).Some? then Some(wall) else None
      case _ => OpenSince(log)
    ensures var closed := mark.Entered? && OpenSince(log).Some?;
      closed ==>
        var session := Session(OpenSince(log).value, mark.wall, mark.phase == ConnectionLost);
        && TotalLength(Sessions(log + [mark]))
             == TotalLength(Sessions(log)) + Clamped(session.until - session.from)
        && LostAmong(Sessions(log + [mark])) == LostAmong(Sessions(log)) + One(session.lost)
    ensures !(mark.Entered? && OpenSince(log).Some?) ==>
      Sessions(log + [mark]) == if mark.CountersReset? then [] else Sessions(log)
  {
    assert (log + [mark])[..|log|] == log;
    if mark.Entered? && OpenSince(log).Some? {
      var sessions := Sessions(log);
      var session := Session(OpenSince(log).value, mark.wall, mark.phase == ConnectionLost);
      assert (sessions + [session])[..|sessions|] == sessions;
    }
  }

  lemma CountsAppend(log: seq<Mark>, mark: Mark)
    ensures Established(log + [mark]) == match mark
      case Entered(phase, _, _) => Established(log) + One(phase == Connected)
      case CountersReset(_) => 0
      case _ => Established(log)
    ensures Reconnects(log + [mark]) == match mark
      case ReconnectStarted(_) => Reconnects(log) + 1
      case CountersReset(_) => 0
      case _ => Reconnects(log)
    ensures TrailingMisses(log + [mark]) == match mark
      case PingTimedOut => TrailingMisses(log) + 1
      case Took(taken) => if AllCut(taken) then TrailingMisses(log) else 0
      case Entered(phase, _, _) => if ChangesSession(phase) then 0 else TrailingMisses(log)
      case _ => TrailingMisses(log)
  {
    assert (log + [mark])[..|log|] == log;
  }

  lemma OutageAppend(log: seq<Mark>, mark: Mark)
    ensures Outage(log + [mark]) ==
      if mark.ReconnectStarted? then Outage(log) + [mark.clock]
      else if !mark.Entered? then Outage(log)
      else if mark.phase == Connected || mark.phase == Disconnected then []
      else if mark.phase == ConnectionLost && Outage(log) == [] then [mark.clock]
      else Outage(log)
    ensures LastPhase(log + [mark]) == if mark.Entered? then Some((mark.phase, mark.clock)) else LastPhase(log)
    ensures TakenOf(log + [mark]) == if mark.Took? then TakenOf(log) + mark.taken else TakenOf(log)
  {
    assert (log + [mark])[..|log|] == log;
  }

  /** A session that is established is closed or running. */
  lemma {:induction false} EstablishedAreSessions(log: seq<Mark>)
    ensures Established(log) + Carried(log) == |Sessions(log)| + One(OpenSince(log).Some?)
  {
    if log != [] {
      EstablishedAreSessions(log[..|log| - 1]);
    }
  }

  lemma NoteAppend(notes: seq<Note>, note: Note)
    ensures PassedOf(notes + [note]) == if note.Passed? then PassedOf(notes) + [note.f] else PassedOf(notes)
  {
    assert (notes + [note])[..|notes|] == notes;
  }

  lemma ConnectingKeeps(w: Worker)
    requires Consistent(w) && (w.t.phase == Disconnected || w.t.phase == ConnectionLost)
    ensures Consistent(ToConnecting(w))
  {
    hide OpenSince, Sessions, TotalLength, LostAmong, Established, Reconnects, TrailingMisses, Outage, TakenOf,
      PassedOf, LastPhase, Given, ReloadedAll;
    var mark := Entered(Connecting, w.clock, w.wall);
    SessionsAppend(w.log, mark);
    CountsAppend(w.log, mark);
    OutageAppend(w.log, mark);
    NoteAppend(w.notes, Status(Connecting));
  }

  lemma HandshakeKeeps(w: Worker, inbox: seq<Incoming>)
    requires Consistent(w) && w.t.phase == Connecting
    ensures Consistent(ToHandshake(w, inbox))
  {
    hide OpenSince, Sessions, TotalLength, LostAmong, Established, Reconnects, TrailingMisses, Outage, TakenOf,
      PassedOf, LastPhase, Given, ReloadedAll;
    var mark := Entered(Handshake, w.clock, w.wall);
    SessionsAppend(w.log, mark);
    CountsAppend(w.log, mark);
    OutageAppend(w.log, mark);
    NoteAppend(w.notes, Status(Handshake));
  }

  lemma ConnectedKeeps(w: Worker)
    requires Consistent(w) && w.t.phase == Handshake
    ensures Consistent(ToConnected(w))
  {
    hide OpenSince, Sessions, TotalLength, LostAmong, Established, Reconnects, TrailingMisses, Outage, TakenOf,
      PassedOf, LastPhase, Given, ReloadedAll;
    var mark := Entered(Connected, w.clock, w.wall);
    SessionsAppend(w.log, mark);
    CountsAppend(w.log, mark);
    OutageAppend(w.log, mark);
    NoteAppend(w.notes, Status(Connected));
  }

  lemma LostKeeps(w: Worker)
    requires Consistent(w)
    ensures Consistent(ToLost(w))
  {
    hide OpenSince, Sessions, TotalLength, LostAmong, Established, Reconnects, TrailingMisses, Outage, TakenOf,
      PassedOf, LastPhase, Given, ReloadedAll;
    var mark := Entered(ConnectionLost, w.clock, w.wall);
    SessionsAppend(w.log, mark);
    CountsAppend(w.log, mark);
    OutageAppend(w.log, mark);
    NoteAppend(w.notes, Status(ConnectionLost));
  }

  lemma DisconnectedKeeps(w: Worker)
    requires Consistent(w)
    ensures Consistent(ToDisconnected(w))
  {
    hide OpenSince, Sessions, TotalLength, LostAmong, Established, Reconnects, TrailingMisses, Outage, TakenOf,
      PassedOf, LastPhase, Given, ReloadedAll;
    var mark := Entered(Disconnected, w.clock, w.wall);
    SessionsAppend(w.log, mark);
    CountsAppend(w.log, mark);
    OutageAppend(w.log, mark);
    NoteAppend(w.notes, Status(Disconnected));
  }

  lemma ResetKeeps(w: Worker)
    requires Consistent(w)
    ensures Consistent(ResetStatistics(w))
  {
    hide OpenSince, Sessions, Established, Reconnects, TrailingMisses, Outage, TakenOf, PassedOf,
      LastPhase, Given;
    var mark := CountersReset(w.wall);
    SessionsAppend(w.log, mark);
    CountsAppend(w.log, mark);
    OutageAppend(w.log, mark);
  }

  /** What an exchange may change: it stays in its phase, or loses the connection. */
  predicate StaysOrLoses(w: Worker, x: Worker)
  {
    && Consistent(x)
    && (x.t.phase == w.t.phase || x.t.phase == ConnectionLost)
    && x.missedPings <= w.missedPings
  }

  lemma AbsorbKeeps(w: Worker, inbox: seq<Incoming>, call: Call)
    requires Consistent(w) && w.stream.Some?
    ensures StaysOrLoses(w, Absorb(w, inbox, call))
    ensures Absorb(w, inbox, call).t.phase == w.t.phase && Absorb(w, inbox, call).stream.Some?
  {
    hide OpenSince, Sessions, TotalLength, LostAmong, Established, Reconnects, TrailingMisses, Outage, TakenOf,
      PassedOf, LastPhase, Given,
      Serve, TakenIn;
    var mark := Took(TakenIn(inbox, call));
    SessionsAppend(w.log, mark);
    CountsAppend(w.log, mark);
    OutageAppend(w.log, mark);
    HeardExactly(inbox, call);
    CallIsGiven(inbox, call);
    PassedFrames(w.notes, Serve(inbox, call).forwarded);
    GivenAppend(TakenOf(w.log), TakenIn(inbox, call));
  }

  lemma {:induction false} PassedFrames(notes: seq<Note>, frames: seq<frame>)
    ensures PassedOf(notes + PassAll(frames)) == PassedOf(notes) + frames
    decreases |frames|
  {
    if frames == [] {
      assert notes + [] == notes;
    } else {
      var more := notes + [Passed(frames[0])];
      assert notes + PassAll(frames) == more + PassAll(frames[1..]);
      assert more[..|notes|] == notes;
      PassedFrames(more, frames[1..]);
    }
  }

  lemma AttemptKeeps(w: Worker, data: seq<byte>, expected: byte, isPing: bool, io: Io)
    requires Consistent(w) && w.stream.Some?
    ensures var (x, a) := Attempt(w, data, expected, isPing, io);
      && StaysOrLoses(w, x)
      && (a.Replied? ==> x.t.phase == w.t.phase && x.stream.Some?)
      && a != NotConnected
  {
    hide Serve, Absorb, Consistent, ToLost;
    var sending := Wait(w, io.sending);
    WaitKeeps(w, io.sending);
    match io.send
    case SendFailed => ErrorKeeps(sending);
    case SendTimedOut => ErrorKeeps(sending);
    case SendOk =>
      var sent := Wait(Sent(sending, data, isPing), io.receiving);
      SentKeeps(sending, data, isPing);
      WaitKeeps(Sent(sending, data, isPing), io.receiving);
      var call := ForExchange(expected, isPing, io.patience);
      AbsorbKeeps(sent, w.stream.value, call);
      FinishKeeps(Absorb(sent, w.stream.value, call), Serve(w.stream.value, call).end);
  }

  lemma RecordKeeps(w: Worker, data: seq<byte>, answer: Answer)
    requires Consistent(w)
    ensures Consistent(Record(w, Exchanged(data, answer)))
  {
    hide OpenSince, Sessions, TotalLength, LostAmong, Established, Reconnects, TrailingMisses, Outage, TakenOf,
      PassedOf, LastPhase, Given;
    var mark := Exchanged(data, answer);
    SessionsAppend(w.log, mark);
    CountsAppend(w.log, mark);
    OutageAppend(w.log, mark);
  }

  lemma ExchangeKeeps(w: Worker, data: seq<byte>, expected: byte, isPing: bool, io: Io)
    requires Consistent(w)
    ensures var (x, a) := Exchange(w, data, expected, isPing, io);
      && StaysOrLoses(w, x)
      && (a.Replied? ==> x.t.phase == w.t.phase && x.stream.Some?)
      && (w.t.phase == ConnectionLost ==> a == NotConnected)
  {
    hide Attempt, Consistent;
    if w.stream.Some? {
      AttemptKeeps(w, data, expected, isPing, io);
      var (x, a) := Attempt(w, data, expected, isPing, io);
      RecordKeeps(x, data, a);
    }
    PhaseOfStream(w);
  }

  lemma PhaseOfStream(w: Worker)
    requires Consistent(w)
    ensures w.stream.Some? <==> w.t.phase == Handshake || w.t.phase == Connected
  {
  }

  lemma WaitKeeps(w: Worker, d: Delay)
    requires Consistent(w)
    ensures Consistent(Wait(w, d))
  {
    hide OpenSince, Sessions, TotalLength, LostAmong, Established, Reconnects, TrailingMisses, Outage, TakenOf,
      PassedOf, LastPhase, Given, ReloadedAll;
  }

  lemma SentKeeps(w: Worker, data: seq<byte>, isPing: bool)
    requires Consistent(w)
    ensures Consistent(Sent(w, data, isPing))
  {
    hide OpenSince, Sessions, TotalLength, LostAmong, Established, Reconnects, TrailingMisses, Outage, TakenOf,
      PassedOf, LastPhase, Given, ReloadedAll;
    var mark := Wrote(data, isPing, w.clock);
    SessionsAppend(w.log, mark);
    CountsAppend(w.log, mark);
    OutageAppend(w.log, mark);
  }

  /** Counting an error keeps the invariant, and so does losing the connection after it. */
  lemma ErrorKeeps(w: Worker)
    requires Consistent(w)
    ensures Consistent(w.(t := w.t.(ioErrors := w.t.ioErrors + 1)))
    ensures Consistent(w.(t := w.t.(timeouts := w.t.timeouts + 1)))
    ensures StaysOrLoses(w, ToLost(w.(t := w.t.(ioErrors := w.t.ioErrors + 1))))
    ensures StaysOrLoses(w, ToLost(Record(w.(t := w.t.(ioErrors := w.t.ioErrors + 1)), PushFailed)))
  {
    hide Consistent, ToLost;
    CountingKeeps(w);
    var failed := w.(t := w.t.(ioErrors := w.t.ioErrors + 1));
    LosingKeeps(failed);
    PushFailedKeeps(failed);
    LosingKeeps(Record(failed, PushFailed));
  }

  lemma PushFailedKeeps(w: Worker)
    requires Consistent(w)
    ensures Consistent(Record(w, PushFailed))
  {
    hide OpenSince, Sessions, TotalLength, LostAmong, Established, Reconnects, TrailingMisses, Outage, TakenOf,
      PassedOf, LastPhase, Given;
    SessionsAppend(w.log, PushFailed);
    CountsAppend(w.log, PushFailed);
    OutageAppend(w.log, PushFailed);
  }

  lemma CountingKeeps(w: Worker)
    requires Consistent(w)
    ensures Consistent(w.(t := w.t.(ioErrors := w.t.ioErrors + 1)))
    ensures Consistent(w.(t := w.t.(timeouts := w.t.timeouts + 1)))
  {
    hide OpenSince, Sessions, TotalLength, LostAmong, Established, Reconnects, TrailingMisses, Outage, TakenOf,
      PassedOf, LastPhase, Given, ReloadedAll;
  }

  lemma LosingKeeps(w: Worker)
    requires Consistent(w)
    ensures StaysOrLoses(w, ToLost(w))
  {
    hide Consistent;
    LostKeeps(w);
  }

  lemma FinishKeeps(w: Worker, end: End)
    requires Consistent(w) && w.stream.Some?
    ensures var (x, a) := Finish(w, end);
      StaysOrLoses(w, x) && (a.Replied? ==> x == w) && a != NotConnected
    ensures StaysOrLoses(w, FinishPush(w, end))
  {
    hide Consistent, ToLost;
    ErrorKeeps(w);
    LosingKeeps(w);
  }

  lemma NotifyKeeps(w: Worker, note: Note)
    requires Consistent(w) && !note.Passed?
    ensures Consistent(Notify(w, note))
  {
    hide OpenSince, Sessions, TotalLength, LostAmong, Established, Reconnects, TrailingMisses, Outage, TakenOf,
      PassedOf, LastPhase, Given, ReloadedAll;
    NoteAppend(w.notes, note);
  }

  lemma SharedKeeps(w: Worker, shared: Shared)
    requires Consistent(w)
    ensures Consistent(w.(shared := shared))
  {
    hide OpenSince, Sessions, TotalLength, LostAmong, Established, Reconnects, TrailingMisses, Outage, TakenOf,
      PassedOf, LastPhase, Given;
  }

  lemma SendPushMaskKeeps(w: Worker, m: MaskIo)
    requires Consistent(w)
    ensures var (x, a) := SendPushMask(w, m);
      StaysOrLoses(w, x) && (a.Replied? ==> x.t.phase == w.t.phase)
  {
    hide Exchange, Consistent, BuildPushMask;
    var data := MaskData(w.shared.config, m.support14);
    ExchangeKeeps(w, data, LIST_OF_NEW_DATA, false, m.io);
    NotifyKeeps(Exchange(w, data, LIST_OF_NEW_DATA, false, m.io).0, AutoReadReport);
  }

  lemma RefreshKeeps(w: Worker, m: MaskIo)
    requires Consistent(w)
    ensures StaysOrLoses(w, Refresh(w, m))
  {
    hide SendPushMask, Consistent;
    if w.shared.dirty {
      var cleared := SetDirty(w, false);
      SharedKeeps(w, cleared.shared);
      SendPushMaskKeeps(cleared, m);
      var x := SendPushMask(cleared, m).0;
      SharedKeeps(x, SetDirty(x, true).shared);
    }
  }

  lemma VersionQueryKeeps(w: Worker, command: byte, io: Io, parses: bool)
    requires Consistent(w) && w.t.phase == Handshake
    ensures var (x, ok) := VersionQuery(w, command, io, parses);
      StaysOrLoses(w, x) && (ok ==> x.t.phase == Handshake)
  {
    hide Exchange, Consistent;
    ExchangeKeeps(w, [command], command, false, io);
    var x := Exchange(w, [command], command, false, io).0;
    NotifyKeeps(x, Version);
    LostKeeps(x);
  }

  lemma SubscribeKeeps(w: Worker, io: ConnectIo)
    requires Consistent(w) && w.t.phase == Handshake
    ensures Consistent(Subscribe(w, io)) && Subscribe(w, io).missedPings <= w.missedPings
    ensures Subscribe(w, io).t.phase == Connected || Subscribe(w, io).t.phase == ConnectionLost
  {
    hide SendPushMask, Consistent;
    SendPushMaskKeeps(w, io.mask);
    var (x, a) := SendPushMask(w, io.mask);
    if !w.shared.config.IsEnabled() {
      ConnectedKeeps(w);
    } else if a.Replied? {
      ConnectedKeeps(x);
    } else {
      LostKeeps(x);
    }
  }

  /** Where a connection attempt can end. */
  predicate Settled(w: Worker, x: Worker)
  {
    && Consistent(x)
    && (x.t.phase == Connected || x.t.phase == Handshake || x.t.phase == ConnectionLost)
    && x.missedPings <= w.missedPings
  }

  lemma DialKeeps(w: Worker, io: ConnectIo)
    requires Consistent(w) && w.t.phase == Connecting
    ensures Settled(w, Dial(w, io))
  {
    hide Consistent, VersionQuery, Subscribe;
    var dialled := Wait(w, io.dial);
    WaitKeeps(w, io.dial);
    match io.inbox
    case None => LostKeeps(dialled);
    case Some(inbox) =>
      HandshakeKeeps(dialled, inbox);
      WaitKeeps(ToHandshake(dialled, inbox), io.settle);
      var settled := Wait(ToHandshake(dialled, inbox), io.settle);
      VersionQueryKeeps(settled, MODULE_VERSION, io.ethm, io.ethmParses);
      var (x, ok) := VersionQuery(settled, MODULE_VERSION, io.ethm, io.ethmParses);
      if ok {
        VersionQueryKeeps(x, PANEL_VERSION, io.panel, io.panelParses);
        var (y, go) := VersionQuery(x, PANEL_VERSION, io.panel, io.panelParses);
        if go {
          WaitKeeps(y, io.pause);
          SubscribeKeeps(Wait(y, io.pause), io);
        }
      }
  }

  // ---------- Backoff and reconnects ----------

  lemma {:induction false} PowerMonotone(a: nat, b: nat)
    requires a <= b
    ensures PowerOfTwo(a) <= PowerOfTwo(b)
    decreases b
  {
    if a < b {
      PowerMonotone(a, b - 1);
    }
  }

  /** The delay never shrinks when more attempts have failed, and stays within its bounds. */
  lemma BackoffMonotone(a: nat, b: nat)
    requires a <= b
    ensures 500 <= CalculateBackoff(a) <= CalculateBackoff(b) <= 60000
  {
    if a > 0 {
      PowerMonotone(if a - 1 < 7 then a - 1 else 7, if b - 1 < 7 then b - 1 else 7);
    }
  }

  lemma BackoffValues(k: nat)
    requires 1 <= k
    ensures CalculateBackoff(k) == if k <= 7 then 500 * PowerOfTwo(k - 1) else 60000
  {
    assert PowerOfTwo(7) == 128 by { assert PowerOfTwo(4) == 16; }
    assert PowerOfTwo(6) == 64;
    if k <= 7 {
      PowerMonotone(k - 1, 6);
    }
  }

  /** An automatic reconnect starts in step with the record of the outage. */
  lemma ReconnectKeeps(w: Worker)
    requires Consistent(w) && w.t.phase == ConnectionLost
    requires Elapsed(w.clock, w.t.lastEventAt) >= CalculateBackoff(w.t.failedAttempts)
    ensures Consistent(ToConnecting(StartReconnect(w)))
  {
    hide OpenSince, Sessions, TotalLength, LostAmong, Established, Reconnects, TrailingMisses, Outage, TakenOf,
      PassedOf, LastPhase, Given, ReloadedAll;
    var started, entered := ReconnectStarted(w.clock), Entered(Connecting, w.clock, w.wall);
    SessionsAppend(w.log, started);
    CountsAppend(w.log, started);
    OutageAppend(w.log, started);
    SessionsAppend(w.log + [started], entered);
    CountsAppend(w.log + [started], entered);
    OutageAppend(w.log + [started], entered);
    NoteAppend(w.notes, Status(Connecting));
    BackoffMonotone(|Outage(w.log)|, w.t.failedAttempts);
  }

  // ---------- Ticks and events ----------

  /** What holds whenever the worker is between two events. */
  predicate AtBoundary(w: Worker, maxMissed: nat)
  {
    && Consistent(w) && w.t.phase != Connecting
    && (maxMissed > 0 ==> w.missedPings < maxMissed)
  }

  lemma KeepAliveKeeps(w: Worker, io: Io, maxMissed: nat)
    requires AtBoundary(w, maxMissed)
    ensures AtBoundary(KeepAlive(w, io, maxMissed), maxMissed)
  {
    hide OpenSince, Sessions, TotalLength, LostAmong, Established, Reconnects, TrailingMisses, Outage, TakenOf,
      PassedOf, LastPhase, Given, ReloadedAll;
    hide Exchange;
    ExchangeKeeps(w, [PANEL_VERSION], PANEL_VERSION, true, io);
    var (x, a) := Exchange(w, [PANEL_VERSION], PANEL_VERSION, true, io);
    if a == Timeout {
      PingTimeoutKeeps(x);
      LostKeeps(HandlePingTimeout(x));
    }
  }

  lemma PingTimeoutKeeps(w: Worker)
    requires Consistent(w)
    ensures Consistent(HandlePingTimeout(w))
  {
    hide OpenSince, Sessions, TotalLength, LostAmong, Established, Reconnects, TrailingMisses, Outage, TakenOf,
      PassedOf, LastPhase, Given, ReloadedAll;
    SessionsAppend(w.log, PingTimedOut);
    CountsAppend(w.log, PingTimedOut);
    OutageAppend(w.log, PingTimedOut);
  }

  lemma ConnectKeeps(w: Worker, io: ConnectIo)
    requires Consistent(ToConnecting(w))
    ensures Settled(ToConnecting(w), Connect(w, io))
  {
    hide Consistent, Dial;
    SharedKeeps(ToConnecting(w), SetDirty(ToConnecting(w), false).shared);
    DialKeeps(SetDirty(ToConnecting(w), false), io);
  }

  lemma TickKeeps(w: Worker, io: TickIo, maxMissed: nat)
    requires AtBoundary(w, maxMissed)
    ensures AtBoundary(Tick(w, io, maxMissed), maxMissed)
  {
    hide Connect, Refresh, KeepAlive, Consistent;
    match w.t.phase
    case Connected =>
      RefreshKeeps(w, io.mask);
      KeepAliveKeeps(Refresh(w, io.mask), io.ping, maxMissed);
    case ConnectionLost =>
      if io.autoReconnect && Elapsed(w.clock, w.t.lastEventAt) >= CalculateBackoff(w.t.failedAttempts) {
        ReconnectKeeps(w);
        ConnectKeeps(StartReconnect(w), io.connect);
      }
    case _ => LostKeeps(w);
  }

  lemma PanicKeeps(w: Worker)
    requires Consistent(w)
    ensures Consistent(w.(dead := true))
  {
    hide OpenSince, Sessions, TotalLength, LostAmong, Established, Reconnects, TrailingMisses, Outage, TakenOf,
      PassedOf, LastPhase, Given, ReloadedAll;
  }

  lemma ReceivePushKeeps(w: Worker, ready: bool, cut: bool)
    requires Consistent(w)
    ensures StaysOrLoses(w, ReceivePush(w, ready, cut))
  {
    hide Absorb, Serve, FinishPush, Consistent;
    PanicKeeps(w);
    if w.stream.Some? {
      var call := ForPush(ready, cut);
      AbsorbKeeps(w, w.stream.value, call);
      FinishKeeps(Absorb(w, w.stream.value, call), Serve(w.stream.value, call).end);
    }
  }

  lemma HandleKeeps(w: Worker, e: Event, maxMissed: nat)
    requires AtBoundary(w, maxMissed)
    ensures AtBoundary(Handle(w, e, maxMissed), maxMissed)
  {
    hide Consistent, Tick, Connect, Exchange, ReceivePush;
    match e
    case TimePasses(d) => WaitKeeps(w, d);
    case PushReady(ready, cut) => ReceivePushKeeps(w, ready, cut);
    case TickEvent(io) => TickKeeps(w, io, maxMissed);
    case ExchangeStandard(data, expired, io) => ExchangeKeeps(w, data, FirstByte(data), false, io);
    case ExchangePriority(data, io) => ExchangeKeeps(w, data, FirstByte(data), false, io);
    case ConnectRequest(io) =>
      if w.t.phase == Disconnected || w.t.phase == ConnectionLost {
        ConnectingKeeps(w);
        ConnectKeeps(w, io);
      }
    case DisconnectRequest => DisconnectedKeeps(w);
    case StatisticsReset => ResetKeeps(w);
  }

  /** The last event of a run. */
  lemma RunLast(l: Launch, events: seq<Event>)
    requires events != []
    ensures RunWorker(l, events)
         == Handle(RunWorker(l, events[..|events| - 1]), events[|events| - 1], l.maxMissed)
  {
    hide Handle, Connect;
  }

  lemma {:induction false} RunIsConsistent(l: Launch, events: seq<Event>)
    ensures AtBoundary(RunWorker(l, events), l.maxMissed)
    ensures LastPhase(RunWorker(l, events).log).Some?
    decreases |events|
  {
    hide Connect, Handle, AtBoundary, LastPhase;
    if events == [] {
      FirstConnect(l);
    } else {
      var before := RunWorker(l, events[..|events| - 1]);
      RunIsConsistent(l, events[..|events| - 1]);
      HandleKeeps(before, events[|events| - 1], l.maxMissed);
      HandleGrows(before, events[|events| - 1], l.maxMissed);
      PhaseStays(before.log, RunWorker(l, events).log);
    }
  }

  lemma NewIsConsistent(l: Launch)
    ensures Consistent(NewWorker(l.config, l.clock, l.wall))
  {
  }

  lemma FirstConnect(l: Launch)
    ensures AtBoundary(Connect(NewWorker(l.config, l.clock, l.wall), l.first), l.maxMissed)
    ensures LastPhase(Connect(NewWorker(l.config, l.clock, l.wall), l.first).log).Some?
  {
    hide Connect, LastPhase, Consistent;
    var w := NewWorker(l.config, l.clock, l.wall);
    NewIsConsistent(l);
    ConnectingKeeps(w);
    ConnectKeeps(w, l.first);
    ConnectGrows(w, l.first);
    OutageAppend(w.log, Entered(Connecting, w.clock, w.wall));
    PhaseStays(ToConnecting(w).log, Connect(w, l.first).log);
  }

  // ---------- The log only grows ----------

  /** A log that has entered a phase has still done so when it has grown. */
  lemma {:induction false} PhaseStays(log: seq<Mark>, more: seq<Mark>)
    requires log <= more && LastPhase(log).Some?
    ensures LastPhase(more).Some?
    decreases |more|
  {
    if log != more {
      PhaseStays(log, more[..|more| - 1]);
    }
  }

  lemma LostLog(w: Worker)
    ensures ToLost(w).log == w.log + [Entered(ConnectionLost, w.clock, w.wall)]
  {
  }

  lemma FinishGrows(w: Worker, end: End)
    ensures w.log <= Finish(w, end).0.log
  {
    hide ToLost;
    LostLog(w);
    LostLog(w.(t := w.t.(ioErrors := w.t.ioErrors + 1)));
  }

  lemma ExchangeGrows(w: Worker, data: seq<byte>, expected: byte, isPing: bool, io: Io)
    ensures w.log <= Exchange(w, data, expected, isPing, io).0.log
  {
    hide Serve, ReloadedAll, TakenIn, PassAll, Finish, ToLost;
    if w.stream.Some? {
      var sending := Wait(w, io.sending);
      LostLog(sending.(t := sending.t.(ioErrors := sending.t.ioErrors + 1)));
      var call := ForExchange(expected, isPing, io.patience);
      var absorbed := Absorb(Wait(Sent(sending, data, isPing), io.receiving), w.stream.value, call);
      FinishGrows(absorbed, Serve(w.stream.value, call).end);
    }
  }

  lemma VersionQueryGrows(w: Worker, command: byte, io: Io, parses: bool)
    ensures w.log <= VersionQuery(w, command, io, parses).0.log
  {
    hide Exchange;
    ExchangeGrows(w, [command], command, false, io);
  }

  lemma SendPushMaskGrows(w: Worker, m: MaskIo)
    ensures w.log <= SendPushMask(w, m).0.log
  {
    hide Exchange, BuildPushMask;
    ExchangeGrows(w, MaskData(w.shared.config, m.support14), LIST_OF_NEW_DATA, false, m.io);
  }

  lemma SubscribeGrows(w: Worker, io: ConnectIo)
    ensures w.log <= Subscribe(w, io).log
  {
    hide SendPushMask;
    SendPushMaskGrows(w, io.mask);
  }

  lemma ConnectGrows(w: Worker, io: ConnectIo)
    ensures ToConnecting(w).log <= Connect(w, io).log
    ensures w.log + [Entered(Connecting, w.clock, w.wall)] <= Connect(w, io).log
  {
    hide VersionQuery, Subscribe, ReloadedAll;
    var dialled := Wait(SetDirty(ToConnecting(w), false), io.dial);
    match io.inbox
    case None =>
    case Some(inbox) =>
      var greeted := Wait(ToHandshake(dialled, inbox), io.settle);
      VersionQueryGrows(greeted, MODULE_VERSION, io.ethm, io.ethmParses);
      var x := VersionQuery(greeted, MODULE_VERSION, io.ethm, io.ethmParses).0;
      VersionQueryGrows(x, PANEL_VERSION, io.panel, io.panelParses);
      var y := VersionQuery(x, PANEL_VERSION, io.panel, io.panelParses).0;
      SubscribeGrows(Wait(y, io.pause), io);
  }

  lemma TickGrows(w: Worker, io: TickIo, maxMissed: nat)
    ensures w.log <= Tick(w, io, maxMissed).log
  {
    hide Exchange, SendPushMask, Connect;
    SendPushMaskGrows(SetDirty(w, false), io.mask);
    var x := Refresh(w, io.mask);
    ExchangeGrows(x, [PANEL_VERSION], PANEL_VERSION, true, io.ping);
    ConnectGrows(StartReconnect(w), io.connect);
  }

  lemma HandleGrows(w: Worker, e: Event, maxMissed: nat)
    ensures w.log <= Handle(w, e, maxMissed).log
  {
    hide Exchange, Connect, Tick, Serve, TakenIn;
    match e
    case TickEvent(io) => TickGrows(w, io, maxMissed);
    case ExchangeStandard(data, _, io) => ExchangeGrows(w, data, FirstByte(data), false, io);
    case ExchangePriority(data, io) => ExchangeGrows(w, data, FirstByte(data), false, io);
    case ConnectRequest(io) => ConnectGrows(w, io);
    case _ =>
  }

  // ---------- Main results ----------

  /** Connection accounting, over all runs: the stream is open and a session running just in the
  phases that say so; a running session has the start the log gives it; of the sessions established
  since the last statistics reset (and the one carried over it) each is closed or running, the
  closed ones that were lost are counted as lost, and the total connected time is the sum of the
  lengths, by the wall clock, of the closed sessions and of the running one. */
  lemma ConnectionAccounting(l: Launch, events: seq<Event>)
    ensures var w := RunWorker(l, events);
      var closed := Sessions(w.log);
      && w.t.phase != Connecting
      && (w.stream.Some? <==> w.t.phase == Handshake || w.t.phase == Connected)
      && (w.t.connectedSince.Some? <==> w.t.phase == Connected)
      && w.t.connectedSince == OpenSince(w.log)
      && w.t.established == Established(w.log)
      && w.t.established + Carried(w.log) == |closed| + One(w.t.phase == Connected)
      && w.t.lost == LostAmong(closed)
      && w.t.reconnectAttempts == Reconnects(w.log)
      && w.t.totalConnectedBefore == TotalLength(closed)
      && TotalConnected(w) == TotalLength(closed)
           + (if w.t.phase == Connected then Clamped(w.wall - OpenSince(w.log).value) else 0)
  {
    hide RunWorker, OpenSince, Sessions, TotalLength, LostAmong, Established, Reconnects, Carried;
    RunIsConsistent(l, events);
    EstablishedAreSessions(RunWorker(l, events).log);
  }

  /** The ping counter, over all runs with a positive limit: it equals the ping timeouts since the
  last non-empty frame taken off the stream, or session change, and stays below the limit. */
  lemma PingsStayBelowLimit(l: Launch, events: seq<Event>)
    requires 0 < l.maxMissed <= MAX_U32
    ensures var w := RunWorker(l, events);
      w.missedPings == TrailingMisses(w.log) < l.maxMissed
  {
    hide RunWorker, TrailingMisses;
    RunIsConsistent(l, events);
  }

  lemma {:induction false} PacedSum(outage: seq<nat>, n: nat)
    requires Paced(outage) && n < |outage| && n <= 7
    ensures outage[n] >= outage[0] + 500 * (PowerOfTwo(n) - 1)
  {
    if n > 0 {
      PacedSum(outage, n - 1);
      BackoffValues(n);
    }
  }

  /** Reconnect pacing, over all runs: while the panel is out of reach, the n-th automatic
  reconnect starts at least `500 * (2^n - 1)` ms after the loss for n up to 7, and at least a
  minute after the reconnect before it beyond that. */
  lemma ReconnectsArePaced(l: Launch, events: seq<Event>, n: nat)
    requires 1 <= n < |Outage(RunWorker(l, events).log)|
    ensures var outage := Outage(RunWorker(l, events).log);
      && (n <= 7 ==> outage[n] >= outage[0] + 500 * (PowerOfTwo(n) - 1))
      && (n > 7 ==> outage[n] >= outage[n - 1] + 60000)
  {
    hide RunWorker, Outage;
    RunIsConsistent(l, events);
    var outage := Outage(RunWorker(l, events).log);
    BackoffValues(n);
    if n <= 7 {
      PacedSum(outage, n);
    }
  }

  /** Demultiplexing, over all runs and all sessions: of all non-empty frames taken off the streams
  by exchanges, pings, handshakes and push receives, the state worker has been given exactly the
  ones it is owed, in the order in which they came, if no push receive was cut while the channel to
  it was full; if one was, it misses just the frame of that receive. */
  lemma StateWorkerGetsWhatItIsOwed(l: Launch, events: seq<Event>)
    ensures var w := RunWorker(l, events);
      && PassedOf(w.notes) == Given(TakenOf(w.log))
      && (PassedOf(w.notes) == Owed(TakenOf(w.log)) <==> NoneCut(TakenOf(w.log)))
  {
    hide RunWorker, PassedOf, TakenOf, Given, Owed, NoneCut;
    RunIsConsistent(l, events);
    GivenIsOwedExactly(TakenOf(RunWorker(l, events).log));
  }

  /** When an automatic reconnect starts: in every run, a tick of a worker that by the log has been
  in ConnectionLost since `since` starts one, and logs it, exactly if reconnecting is on and the
  delay has passed since then; otherwise the tick does nothing. */
  lemma ReconnectStartsExactly(l: Launch, events: seq<Event>, io: TickIo, since: nat)
    requires LastPhase(RunWorker(l, events).log) == Some((ConnectionLost, since))
    ensures var w := RunWorker(l, events);
      var x := Tick(w, io, l.maxMissed);
      if io.autoReconnect && w.clock >= since + CalculateBackoff(w.t.failedAttempts)
      then w.log + [ReconnectStarted(w.clock), Entered(Connecting, w.clock, w.wall)] <= x.log
      else x == w
  {
    hide RunWorker, LastPhase, Accounted, PingsCounted, OutageTracked, OwedPassed, AtBoundary;
    RunIsConsistent(l, events);
    BoundaryIsStamped(RunWorker(l, events), l.maxMissed);
    ReconnectStep(RunWorker(l, events), io, l.maxMissed);
  }

  lemma BoundaryIsStamped(w: Worker, maxMissed: nat)
    requires AtBoundary(w, maxMissed)
    ensures Stamped(w) && w.t.lastEventAt <= w.clock
  {
    hide Accounted, PingsCounted, OwedPassed, Paced, Outage;
  }

  lemma ReconnectStep(w: Worker, io: TickIo, maxMissed: nat)
    requires w.t.phase == ConnectionLost && w.t.lastEventAt <= w.clock
    ensures var x := Tick(w, io, maxMissed);
      if io.autoReconnect && w.clock >= w.t.lastEventAt + CalculateBackoff(w.t.failedAttempts)
      then w.log + [ReconnectStarted(w.clock), Entered(Connecting, w.clock, w.wall)] <= x.log
      else x == w
  {
    hide Connect, CalculateBackoff;
    ConnectGrows(StartReconnect(w), io.connect);
    assert w.log + [ReconnectStarted(w.clock)] + [Entered(Connecting, w.clock, w.wall)]
        == w.log + [ReconnectStarted(w.clock), Entered(Connecting, w.clock, w.wall)];
  }
}
