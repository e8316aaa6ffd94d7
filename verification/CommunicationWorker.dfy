/** The connection worker as the object it is: fields updated step by step, loops over arriving
frames, each method proved to do what the state machine of `WorkerSpec` says. */
module CommunicationWorker {
  import opened Bytes
  import opened Demux
  import opened PushMask
  import opened WorkerSpec

  class SatelCommunicationWorker {
    const maxMissedPings: nat
    var stream: Option<seq<Incoming>>
    var telemetry: Telemetry
    var consecutiveMissedPings: nat
    var stateWorker: seq<Note>
    var config: AutoRead
    var autoReadDirty: bool
    var pendingStores: nat
    var clock: nat
    var wall: int
    var panicked: bool
    ghost var log: seq<Mark>

    /** The state of the object as a value. */
    ghost function View(): Worker
      reads this
    {
      Worker(stream, telemetry, consecutiveMissedPings, stateWorker,
             Shared(config, autoReadDirty, pendingStores), clock, wall, panicked, log)
    }

    constructor (config: AutoRead, maxMissedPings: nat, clock: nat, wall: int)
      ensures View() == NewWorker(config, clock, wall) && this.maxMissedPings == maxMissedPings
    {
      this.maxMissedPings := maxMissedPings;
      stream, consecutiveMissedPings, stateWorker, panicked := None, 0, [], false;
      telemetry := Telemetry(Disconnected, 0, clock, clock, 0, 0, 0, 0, 0, 0, 0, None, 0);
      this.config, autoReadDirty, pendingStores := config, false, 0;
      this.clock, this.wall := clock, wall;
      log := [];
    }

    /** Time passes, and with it hot reloads access what they share with the worker. */
    method Elapse(d: Delay)
      modifies this`clock, this`wall, this`config, this`autoReadDirty, this`pendingStores
      ensures View() == Wait(old(View()), d)
    {
      hide Reloaded;
      ghost var before := Shared(config, autoReadDirty, pendingStores);
      for i := 0 to |d.reloads|
        invariant ReloadedAll(Shared(config, autoReadDirty, pendingStores), d.reloads[i..])
               == ReloadedAll(before, d.reloads)
        invariant clock == old(clock) && wall == old(wall)
      {
        assert d.reloads[i..][1..] == d.reloads[i + 1..];
        Reload(d.reloads[i]);
      }
      assert d.reloads[|d.reloads|..] == [];
      clock, wall := clock + d.millis, d.wall;
    }

    /** One access of a hot reload: writing the configuration, or storing the flag after it. */
    method Reload(r: Reload)
      modifies this`config, this`autoReadDirty, this`pendingStores
      ensures Shared(config, autoReadDirty, pendingStores)
           == Reloaded(old(Shared(config, autoReadDirty, pendingStores)), r)
    {
      match r
      case WritesConfig(newConfig) =>
        var changed := BuildPushMask(config, true) != BuildPushMask(newConfig, true);
        config := newConfig;
        if changed {
          pendingStores := pendingStores + 1;
        }
      case StoresFlag =>
        if pendingStores > 0 {
          pendingStores, autoReadDirty := pendingStores - 1, true;
        }
    }

    method NotifyStateWorker(note: Note)
      modifies this`stateWorker
      ensures View() == Notify(old(View()), note)
    {
      stateWorker := stateWorker + [note];
    }

    /** Tell the state worker about the new phase. */
    method AnnouncePhase(phase: Phase)
      modifies this`stateWorker, this`log
      ensures View() == Announce(old(View()), phase)
    {
      log := log + [Entered(phase, clock, wall)];
      NotifyStateWorker(Status(phase));
    }

    // ---------- State changes ----------

    method SetStateConnecting()
      modifies this
      ensures View() == ToConnecting(old(View()))
    {
      telemetry := telemetry.(phase := Connecting, lastEventAt := clock);
      AnnouncePhase(Connecting);
    }

    method SetStateHandshake(inbox: seq<Incoming>)
      modifies this
      ensures View() == ToHandshake(old(View()), inbox)
    {
      stream := Some(inbox);
      telemetry := telemetry.(phase := Handshake, lastEventAt := clock);
      AnnouncePhase(Handshake);
    }

    method SetStateConnected()
      modifies this
      ensures View() == ToConnected(old(View()))
    {
      consecutiveMissedPings := 0;
      telemetry := telemetry.(established := telemetry.established + 1, connectedSince := Some(wall));
      telemetry := telemetry.(phase := Connected, lastEventAt := clock, failedAttempts := 0);
      AnnouncePhase(Connected);
    }

    method EndSession()
      modifies this`telemetry
      ensures View() == CloseSession(old(View()))
    {
      if telemetry.connectedSince.Some? {
        var since := telemetry.connectedSince.value;
        var sessionDur := SessionLength(since, wall);
        telemetry := telemetry.(connectedSince := None,
                                totalConnectedBefore := telemetry.totalConnectedBefore + sessionDur);
      }
    }

    method ConnectionIsLost()
      modifies this
      ensures View() == ToLost(old(View()))
    {
      stream := None;
      consecutiveMissedPings := 0;
      var prev := telemetry.phase;
      if prev == Connected {
        telemetry := telemetry.(lost := telemetry.lost + 1);
        EndSession();
      }
      telemetry := telemetry.(phase := ConnectionLost, lastEventAt := clock);
      telemetry := telemetry.(failedAttempts := telemetry.failedAttempts + 1);
      AnnouncePhase(ConnectionLost);
    }

    method Disconnect()
      modifies this
      ensures View() == ToDisconnected(old(View()))
    {
      stream := None;
      consecutiveMissedPings := 0;
      EndSession();
      telemetry := telemetry.(phase := Disconnected, lastEventAt := clock, failedAttempts := 0);
      AnnouncePhase(Disconnected);
    }

    // ---------- Pings ----------

    method PingTimeout() returns (tooMany: bool)
      modifies this`consecutiveMissedPings, this`log
      ensures View() == HandlePingTimeout(old(View()))
      ensures tooMany <==> TooManyMissed(View(), maxMissedPings)
    {
      if consecutiveMissedPings < MAX_U32 {
        consecutiveMissedPings := consecutiveMissedPings + 1;
      }
      log := log + [PingTimedOut];
      tooMany := maxMissedPings > 0 && consecutiveMissedPings >= maxMissedPings;
    }

    // ---------- Exchanges ----------

    /** One non-empty frame inside the receive loop. */
    method TakeFrame(f: frame, expected: byte, isPing: bool, ghost before: Worker, ghost sofar: Collected)
      returns (isTarget: bool)
      requires f != [] && View() == Halfway(before, stream, sofar)
      modifies this`telemetry, this`consecutiveMissedPings, this`stateWorker
      ensures View() == Halfway(before, stream, Followed(sofar, Noted(f, expected, isPing)))
      ensures isTarget <==> IsTarget(f, expected)
    {
      hide PassAll;
      consecutiveMissedPings := 0;
      var isResultCode := f[0] == RESULT_CODE;
      var isAccepted := isResultCode && |f| > 1 && f[1] == ACCEPTED;
      if isResultCode && !isAccepted {
        telemetry := telemetry.(rejected := telemetry.rejected + 1);
      }
      isTarget := f[0] == expected || f[0] == RESULT_CODE;
      if !isPing || !isTarget {
        telemetry := telemetry.(nonPing := telemetry.nonPing + 1);
      }
      var isNameResponse := expected == READ_NAME && isResultCode;
      PassAllAppend(sofar.forwarded, f);
      if (f[0] != expected || isResultCode) && !isAccepted && !isNameResponse {
        NotifyStateWorker(Passed(f));
      } else {
        assert sofar.forwarded + [] == sofar.forwarded;
      }
    }

    /** The receive loop of an exchange, with push frames filtered out to the state worker. */
    method Receive(expected: byte, isPing: bool, patience: nat) returns (end: End)
      requires stream.Some?
      modifies this`stream, this`telemetry, this`consecutiveMissedPings, this`stateWorker, this`log
      ensures View() == Absorb(old(View()), old(stream.value), ForExchange(expected, isPing, patience))
      ensures end == Collect(old(stream.value), patience, expected, isPing).end
    {
      hide Collect, Followed, Noted, IsTarget, PassAll, Frames, TakenBy, TakenIn, Absorb;
      ghost var before, inbox := View(), stream.value;
      ghost var whole := Collect(inbox, patience, expected, isPing);
      var left := patience;
      ghost var sofar := Collected(DeadlinePassed, 0, [], false, 0, 0);
      LoopStarts(inbox, whole, before, stream);
      end := DeadlinePassed;
      while left > 0 && stream.value != [] && end.DeadlinePassed?
        invariant stream.Some? && sofar.consumed <= |inbox| && stream.value == inbox[sofar.consumed..]
        invariant end.DeadlinePassed? ==> Followed(sofar, Collect(stream.value, left, expected, isPing)) == whole
        invariant !end.DeadlinePassed? ==> sofar.(end := end) == whole
        invariant View() == Halfway(before, stream, sofar)
        decreases left, end.DeadlinePassed?
      {
        LoopStep(sofar, stream.value, left, expected, isPing);
        var now := stream.value[0];
        stream := Some(stream.value[1..]);
        left := left - 1;
        match now
        case IoError =>
          end := StreamFailed;
          sofar := sofar.(consumed := sofar.consumed + 1);
        case Closed =>
          end := StreamClosed;
          sofar := sofar.(consumed := sofar.consumed + 1);
        case Arrival(f) =>
          if f == [] {
            sofar := sofar.(consumed := sofar.consumed + 1);
          } else {
            var target := TakeFrame(f, expected, isPing, before, sofar);
            sofar := Followed(sofar, Noted(f, expected, isPing));
            if target {
              end := Reply(f);
            }
          }
      }
      if end.DeadlinePassed? {
        LoopEnds(sofar, stream.value, left, expected, isPing);
      }
      ReceiveEnds(before, inbox, expected, isPing, patience, sofar);
      log := log + [Took(TakenIn(inbox, ForExchange(expected, isPing, patience)))];
    }

    method ExchangeFrames(data: seq<byte>, expected: byte, isPing: bool, io: Io) returns (answer: Answer)
      modifies this
      ensures (View(), answer) == Exchange(old(View()), data, expected, isPing, io)
    {
      hide Attempt;
      if stream.None? {
        return NotConnected;
      }
      answer := SendAndReceive(data, expected, isPing, io);
      log := log + [Exchanged(data, answer)];
    }

    /** The exchange itself, over an open stream. */
    method SendAndReceive(data: seq<byte>, expected: byte, isPing: bool, io: Io) returns (answer: Answer)
      requires stream.Some?
      modifies this
      ensures (View(), answer) == Attempt(old(View()), data, expected, isPing, io)
    {
      hide ToLost, Absorb, Collect;
      Elapse(io.sending);
      match io.send
      case SendFailed =>
        telemetry := telemetry.(ioErrors := telemetry.ioErrors + 1);
        ConnectionIsLost();
        return IoFailed;
      case SendTimedOut =>
        telemetry := telemetry.(timeouts := telemetry.timeouts + 1);
        return Timeout;
      case SendOk =>
        if !isPing {
          telemetry := telemetry.(nonPing := telemetry.nonPing + 1);
        }
        telemetry := telemetry.(lastSendAt := clock);
        log := log + [Wrote(data, isPing, clock)];
        Elapse(io.receiving);
        var end := Receive(expected, isPing, io.patience);
        answer := Conclude(end);
    }

    /** The arms after the receive loop. */
    method Conclude(end: End) returns (answer: Answer)
      modifies this
      ensures (View(), answer) == Finish(old(View()), end)
    {
      hide ToLost;
      match end
      case Reply(f) =>
        answer := Replied(f);
      case StreamFailed =>
        telemetry := telemetry.(ioErrors := telemetry.ioErrors + 1);
        ConnectionIsLost();
        answer := IoFailed;
      case StreamClosed =>
        ConnectionIsLost();
        answer := Ended;
      case _ =>
        telemetry := telemetry.(timeouts := telemetry.timeouts + 1);
        answer := Timeout;
    }

    /** One push receive; indexing an empty frame ends the worker. It is `cut` if it is dropped while
    it waits for room in the channel to the state worker. */
    method ReceivePushFrame(ready: bool, cut: bool)
      modifies this
      ensures View() == ReceivePush(old(View()), ready, cut)
    {
      hide ToLost, ReloadedAll;
      ghost var before := View();
      if stream.None? {
        return;
      }
      ghost var taken := TakenIn(stream.value, ForPush(ready, cut));
      if !ready || stream.value == [] {
        TakesNothing(before, ready, cut);
        log := log + [Took(taken)];
        return;
      }
      var now := stream.value[0];
      if now == Arrival([]) {
        panicked := true;
        return;
      }
      stream := Some(stream.value[1..]);
      TakesOne(before, cut);
      match now
      case IoError =>
        log := log + [Took(taken)];
        telemetry := telemetry.(ioErrors := telemetry.ioErrors + 1);
        log := log + [PushFailed];
        ConnectionIsLost();
      case Closed =>
        log := log + [Took(taken)];
        ConnectionIsLost();
      case Arrival(f) =>
        log := log + [Took(taken)];
        TakePushed(f, cut);
    }

    method TakePushed(f: frame, cut: bool)
      requires f != []
      modifies this`telemetry, this`stateWorker, this`consecutiveMissedPings
      ensures View() == PushedFrame(old(View()), f, cut)
    {
      telemetry := telemetry.(nonPing := telemetry.nonPing + 1);
      var isAccepted := f[0] == RESULT_CODE && |f| > 1 && f[1] == ACCEPTED;
      if !isAccepted {
        if cut {
          return;
        }
        NotifyStateWorker(Passed(f));
      }
      consecutiveMissedPings := 0;
    }

    // ---------- Connecting ----------

    method SendMask(m: MaskIo) returns (answer: Answer)
      modifies this
      ensures (View(), answer) == SendPushMask(old(View()), m)
    {
      hide Exchange, BuildPushMask;
      var autoPushData := [LIST_OF_NEW_DATA] + BuildPushMask(config, m.support14);
      answer := ExchangeFrames(autoPushData, LIST_OF_NEW_DATA, false, m.io);
      if answer.Replied? {
        NotifyStateWorker(AutoReadReport);
      }
    }

    method QueryVersion(command: byte, io: Io, parses: bool) returns (ok: bool)
      modifies this
      ensures (View(), ok) == VersionQuery(old(View()), command, io, parses)
    {
      hide Exchange, ToLost;
      var answer := ExchangeFrames([command], command, false, io);
      if !answer.Replied? {
        ConnectionIsLost();
        return false;
      }
      if !parses {
        return false;
      }
      NotifyStateWorker(Version);
      return true;
    }

    method ConnectWorker(io: ConnectIo)
      modifies this
      ensures View() == Connect(old(View()), io)
    {
      hide ToConnecting, ToHandshake, ToConnected, ToLost, VersionQuery, SendPushMask, ReloadedAll;
      SetStateConnecting();
      autoReadDirty := false;
      Elapse(io.dial);
      if io.inbox.None? {
        ConnectionIsLost();
        return;
      }
      SetStateHandshake(io.inbox.value);
      Elapse(io.settle);
      var ok := QueryVersion(MODULE_VERSION, io.ethm, io.ethmParses);
      if !ok {
        return;
      }
      ok := QueryVersion(PANEL_VERSION, io.panel, io.panelParses);
      if !ok {
        return;
      }
      Elapse(io.pause);
      if config.IsEnabled() {
        var answer := SendMask(io.mask);
        if !answer.Replied? {
          ConnectionIsLost();
          return;
        }
      }
      SetStateConnected();
    }

    // ---------- The event loop ----------

    /** `auto_read_dirty.swap(false)`, and what follows if the flag was up. */
    method RefreshMask(m: MaskIo)
      modifies this
      ensures View() == Refresh(old(View()), m)
    {
      hide SendPushMask;
      var dirty := autoReadDirty;
      autoReadDirty := false;
      if dirty {
        var answer := SendMask(m);
        if !answer.Replied? {
          autoReadDirty := true;
        }
      }
    }

    method OnTick(io: TickIo)
      modifies this
      ensures View() == Tick(old(View()), io, maxMissedPings)
    {
      hide Exchange, Refresh, Connect, ToLost, CalculateBackoff;
      var current, lastEvent := telemetry.phase, telemetry.lastEventAt;
      if (current == Connecting || current == Handshake) && Elapsed(clock, lastEvent) > WATCHDOG_MS {
        ConnectionIsLost();
      }
      if current == Connected {
        RefreshMask(io.mask);
      }
      if current == Connected && Elapsed(clock, telemetry.lastSendAt) >= PING_AFTER_MS {
        var answer := ExchangeFrames([PANEL_VERSION], PANEL_VERSION, true, io.ping);
        if answer == Timeout {
          var tooMany := PingTimeout();
          if tooMany {
            ConnectionIsLost();
          }
        }
      }
      if io.autoReconnect && current == ConnectionLost
         && Elapsed(clock, lastEvent) >= CalculateBackoff(telemetry.failedAttempts) {
        telemetry := telemetry.(reconnectAttempts := telemetry.reconnectAttempts + 1);
        log := log + [ReconnectStarted(clock)];
        ConnectWorker(io.connect);
      }
    }

    method HandleEvent(e: Event)
      modifies this
      ensures View() == Handle(old(View()), e, maxMissedPings)
    {
      hide Exchange, Connect, ToDisconnected, ReceivePush, Tick;
      if panicked {
        return;
      }
      match e
      case TimePasses(d) =>
        Elapse(d);
      case PushReady(ready, cut) =>
        if telemetry.phase == Connected {
          ReceivePushFrame(ready, cut);
        }
      case TickEvent(io) =>
        OnTick(io);
      case ExchangeStandard(data, expired, io) =>
        if telemetry.phase == Connected && !expired {
          var _ := ExchangeFrames(data, FirstByte(data), false, io);
        }
      case ExchangePriority(data, io) =>
        if telemetry.phase != Disconnected && telemetry.phase != ConnectionLost {
          var _ := ExchangeFrames(data, FirstByte(data), false, io);
        }
      case ConnectRequest(io) =>
        if telemetry.phase == Disconnected || telemetry.phase == ConnectionLost {
          ConnectWorker(io);
        }
      case DisconnectRequest =>
        if telemetry.phase != Disconnected {
          Disconnect();
        }
      case StatisticsReset =>
        Reset();
    }

    method Reset()
      modifies this`telemetry, this`log
      ensures View() == ResetStatistics(old(View()))
    {
      var open := telemetry.phase == Connected;
      telemetry := telemetry.(established := 0, lost := 0, reconnectAttempts := 0, timeouts := 0,
                              ioErrors := 0, rejected := 0, nonPing := 0, totalConnectedBefore := 0);
      telemetry := telemetry.(connectedSince := if open then Some(wall) else None);
      log := log + [CountersReset(wall)];
    }

    /** The actor: connect once, then handle events one after the other. */
    method Run(ghost l: Launch, first: ConnectIo, events: seq<Event>)
      requires View() == NewWorker(l.config, l.clock, l.wall)
      requires first == l.first && maxMissedPings == l.maxMissed
      modifies this
      ensures View() == RunWorker(l, events)
    {
      hide Connect, Handle;
      ConnectWorker(first);
      for i := 0 to |events|
        invariant View() == RunWorker(l, events[..i])
      {
        HandleEvent(events[i]);
        assert events[..i + 1][..i] == events[..i];
      }
      assert events[..|events|] == events;
    }
  }

  lemma TakesNothing(w: Worker, ready: bool, cut: bool)
    requires w.stream.Some? && (!ready || w.stream.value == [])
    ensures ReceivePush(w, ready, cut) == Record(w, Took(TakenIn(w.stream.value, ForPush(ready, cut))))
  {
    assert w.stream.value[0..] == w.stream.value;
    assert w.notes + [] == w.notes;
  }

  /** What one pushed frame changes besides the stream and the log. */
  function PushedFrame(w: Worker, f: frame, cut: bool): Worker
  {
    var counted := w.(t := w.t.(nonPing := w.t.nonPing + 1));
    if IsAccepted(f) then counted.(missedPings := 0)
    else if cut then counted
    else Notify(counted.(missedPings := 0), Passed(f))
  }

  /** What one arrival does in a push receive. */
  lemma TakesOne(w: Worker, cut: bool)
    requires w.stream.Some? && w.stream.value != [] && w.stream.value[0] != Arrival([])
    ensures var x := Absorb(w, w.stream.value, ForPush(true, cut));
      var rest := Record(w.(stream := Some(w.stream.value[1..])), Took(TakenIn(w.stream.value, ForPush(true, cut))));
      x == match w.stream.value[0] case Arrival(f) => PushedFrame(rest, f, cut) case _ => rest
  {
    assert w.notes + [] == w.notes;
    if w.stream.value[0].Arrival? {
      var f := w.stream.value[0].f;
      var one: seq<frame> := [f];
      assert one[1..] == [] && PassAll([f]) == [Passed(f)];
    }
  }

  lemma LoopStarts(inbox: seq<Incoming>, whole: Collected, w: Worker, stream: Option<seq<Incoming>>)
    requires w.stream == stream == Some(inbox)
    ensures inbox == inbox[0..]
    ensures var none := Collected(DeadlinePassed, 0, [], false, 0, 0);
      Followed(none, whole) == whole && w == Halfway(w, stream, none)
  {
    assert [] + whole.forwarded == whole.forwarded;
    assert w.notes + [] == w.notes;
  }

  /** One round of the receive loop, on values. */
  lemma LoopStep(sofar: Collected, rest: seq<Incoming>, left: nat, expected: byte, isPing: bool)
    requires rest != [] && left > 0
    ensures var whole := Followed(sofar, Collect(rest, left, expected, isPing));
      var skipped := sofar.(consumed := sofar.consumed + 1);
      match rest[0]
      case IoError => whole == skipped.(end := StreamFailed)
      case Closed => whole == skipped.(end := StreamClosed)
      case Arrival(f) =>
        if f == [] then whole == Followed(skipped, Collect(rest[1..], left - 1, expected, isPing))
        else
          var more := Followed(sofar, Noted(f, expected, isPing));
          && more.consumed == sofar.consumed + 1
          && whole == if IsTarget(f, expected) then more.(end := Reply(f))
                      else Followed(more, Collect(rest[1..], left - 1, expected, isPing))
  {
    hide Noted, IsTarget;
    assert sofar.forwarded + [] == sofar.forwarded;
    if rest[0].Arrival? && rest[0].f != [] {
      NotedFrame(rest[0].f, expected, isPing);
      var mine, after := Noted(rest[0].f, expected, isPing), Collect(rest[1..], left - 1, expected, isPing);
      assert sofar.forwarded + (mine.forwarded + after.forwarded)
          == sofar.forwarded + mine.forwarded + after.forwarded;
    }
  }

  lemma NotedFrame(f: frame, expected: byte, isPing: bool)
    requires f != []
    ensures Noted(f, expected, isPing).consumed == 1
  {
  }

  lemma LoopEnds(sofar: Collected, rest: seq<Incoming>, left: nat, expected: byte, isPing: bool)
    requires rest == [] || left == 0
    ensures Followed(sofar, Collect(rest, left, expected, isPing)) == sofar.(end := DeadlinePassed)
  {
    assert sofar.forwarded + [] == sofar.forwarded;
  }

  /** What the loop has done at its end is what `Absorb` says, but for the log. */
  lemma ReceiveEnds(w: Worker, inbox: seq<Incoming>, expected: byte, isPing: bool, patience: nat, c: Collected)
    requires var whole := Collect(inbox, patience, expected, isPing);
      c.(end := whole.end) == whole
    ensures c.consumed <= |inbox|
    ensures var call := ForExchange(expected, isPing, patience);
      Absorb(w, inbox, call) == Record(Halfway(w, Some(inbox[c.consumed..]), c), Took(TakenIn(inbox, call)))
  {
    hide Collect, PassAll, TakenIn;
  }

  /** Between two frames of a receive loop: all of `Absorb` but the log. */
  ghost function Halfway(w: Worker, stream: Option<seq<Incoming>>, c: Collected): Worker
  {
    w.(stream := stream,
       missedPings := if c.heard then 0 else w.missedPings,
       notes := w.notes + PassAll(c.forwarded),
       t := w.t.(rejected := w.t.rejected + c.rejected, nonPing := w.t.nonPing + c.nonPing))
  }

  lemma {:induction false} PassAllAppend(frames: seq<frame>, f: frame)
    ensures PassAll(frames + [f]) == PassAll(frames) + [Passed(f)]
  {
    if frames != [] {
      assert (frames + [f])[1..] == frames[1..] + [f];
      PassAllAppend(frames[1..], f);
    }
  }
}
