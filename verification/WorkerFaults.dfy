/** Two ways in which a run of the connection worker goes wrong, and exactly when: a handshake that
is neither finished nor given up, and a worker that panics. */
module WorkerFaults {
  import opened Bytes
  import opened Demux
  import opened PushMask
  import opened WorkerSpec
  import opened WorkerProperties

  // ---------- A handshake left standing ----------

  /** The worker when it sends its first version query. */
  function Greeted(w: Worker, io: ConnectIo): Worker
    requires io.inbox.Some?
  {
    Wait(ToHandshake(Wait(SetDirty(ToConnecting(w), false), io.dial), io.inbox.value), io.settle)
  }

  /** One of the two version queries is answered by a frame that does not parse. */
  predicate VersionUnreadable(w: Worker, io: ConnectIo)
    requires io.inbox.Some?
  {
    var (first, answer) := Exchange(Greeted(w, io), [0x7C], 0x7C, false, io.ethm);
    && answer.Replied?
    && (io.ethmParses ==>
          && Exchange(Notify(first, Version), [0x7E], 0x7E, false, io.panel).1.Replied?
          && !io.panelParses)
  }

  lemma AttemptPhase(w: Worker, data: seq<byte>, expected: byte, isPing: bool, io: Io)
    requires w.stream.Some?
    ensures var (x, a) := Attempt(w, data, expected, isPing, io);
      && (a.Replied? || a == Timeout ==>
            x.t.phase == w.t.phase && x.t.lastEventAt == w.t.lastEventAt && x.stream.Some?)
      && (a == IoFailed || a == Ended ==> x.t.phase == ConnectionLost && x.stream.None?)
      && a != NotConnected && x.dead == w.dead
  {
    hide Serve, ReloadedAll, TakenIn, PassAll;
  }

  lemma ExchangePhase(w: Worker, data: seq<byte>, expected: byte, isPing: bool, io: Io)
    ensures var (x, a) := Exchange(w, data, expected, isPing, io);
      && (a.Replied? || a == Timeout || a == NotConnected ==>
            x.t.phase == w.t.phase && x.t.lastEventAt == w.t.lastEventAt && x.stream.Some? == w.stream.Some?)
      && (a == IoFailed || a == Ended ==> x.t.phase == ConnectionLost && x.stream.None?)
      && (a == NotConnected <==> w.stream.None?)
      && x.dead == w.dead
  {
    hide Attempt;
    if w.stream.Some? {
      AttemptPhase(w, data, expected, isPing, io);
    }
  }

  lemma SubscribePhase(w: Worker, io: ConnectIo)
    ensures Subscribe(w, io).t.phase == Connected || Subscribe(w, io).t.phase == ConnectionLost
    ensures Subscribe(w, io).dead == w.dead
  {
    hide Exchange, BuildPushMask;
    ExchangePhase(w, MaskData(w.shared.config, io.mask.support14), LIST_OF_NEW_DATA, false, io.mask.io);
  }

  /** Main result: a connection attempt, from any state, leaves the worker in Handshake, with the
  stream open, exactly if dialling succeeds and a version reply does not parse; otherwise it ends
  Connected or given up. */
  lemma HandshakeIsLeftExactly(w: Worker, io: ConnectIo)
    ensures var x := Connect(w, io);
      && (x.t.phase == Handshake <==> io.inbox.Some? && VersionUnreadable(w, io))
      && (x.t.phase == Handshake ==> x.stream.Some?)
      && (x.t.phase == Handshake || x.t.phase == Connected || x.t.phase == ConnectionLost)
      && x.dead == w.dead
  {
    hide Exchange, Subscribe, ReloadedAll;
    if io.inbox.Some? {
      var q := Greeted(w, io);
      ExchangePhase(q, [MODULE_VERSION], MODULE_VERSION, false, io.ethm);
      var (x, ok) := VersionQuery(q, MODULE_VERSION, io.ethm, io.ethmParses);
      if ok {
        ExchangePhase(x, [PANEL_VERSION], PANEL_VERSION, false, io.panel);
        var (y, go) := VersionQuery(x, PANEL_VERSION, io.panel, io.panelParses);
        if go {
          SubscribePhase(Wait(y, io.pause), io);
        }
      }
    }
  }

  /** What ends a handshake that began at `since`: a tick more than 15 seconds later, a disconnect, or
  a priority exchange that meets a stream error or the end of the stream. */
  predicate EndsHandshake(w: Worker, e: Event, since: nat)
  {
    match e
    case TickEvent(_) => w.clock > since + 15000
    case DisconnectRequest => true
    case ExchangePriority(data, io) =>
      var answer := Exchange(w, data, FirstByte(data), false, io).1;
      answer == IoFailed || answer == Ended
    case _ => false
  }

  lemma HandshakeStep(w: Worker, e: Event, maxMissed: nat)
    requires w.t.phase == Handshake && w.stream.Some? && !w.dead
    ensures var x := Handle(w, e, maxMissed);
      && !x.dead
      && if EndsHandshake(w, e, w.t.lastEventAt)
         then x.t.phase == (if e.DisconnectRequest? then Disconnected else ConnectionLost) && x.stream.None?
         else
           && x.t.phase == Handshake && x.stream.Some? && x.t.lastEventAt == w.t.lastEventAt
           && (e.TickEvent? ==> x == w)
  {
    hide Exchange, Connect, ReloadedAll;
    match e
    case ExchangePriority(data, io) => ExchangePhase(w, data, FirstByte(data), false, io);
    case _ =>
  }

  /** A worker in Handshake is alive, with an open stream. */
  lemma StandsAlive(l: Launch, events: seq<Event>, since: nat)
    requires LastPhase(RunWorker(l, events).log) == Some((Handshake, since))
    ensures var w := RunWorker(l, events);
      w.t.phase == Handshake && w.t.lastEventAt == since && w.stream.Some? && !w.dead
  {
    hide RunWorker, LastPhase, AtBoundary, Accounted, Stamped;
    RunIsConsistent(l, events);
    DeadIsConnected(l, events);
    BoundaryFacts(RunWorker(l, events), l.maxMissed);
    StampedPhase(RunWorker(l, events), since);
  }

  lemma BoundaryFacts(w: Worker, maxMissed: nat)
    requires AtBoundary(w, maxMissed)
    ensures Stamped(w) && (w.stream.Some? <==> w.t.phase == Handshake || w.t.phase == Connected)
  {
    hide PingsCounted, OutageTracked, OwedPassed, Sessions, TotalLength, LostAmong;
  }

  lemma StampedPhase(w: Worker, since: nat)
    requires Stamped(w) && LastPhase(w.log) == Some((Handshake, since))
    ensures w.t.phase == Handshake && w.t.lastEventAt == since
  {
  }

  /** Main result, over all runs: a handshake that the log has as begun at `since` stands, unmoved,
  through any further events as long as none of them ends it. */
  lemma {:induction false} HandshakeStands(l: Launch, events: seq<Event>, more: seq<Event>, since: nat)
    requires LastPhase(RunWorker(l, events).log) == Some((Handshake, since))
    requires forall i :: 0 <= i < |more| ==> !EndsHandshake(RunWorker(l, events + more[..i]), more[i], since)
    ensures LastPhase(RunWorker(l, events + more).log) == Some((Handshake, since))
    decreases |more|
  {
    hide LastPhase, Handle, EndsHandshake, AtBoundary, RunWorker;
    var all := events + more;
    if more == [] {
      assert all == events;
    } else {
      var n := |more| - 1;
      forall i | 0 <= i < n ensures more[..n][..i] == more[..i] {
      }
      HandshakeStands(l, events, more[..n], since);
      assert all[..|all| - 1] == events + more[..n] && all[|all| - 1] == more[n];
      RunLast(l, all);
      StandsAlive(l, events + more[..n], since);
      HandshakeStep(RunWorker(l, events + more[..n]), more[n], l.maxMissed);
      RunIsConsistent(l, all);
      BoundaryFacts(RunWorker(l, all), l.maxMissed);
      StampedOnce(RunWorker(l, all), since);
    }
  }

  lemma StampedOnce(w: Worker, since: nat)
    requires Stamped(w) && LastPhase(w.log).Some? && w.t.phase == Handshake && w.t.lastEventAt == since
    ensures LastPhase(w.log) == Some((Handshake, since))
  {
  }

  /** Main result, over all runs: the next event ends such a handshake exactly if it is a tick more
  than 15 seconds after `since`, a disconnect, or a priority exchange that meets a broken stream. */
  lemma HandshakeEndsExactly(l: Launch, events: seq<Event>, e: Event, since: nat)
    requires LastPhase(RunWorker(l, events).log) == Some((Handshake, since))
    ensures var w := RunWorker(l, events);
      var x := RunWorker(l, events + [e]);
      if EndsHandshake(w, e, since)
      then x.t.phase == (if e.DisconnectRequest? then Disconnected else ConnectionLost) && x.stream.None?
      else LastPhase(x.log) == Some((Handshake, since)) && (e.TickEvent? ==> x == w)
  {
    hide LastPhase, Handle, EndsHandshake, RunWorker;
    RunLast(l, events + [e]);
    StandsAlive(l, events, since);
    HandshakeStep(RunWorker(l, events), e, l.maxMissed);
    assert (events + [e])[..|events|] == events;
    if !EndsHandshake(RunWorker(l, events), e, since) {
      assert [e][..0] == [] && events + [] == events;
      HandshakeStands(l, events, [e], since);
    }
  }

  // ---------- A worker that panics ----------

  /** A push receive is about to take an empty frame. */
  predicate MeetsEmptyFrame(w: Worker, e: Event)
  {
    && e.PushReady? && e.ready && w.t.phase == Connected && w.stream.Some?
    && w.stream.value != [] && w.stream.value[0] == Arrival([])
  }

  lemma PanicsExactly(w: Worker, e: Event, maxMissed: nat)
    ensures Handle(w, e, maxMissed).dead <==> w.dead || MeetsEmptyFrame(w, e)
    ensures w.dead ==> Handle(w, e, maxMissed) == w
    ensures !w.dead && MeetsEmptyFrame(w, e) ==> Handle(w, e, maxMissed).t.phase == Connected
  {
    hide Exchange, Connect, Collect, ReloadedAll, TakenIn;
    match e
    case TickEvent(io) => TickPanicsNever(w, io, maxMissed);
    case ExchangeStandard(data, _, io) => ExchangePhase(w, data, FirstByte(data), false, io);
    case ExchangePriority(data, io) => ExchangePhase(w, data, FirstByte(data), false, io);
    case ConnectRequest(io) => HandshakeIsLeftExactly(w, io);
    case _ =>
  }

  lemma RefreshPanicsNever(w: Worker, m: MaskIo)
    ensures Refresh(w, m).dead == w.dead
  {
    hide Exchange, BuildPushMask;
    ExchangePhase(SetDirty(w, false), MaskData(w.shared.config, m.support14), LIST_OF_NEW_DATA, false, m.io);
  }

  lemma TickPanicsNever(w: Worker, io: TickIo, maxMissed: nat)
    ensures Tick(w, io, maxMissed).dead == w.dead
  {
    hide Exchange, Connect, Refresh;
    RefreshPanicsNever(w, io.mask);
    ExchangePhase(Refresh(w, io.mask), [PANEL_VERSION], PANEL_VERSION, true, io.ping);
    HandshakeIsLeftExactly(StartReconnect(w), io.connect);
  }

  lemma BornAlive(l: Launch)
    ensures !RunWorker(l, []).dead
  {
    hide Connect;
    HandshakeIsLeftExactly(NewWorker(l.config, l.clock, l.wall), l.first);
  }

  lemma {:induction false} DeadIsConnected(l: Launch, events: seq<Event>)
    ensures RunWorker(l, events).dead ==> RunWorker(l, events).t.phase == Connected
    decreases |events|
  {
    hide Handle, RunWorker, MeetsEmptyFrame;
    if events == [] {
      BornAlive(l);
    } else {
      var n := |events| - 1;
      DeadIsConnected(l, events[..n]);
      RunLast(l, events);
      PanicsExactly(RunWorker(l, events[..n]), events[n], l.maxMissed);
    }
  }

  /** Main result, over all runs: the worker is dead exactly if at some point of the run a push
  receive met an empty frame; exchanges, pings and handshakes skip empty frames. */
  lemma {:induction false} DeadExactly(l: Launch, events: seq<Event>)
    ensures RunWorker(l, events).dead <==>
      exists i :: 0 <= i < |events| && MeetsEmptyFrame(RunWorker(l, events[..i]), events[i])
    decreases |events|
  {
    hide Handle, RunWorker, MeetsEmptyFrame;
    if events == [] {
      BornAlive(l);
    } else {
      var n := |events| - 1;
      DeadExactly(l, events[..n]);
      RunLast(l, events);
      PanicsExactly(RunWorker(l, events[..n]), events[n], l.maxMissed);
      forall i | 0 <= i < n ensures events[..n][..i] == events[..i] && events[..n][i] == events[i] {
      }
      if RunWorker(l, events[..n]).dead {
        var i :| 0 <= i < n && MeetsEmptyFrame(RunWorker(l, events[..n][..i]), events[..n][i]);
        assert MeetsEmptyFrame(RunWorker(l, events[..i]), events[i]);
      }
    }
  }
}
