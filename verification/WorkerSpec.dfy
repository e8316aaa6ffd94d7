/** The connection worker as a state machine: what each of its transitions does to the state it
shares with the client, with a record of the past that the proofs are about. */
module WorkerSpec {
  import opened Bytes
  import opened Demux
  import opened PushMask

  datatype Phase = Connected | Disconnected | ConnectionLost | Connecting | Handshake

  const MAX_U32 := 0xFFFF_FFFF
  const WATCHDOG_MS := 15000
  const PING_AFTER_MS := 2000

  datatype Telemetry = Telemetry(
    phase: Phase, failedAttempts: nat, lastEventAt: nat, lastSendAt: nat,
    established: nat, lost: nat, reconnectAttempts: nat,
    timeouts: nat, ioErrors: nat, rejected: nat, nonPing: nat,
    connectedSince: Option<int>, totalConnectedBefore: nat)

  datatype Note = Status(phase: Phase) | Passed(f: frame) | Version | AutoReadReport

  /** What the worker shares with hot reloads: the auto-read settings, the `auto_read_dirty` flag, and
  the number of reloads that have written the settings but not yet stored the flag. */
  datatype Shared = Shared(config: AutoRead, dirty: bool, pending: nat)

  /** The two accesses of a hot reload; the flag is stored only if the mask has changed. */
  datatype Reload = WritesConfig(config: AutoRead) | StoresFlag

  function Reloaded(s: Shared, r: Reload): Shared
  {
    match r
    case WritesConfig(config) =>
      var changed := BuildPushMask(s.config, true) != BuildPushMask(config, true);
      s.(config := config, pending := if changed then s.pending + 1 else s.pending)
    case StoresFlag => if s.pending > 0 then s.(pending := s.pending - 1, dirty := true) else s
  }

  function ReloadedAll(s: Shared, reloads: seq<Reload>): Shared
    decreases |reloads|
  {
    if reloads == [] then s else ReloadedAll(Reloaded(s, reloads[0]), reloads[1..])
  }

  /** What has happened, as it happened: each change of phase with both clocks, each automatic
  reconnect, each ping timeout, each write to the stream that succeeded, the non-empty frames that
  each call has taken off the stream, each exchange with what was sent and how it was answered, each
  push receive that met a stream error, and each statistics reset. No transition reads it. */
  datatype Mark =
    | Entered(phase: Phase, clock: nat, wall: int)
    | ReconnectStarted(clock: nat)
    | PingTimedOut
    | Wrote(data: seq<byte>, isPing: bool, clock: nat)
    | PushFailed
    | Took(taken: seq<Taken>)
    | Exchanged(data: seq<byte>, answer: Answer)
    | CountersReset(wall: int)

  /** The worker between two transitions. `stream` is what the open stream will still deliver,
  `clock` the monotone clock in milliseconds, `wall` the wall clock, which may jump. */
  datatype Worker = Worker(
    stream: Option<seq<Incoming>>, t: Telemetry, missedPings: nat, notes: seq<Note>,
    shared: Shared, clock: nat, wall: int, dead: bool, log: seq<Mark>)

  /** Time passing: so many milliseconds, after which the wall clock shows `wall`, and the accesses
  of hot reloads that fall into them. */
  datatype Delay = Delay(millis: nat, wall: int, reloads: seq<Reload>)

  function Wait(w: Worker, d: Delay): Worker
  {
    w.(clock := w.clock + d.millis, wall := d.wall, shared := ReloadedAll(w.shared, d.reloads))
  }

  function Notify(w: Worker, note: Note): Worker { w.(notes := w.notes + [note]) }

  function Record(w: Worker, mark: Mark): Worker { w.(log := w.log + [mark]) }

  // ---------- State changes ----------

  /** The new phase is logged and reported to the state worker. */
  function Announce(w: Worker, phase: Phase): Worker
  {
    Notify(Record(w, Entered(phase, w.clock, w.wall)), Status(phase))
  }

  function ToConnecting(w: Worker): Worker
  {
    Announce(w.(t := w.t.(phase := Connecting, lastEventAt := w.clock)), Connecting)
  }

  function ToHandshake(w: Worker, inbox: seq<Incoming>): Worker
  {
    Announce(w.(stream := Some(inbox), t := w.t.(phase := Handshake, lastEventAt := w.clock)), Handshake)
  }

  function ToConnected(w: Worker): Worker
  {
    Announce(w.(missedPings := 0,
                t := w.t.(phase := Connected, lastEventAt := w.clock, failedAttempts := 0,
                          established := w.t.established + 1, connectedSince := Some(w.wall))),
             Connected)
  }

  /** The clamped wall-clock length of a session. */
  function SessionLength(since: int, now: int): nat { if now < since then 0 else now - since }

  /** End the running session, if there is one, and add its length to the total. */
  function CloseSession(w: Worker): Worker
  {
    match w.t.connectedSince
    case None => w
    case Some(since) =>
      w.(t := w.t.(connectedSince := None,
                   totalConnectedBefore := w.t.totalConnectedBefore + SessionLength(since, w.wall)))
  }

  function ToLost(w: Worker): Worker
  {
    var c := if w.t.phase == Connected then CloseSession(w) else w;
    Announce(c.(stream := None, missedPings := 0,
                t := c.t.(phase := ConnectionLost, lastEventAt := w.clock,
                          failedAttempts := c.t.failedAttempts + 1,
                          lost := if w.t.phase == Connected then c.t.lost + 1 else c.t.lost)),
             ConnectionLost)
  }

  function ToDisconnected(w: Worker): Worker
  {
    var c := CloseSession(w);
    Announce(c.(stream := None, missedPings := 0,
                t := c.t.(phase := Disconnected, lastEventAt := w.clock, failedAttempts := 0)),
             Disconnected)
  }

  /** `ConnectionTelemetry::reset`. */
  function ResetStatistics(w: Worker): Worker
  {
    Record(w.(t := w.t.(established := 0, lost := 0, reconnectAttempts := 0, timeouts := 0, ioErrors := 0,
                        rejected := 0, nonPing := 0, totalConnectedBefore := 0,
                        connectedSince := if w.t.phase == Connected then Some(w.wall) else None)),
           CountersReset(w.wall))
  }

  /** `ConnectionTelemetry::statistics`: the total includes the running session. */
  function TotalConnected(w: Worker): nat
  {
    w.t.totalConnectedBefore
      + if w.t.phase == Connected && w.t.connectedSince.Some?
        then SessionLength(w.t.connectedSince.value, w.wall) else 0
  }

  // ---------- Pings ----------

  function HandlePingTimeout(w: Worker): Worker
  {
    Record(w.(missedPings := if w.missedPings < MAX_U32 then w.missedPings + 1 else w.missedPings), PingTimedOut)
  }

  predicate TooManyMissed(w: Worker, maxMissed: nat) { maxMissed > 0 && w.missedPings >= maxMissed }

  // ---------- Exchanges ----------

  datatype Send = SendOk | SendFailed | SendTimedOut

  /** How an exchange meets the outside world: the send, the time it takes, how many arrivals come
  in before the read deadline, and the time until the exchange is over. */
  datatype Io = Io(send: Send, sending: Delay, patience: nat, receiving: Delay)

  datatype Answer = Replied(f: frame) | NotConnected | IoFailed | Timeout | Ended

  function PassAll(frames: seq<frame>): seq<Note>
  {
    if frames == [] then [] else [Passed(frames[0])] + PassAll(frames[1..])
  }

  /** Take off the open stream what `call` collects. */
  function Absorb(w: Worker, inbox: seq<Incoming>, call: Call): Worker
  {
    var c := Serve(inbox, call);
    Record(w.(stream := Some(inbox[c.consumed..]),
              missedPings := if c.heard then 0 else w.missedPings,
              notes := w.notes + PassAll(c.forwarded),
              t := w.t.(rejected := w.t.rejected + c.rejected, nonPing := w.t.nonPing + c.nonPing)),
           Took(TakenIn(inbox, call)))
  }

  function Sent(w: Worker, data: seq<byte>, isPing: bool): Worker
  {
    Record(w.(t := w.t.(lastSendAt := w.clock, nonPing := w.t.nonPing + if isPing then 0 else 1)),
           Wrote(data, isPing, w.clock))
  }

  /** Send `data` and wait for a frame that starts with `expected`. */
  function Exchange(w: Worker, data: seq<byte>, expected: byte, isPing: bool, io: Io): (Worker, Answer)
  {
    if w.stream.None? then (w, NotConnected)
    else
      var (x, answer) := Attempt(w, data, expected, isPing, io);
      (Record(x, Exchanged(data, answer)), answer)
  }

  function Attempt(w: Worker, data: seq<byte>, expected: byte, isPing: bool, io: Io): (Worker, Answer)
    requires w.stream.Some?
  {
    var inbox := w.stream.value;
    var sending := Wait(w, io.sending);
    match io.send
    case SendFailed => (ToLost(sending.(t := sending.t.(ioErrors := sending.t.ioErrors + 1))), IoFailed)
    case SendTimedOut => (sending.(t := sending.t.(timeouts := sending.t.timeouts + 1)), Timeout)
    case SendOk =>
      var call := ForExchange(expected, isPing, io.patience);
      Finish(Absorb(Wait(Sent(sending, data, isPing), io.receiving), inbox, call), Serve(inbox, call).end)
  }

  /** How the receive loop leaves the worker. */
  function Finish(w: Worker, end: End): (Worker, Answer)
  {
    match end
    case Reply(f) => (w, Replied(f))
    case StreamFailed => (ToLost(w.(t := w.t.(ioErrors := w.t.ioErrors + 1))), IoFailed)
    case StreamClosed => (ToLost(w), Ended)
    case _ => (w.(t := w.t.(timeouts := w.t.timeouts + 1)), Timeout)
  }

  function ReceivePush(w: Worker, ready: bool, cut: bool): Worker
  {
    if w.stream.None? then w
    else
      var call := ForPush(ready, cut);
      var end := Serve(w.stream.value, call).end;
      if end.Panicked? then w.(dead := true) else FinishPush(Absorb(w, w.stream.value, call), end)
  }

  function FinishPush(w: Worker, end: End): Worker
  {
    match end
    case StreamFailed => ToLost(Record(w.(t := w.t.(ioErrors := w.t.ioErrors + 1)), PushFailed))
    case StreamClosed => ToLost(w)
    case _ => w
  }

  // ---------- Connecting ----------

  const MODULE_VERSION: byte := 0x7C
  const PANEL_VERSION: byte := 0x7E
  const LIST_OF_NEW_DATA: byte := 0x7F

  /** Sending the mask: whether the module supports the long one, and the exchange. */
  datatype MaskIo = MaskIo(support14: bool, io: Io)

  /** The outside world during one connection attempt; `inbox` is absent if dialling fails. */
  datatype ConnectIo = ConnectIo(
    dial: Delay, inbox: Option<seq<Incoming>>, settle: Delay,
    ethm: Io, ethmParses: bool, panel: Io, panelParses: bool, pause: Delay, mask: MaskIo)

  function MaskData(config: AutoRead, support14: bool): seq<byte>
  {
    [LIST_OF_NEW_DATA] + BuildPushMask(config, support14)
  }

  function SendPushMask(w: Worker, m: MaskIo): (Worker, Answer)
  {
    var (x, a) := Exchange(w, MaskData(w.shared.config, m.support14), LIST_OF_NEW_DATA, false, m.io);
    if a.Replied? then (Notify(x, AutoReadReport), a) else (x, a)
  }

  /** One version query of the handshake; the second component tells whether to go on. A reply
  that does not parse ends the attempt without a state change. */
  function VersionQuery(w: Worker, command: byte, io: Io, parses: bool): (Worker, bool)
  {
    var (x, a) := Exchange(w, [command], command, false, io);
    if !a.Replied? then (ToLost(x), false)
    else if !parses then (x, false)
    else (Notify(x, Version), true)
  }

  function SetDirty(w: Worker, dirty: bool): Worker { w.(shared := w.shared.(dirty := dirty)) }

  /** The flag is cleared before anything is dialled. */
  function Connect(w: Worker, io: ConnectIo): Worker { Dial(SetDirty(ToConnecting(w), false), io) }

  function Dial(w: Worker, io: ConnectIo): Worker
  {
    var dialled := Wait(w, io.dial);
    match io.inbox
    case None => ToLost(dialled)
    case Some(inbox) =>
      var greeted := Wait(ToHandshake(dialled, inbox), io.settle);
      var (x, ok) := VersionQuery(greeted, MODULE_VERSION, io.ethm, io.ethmParses);
      if !ok then x
      else
        var (y, go) := VersionQuery(x, PANEL_VERSION, io.panel, io.panelParses);
        if !go then y else Subscribe(Wait(y, io.pause), io)
  }

  function Subscribe(w: Worker, io: ConnectIo): Worker
  {
    if !w.shared.config.IsEnabled() then ToConnected(w)
    else
      var (x, a) := SendPushMask(w, io.mask);
      if a.Replied? then ToConnected(x) else ToLost(x)
  }

  // ---------- Backoff ----------

  function CalculateBackoff(attempts: nat): (ms: nat)
    ensures 500 <= ms <= 60000
  {
    if attempts == 0 then 500
    else
      var ms := 500 * PowerOfTwo(if attempts - 1 < 7 then attempts - 1 else 7);
      if ms < 60000 then ms else 60000
  }

  // ---------- The tick ----------

  datatype TickIo = TickIo(autoReconnect: bool, mask: MaskIo, ping: Io, connect: ConnectIo)

  function Elapsed(clock: nat, since: nat): nat { if clock < since then 0 else clock - since }

  function Watchdog(w: Worker): Worker
  {
    if (w.t.phase == Connecting || w.t.phase == Handshake) && Elapsed(w.clock, w.t.lastEventAt) > WATCHDOG_MS
    then ToLost(w) else w
  }

  function KeepAlive(w: Worker, io: Io, maxMissed: nat): Worker
  {
    if Elapsed(w.clock, w.t.lastSendAt) < PING_AFTER_MS then w
    else
      var (x, a) := Exchange(w, [PANEL_VERSION], PANEL_VERSION, true, io);
      if a != Timeout then x
      else
        var y := HandlePingTimeout(x);
        if TooManyMissed(y, maxMissed) then ToLost(y) else y
  }

  function StartReconnect(w: Worker): Worker
  {
    Record(w.(t := w.t.(reconnectAttempts := w.t.reconnectAttempts + 1)), ReconnectStarted(w.clock))
  }

  /** Take the flag; if it was up, send the mask, and put the flag back if there is no answer. */
  function Refresh(w: Worker, m: MaskIo): Worker
  {
    if !w.shared.dirty then w
    else
      var (x, a) := SendPushMask(SetDirty(w, false), m);
      if a.Replied? then x else SetDirty(x, true)
  }

  /** The phase is read once, at the start of the tick. */
  function Tick(w: Worker, io: TickIo, maxMissed: nat): Worker
  {
    match w.t.phase
    case Connected => KeepAlive(Refresh(w, io.mask), io.ping, maxMissed)
    case ConnectionLost =>
      if io.autoReconnect && Elapsed(w.clock, w.t.lastEventAt) >= CalculateBackoff(w.t.failedAttempts)
      then Connect(StartReconnect(w), io.connect) else w
    case _ => Watchdog(w)
  }

  // ---------- The actor ----------

  datatype Event =
    | TimePasses(d: Delay)
    | PushReady(ready: bool, cut: bool)
    | TickEvent(tick: TickIo)
    | ExchangeStandard(data: seq<byte>, expired: bool, io: Io)
    | ExchangePriority(data: seq<byte>, io: Io)
    | ConnectRequest(connect: ConnectIo)
    | DisconnectRequest
    | StatisticsReset

  /** `data.first().unwrap_or(0)`: the command a caller waits for. */
  function FirstByte(data: seq<byte>): byte { if data == [] then 0 else data[0] }

  function Handle(w: Worker, e: Event, maxMissed: nat): Worker
  {
    if w.dead then w
    else
      match e
      case TimePasses(d) => Wait(w, d)
      case PushReady(ready, cut) => if w.t.phase == Connected then ReceivePush(w, ready, cut) else w
      case TickEvent(io) => Tick(w, io, maxMissed)
      case ExchangeStandard(data, expired, io) =>
        if w.t.phase != Connected || expired then w else Exchange(w, data, FirstByte(data), false, io).0
      case ExchangePriority(data, io) =>
        if w.t.phase == Disconnected || w.t.phase == ConnectionLost then w
        else Exchange(w, data, FirstByte(data), false, io).0
      case ConnectRequest(io) =>
        if w.t.phase == Disconnected || w.t.phase == ConnectionLost then Connect(w, io) else w
      case DisconnectRequest => if w.t.phase == Disconnected then w else ToDisconnected(w)
      case StatisticsReset => ResetStatistics(w)
  }

  /** A worker that has just been created. */
  function NewWorker(config: AutoRead, clock: nat, wall: int): Worker
  {
    Worker(None, Telemetry(Disconnected, 0, clock, clock, 0, 0, 0, 0, 0, 0, 0, None, 0), 0, [],
           Shared(config, false, 0), clock, wall, false, [])
  }

  /** How a worker is started: settings, both clocks, the first connection attempt, and the limit of
  missed pings. */
  datatype Launch = Launch(config: AutoRead, clock: nat, wall: int, first: ConnectIo, maxMissed: nat)

  /** The worker connects once when it is started and then handles events in any order. */
  function RunWorker(l: Launch, events: seq<Event>): Worker
    decreases |events|
  {
    if events == [] then Connect(NewWorker(l.config, l.clock, l.wall), l.first)
    else Handle(RunWorker(l, events[..|events| - 1]), events[|events| - 1], l.maxMissed)
  }
}
