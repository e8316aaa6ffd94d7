/** How incoming frames are divided between the caller of an exchange and the state worker. */
module Demux {
  import opened Bytes

  const RESULT_CODE: byte := 0xEF
  const ACCEPTED: byte := 0xFF
  const READ_NAME: byte := 0xEE

  type frame = seq<byte>

  /** What the open stream delivers next. */
  datatype Incoming = Arrival(f: frame) | IoError | Closed

  predicate IsAccepted(f: frame) { |f| >= 2 && f[0] == RESULT_CODE && f[1] == ACCEPTED }

  /** A frame that ends an exchange: the awaited command, or a result code. */
  predicate IsTarget(f: frame, expected: byte) { f != [] && (f[0] == expected || f[0] == RESULT_CODE) }

  /** The frames an exchange passes on to the state worker. */
  predicate ExchangeForwards(f: frame, expected: byte)
  {
    && f != []
    && (f[0] != expected || f[0] == RESULT_CODE)
    && !IsAccepted(f)
    && !(expected == READ_NAME && f[0] == RESULT_CODE)
  }

  datatype End = Reply(f: frame) | StreamFailed | StreamClosed | DeadlinePassed | Panicked | NothingYet

  /** The receive loop of one exchange: how it ends, how many arrivals it consumes, the frames it
  passes on, and what it adds to the telemetry. */
  datatype Collected = Collected(end: End, consumed: nat, forwarded: seq<frame>,
                                 heard: bool, rejected: nat, nonPing: nat)

  /** `patience` arrivals come in before the deadline. */
  function Collect(inbox: seq<Incoming>, patience: nat, expected: byte, isPing: bool): (c: Collected)
    ensures c.consumed <= |inbox|
  {
    if patience == 0 || inbox == [] then Collected(DeadlinePassed, 0, [], false, 0, 0)
    else
      match inbox[0]
      case IoError => Collected(StreamFailed, 1, [], false, 0, 0)
      case Closed => Collected(StreamClosed, 1, [], false, 0, 0)
      case Arrival(f) =>
        if f == [] then
          var rest := Collect(inbox[1..], patience - 1, expected, isPing);
          rest.(consumed := rest.consumed + 1)
        else
          var mine := Noted(f, expected, isPing);
          if IsTarget(f, expected) then mine.(end := Reply(f))
          else Followed(mine, Collect(inbox[1..], patience - 1, expected, isPing))
  }

  /** What one non-empty frame adds. */
  function Noted(f: frame, expected: byte, isPing: bool): Collected
    requires f != []
  {
    Collected(DeadlinePassed, 1,
              if ExchangeForwards(f, expected) then [f] else [],
              true,
              if f[0] == RESULT_CODE && !IsAccepted(f) then 1 else 0,
              if !isPing || !IsTarget(f, expected) then 1 else 0)
  }

  function Followed(first: Collected, rest: Collected): Collected
  {
    Collected(rest.end, first.consumed + rest.consumed, first.forwarded + rest.forwarded,
              first.heard || rest.heard, first.rejected + rest.rejected, first.nonPing + rest.nonPing)
  }

  /** One push receive: it takes at most one arrival, and indexes into the frame unchecked. It is
  `cut` if it has to wait for room in the channel to the state worker and is dropped meanwhile,
  because something else is ready first: then the frame is neither passed on nor counts as heard. */
  function TakePush(inbox: seq<Incoming>, ready: bool, cut: bool): Collected
  {
    if !ready || inbox == [] then Collected(NothingYet, 0, [], false, 0, 0)
    else
      match inbox[0]
      case IoError => Collected(StreamFailed, 1, [], false, 0, 0)
      case Closed => Collected(StreamClosed, 1, [], false, 0, 0)
      case Arrival(f) =>
        if f == [] then Collected(Panicked, 1, [], false, 0, 1)
        else if IsAccepted(f) then Collected(NothingYet, 1, [], true, 0, 1)
        else if cut then Collected(NothingYet, 1, [], false, 0, 1)
        else Collected(NothingYet, 1, [f], true, 0, 1)
  }

  // ---------- One session: any interleaving of exchanges and push receives ----------

  datatype Call = ForExchange(expected: byte, isPing: bool, patience: nat) | ForPush(ready: bool, cut: bool)

  function Serve(inbox: seq<Incoming>, call: Call): (c: Collected)
    ensures c.consumed <= |inbox|
  {
    match call
    case ForExchange(expected, isPing, patience) => Collect(inbox, patience, expected, isPing)
    case ForPush(ready, cut) => TakePush(inbox, ready, cut)
  }

  /** The session goes on after this end. */
  predicate GoesOn(end: End) { end.Reply? || end.DeadlinePassed? || end.NothingYet? }

  /** Everything the state worker is given during a session. */
  function Forwarded(inbox: seq<Incoming>, calls: seq<Call>): seq<frame>
    decreases |calls|
  {
    if calls == [] then []
    else
      var c := Serve(inbox, calls[0]);
      c.forwarded + if GoesOn(c.end) then Forwarded(inbox[c.consumed..], calls[1..]) else []
  }

  // ---------- The reference: who took which frame ----------

  /** One frame, the call that took it off the stream, and whether that call returned it. */
  datatype Taken = Taken(f: frame, taker: Call, returned: bool)

  function Frames(arrivals: seq<Incoming>): seq<frame>
  {
    if arrivals == [] then []
    else (if arrivals[0].Arrival? && arrivals[0].f != [] then [arrivals[0].f] else []) + Frames(arrivals[1..])
  }

  /** The frames one call takes; if it replies, it returns the last of them. */
  function TakenBy(frames: seq<frame>, call: Call, replies: bool): seq<Taken>
  {
    if frames == [] then []
    else [Taken(frames[0], call, replies && |frames| == 1)] + TakenBy(frames[1..], call, replies)
  }

  function TakenIn(inbox: seq<Incoming>, call: Call): seq<Taken>
  {
    var c := Serve(inbox, call);
    TakenBy(Frames(inbox[..c.consumed]), call, c.end.Reply?)
  }

  function Ledger(inbox: seq<Incoming>, calls: seq<Call>): seq<Taken>
    decreases |calls|
  {
    if calls == [] then []
    else
      var c := Serve(inbox, calls[0]);
      TakenIn(inbox, calls[0])
        + if GoesOn(c.end) then Ledger(inbox[c.consumed..], calls[1..]) else []
  }

  function Consumed(inbox: seq<Incoming>, calls: seq<Call>): (n: nat)
    ensures n <= |inbox|
    decreases |calls|
  {
    if calls == [] then 0
    else
      var c := Serve(inbox, calls[0]);
      c.consumed + if GoesOn(c.end) then Consumed(inbox[c.consumed..], calls[1..]) else 0
  }

  /** An acceptance, `EF FF`, and a rejection, any other frame that starts with `EF`. */
  predicate Accepts(f: frame) { |f| > 1 && f[0] == 0xEF && f[1] == 0xFF }

  predicate Rejects(f: frame) { f != [] && f[0] == 0xEF && !Accepts(f) }

  /** Which of the taken frames the state worker is owed: whatever an exchange took and did not
  return, a rejection even if it is returned (but not to a name query), and whatever a push
  receive took that is not an acceptance. */
  predicate IsOwed(t: Taken)
  {
    match t.taker
    case ForExchange(expected, _, _) => !t.returned || (Rejects(t.f) && expected != 0xEE)
    case ForPush(_, _) => !Accepts(t.f)
  }

  /** Taken by a push receive that was dropped while it waited to pass the frame on. */
  predicate IsCut(t: Taken) { t.taker.ForPush? && t.taker.cut && !Accepts(t.f) }

  function Owed(ledger: seq<Taken>): (owed: seq<frame>)
  {
    if ledger == [] then []
    else (if IsOwed(ledger[0]) then [ledger[0].f] else []) + Owed(ledger[1..])
  }

  /** The frames owed whose receive was not cut. */
  function Given(ledger: seq<Taken>): seq<frame>
  {
    if ledger == [] then []
    else (if IsOwed(ledger[0]) && !IsCut(ledger[0]) then [ledger[0].f] else []) + Given(ledger[1..])
  }

  predicate NoneCut(ledger: seq<Taken>) { forall i :: 0 <= i < |ledger| ==> !IsCut(ledger[i]) }

  predicate AllCut(ledger: seq<Taken>) { forall i :: 0 <= i < |ledger| ==> IsCut(ledger[i]) }

  function FramesOf(ledger: seq<Taken>): seq<frame>
  {
    if ledger == [] then [] else [ledger[0].f] + FramesOf(ledger[1..])
  }

  // ---------- Proofs ----------

  lemma {:induction false} FramesAppend(a: seq<Incoming>, b: seq<Incoming>)
    ensures Frames(a + b) == Frames(a) + Frames(b)
  {
    if a == [] {
      assert a + b == b;
    } else {
      assert (a + b)[1..] == a[1..] + b;
      FramesAppend(a[1..], b);
    }
  }

  lemma {:induction false} FramesOfAppend(a: seq<Taken>, b: seq<Taken>)
    ensures FramesOf(a + b) == FramesOf(a) + FramesOf(b)
  {
    if a == [] {
      assert a + b == b;
    } else {
      assert (a + b)[1..] == a[1..] + b;
      FramesOfAppend(a[1..], b);
    }
  }

  lemma {:induction false} GivenAppend(a: seq<Taken>, b: seq<Taken>)
    ensures Given(a + b) == Given(a) + Given(b)
  {
    hide IsOwed, IsCut;
    if a == [] {
      assert a + b == b;
    } else {
      assert (a + b)[1..] == a[1..] + b;
      GivenAppend(a[1..], b);
    }
  }

  lemma {:induction false} GivenIsPart(ledger: seq<Taken>)
    ensures |Given(ledger)| <= |Owed(ledger)|
    ensures |Given(ledger)| == |Owed(ledger)| <==> NoneCut(ledger)
    ensures NoneCut(ledger) ==> Given(ledger) == Owed(ledger)
  {
    if ledger != [] {
      GivenIsPart(ledger[1..]);
      CutIsOwed(ledger[0]);
      assert NoneCut(ledger) <==> !IsCut(ledger[0]) && NoneCut(ledger[1..]) by {
        NoneCutFirst(ledger);
      }
    }
  }

  lemma NoneCutFirst(ledger: seq<Taken>)
    requires ledger != []
    ensures NoneCut(ledger) <==> !IsCut(ledger[0]) && NoneCut(ledger[1..])
  {
    hide IsCut;
    if !IsCut(ledger[0]) && NoneCut(ledger[1..]) {
      forall i | 0 <= i < |ledger| ensures !IsCut(ledger[i]) {
        assert i > 0 ==> ledger[i] == ledger[1..][i - 1];
      }
    }
  }

  lemma CutIsOwed(t: Taken)
    ensures IsCut(t) ==> IsOwed(t)
  {
  }

  /** The state worker gets everything it is owed exactly if no push receive was cut. */
  lemma GivenIsOwedExactly(ledger: seq<Taken>)
    ensures Given(ledger) == Owed(ledger) <==> NoneCut(ledger)
  {
    hide Given, Owed, NoneCut;
    GivenIsPart(ledger);
  }

  lemma {:induction false} FramesOfTaken(frames: seq<frame>, call: Call, replies: bool)
    ensures FramesOf(TakenBy(frames, call, replies)) == frames
  {
    if frames != [] {
      var rest := TakenBy(frames[1..], call, replies);
      FramesOfTaken(frames[1..], call, replies);
      assert TakenBy(frames, call, replies)[1..] == rest;
    }
  }

  lemma FirstFrame(first: Incoming, rest: seq<Incoming>)
    ensures Frames([first] + rest) == if first.Arrival? && first.f != [] then [first.f] + Frames(rest) else Frames(rest)
  {
    assert ([first] + rest)[1..] == rest;
  }

  /** What an exchange that took `frames` passes on: each of them but the one it returns, and that
  one too if it is a rejection and the exchange is not a name query. */
  function PassedOn(frames: seq<frame>, replies: bool, expected: byte): seq<frame>
  {
    if !replies || frames == [] then frames
    else
      var last := frames[|frames| - 1];
      frames[..|frames| - 1] + if Rejects(last) && expected != 0xEE then [last] else []
  }

  lemma PassedOnFirst(f: frame, frames: seq<frame>, expected: byte, end: End)
    requires FirstTarget(frames, expected, end) && !IsTarget(f, expected)
    ensures FirstTarget([f] + frames, expected, end)
    ensures PassedOn([f] + frames, end.Reply?, expected) == [f] + PassedOn(frames, end.Reply?, expected)
  {
    hide IsTarget, Rejects;
    if end.Reply? {
      assert ([f] + frames)[..|frames|] == [f] + frames[..|frames| - 1];
    }
  }

  /** An exchange ends with the first target frame it takes; of the frames it takes it passes on
  those that are not for its caller alone. */
  lemma {:induction false} ExchangePassesOn(inbox: seq<Incoming>, patience: nat, expected: byte, isPing: bool)
    ensures var c := Collect(inbox, patience, expected, isPing);
      var frames := Frames(inbox[..c.consumed]);
      FirstTarget(frames, expected, c.end) && c.forwarded == PassedOn(frames, c.end.Reply?, expected)
    decreases |inbox|
  {
    hide Frames;
    NoFrames();
    var c := Collect(inbox, patience, expected, isPing);
    if patience > 0 && inbox != [] {
      var tail := inbox[1..];
      if inbox[0].Arrival? && !IsTarget(inbox[0].f, expected) {
        hide PassedOn, FirstTarget;
        var rest := Collect(tail, patience - 1, expected, isPing);
        ExchangePassesOn(tail, patience - 1, expected, isPing);
        assert inbox[..c.consumed] == [inbox[0]] + tail[..rest.consumed];
        FirstFrame(inbox[0], tail[..rest.consumed]);
        PassedOnFirst(inbox[0].f, Frames(tail[..rest.consumed]), expected, rest.end);
      } else {
        hide Collect;
        CollectLast(inbox, patience, expected, isPing);
        assert inbox[..1] == [inbox[0]] + [];
        FirstFrame(inbox[0], []);
      }
    }
  }

  /** An exchange whose next arrival ends it. */
  lemma CollectLast(inbox: seq<Incoming>, patience: nat, expected: byte, isPing: bool)
    requires patience > 0 && inbox != [] && (inbox[0].Arrival? ==> IsTarget(inbox[0].f, expected))
    ensures var c := Collect(inbox, patience, expected, isPing);
      && c.consumed == 1
      && match inbox[0]
         case Arrival(f) =>
           c.end == Reply(f) && c.forwarded == if Rejects(f) && expected != 0xEE then [f] else []
         case _ => !c.end.Reply? && c.forwarded == []
  {
  }

  /** Reply exactly with the last frame taken if that is a target, and none before it is. */
  predicate FirstTarget(frames: seq<frame>, expected: byte, end: End)
  {
    if end.Reply? then
      && frames != [] && frames[|frames| - 1] == end.f && IsTarget(end.f, expected)
      && forall i :: 0 <= i < |frames| - 1 ==> !IsTarget(frames[i], expected)
    else forall i :: 0 <= i < |frames| ==> !IsTarget(frames[i], expected)
  }

  lemma NoFrames()
    ensures Frames([]) == []
  {
  }

  lemma EmptyLedger()
    ensures Frames([]) == [] && Given([]) == [] && FramesOf([]) == []
  {
  }

  /** What is given of the frames one exchange takes. */
  lemma {:induction false} GivenByExchange(frames: seq<frame>, call: Call, replies: bool)
    requires call.ForExchange?
    ensures Given(TakenBy(frames, call, replies)) == PassedOn(frames, replies, call.expected)
  {
    hide Rejects;
    if frames != [] {
      GivenByExchange(frames[1..], call, replies);
      assert TakenBy(frames, call, replies)[1..] == TakenBy(frames[1..], call, replies);
      if |frames| > 1 {
        assert frames[..|frames| - 1] == [frames[0]] + frames[1..][..|frames| - 2];
      }
    }
  }

  lemma CallIsGiven(inbox: seq<Incoming>, call: Call)
    ensures Serve(inbox, call).forwarded == Given(TakenIn(inbox, call))
  {
    hide Collect, TakePush, Frames, TakenBy, Given, PassedOn;
    match call
    case ForExchange(expected, isPing, patience) =>
      var c := Collect(inbox, patience, expected, isPing);
      ExchangePassesOn(inbox, patience, expected, isPing);
      GivenByExchange(Frames(inbox[..c.consumed]), call, c.end.Reply?);
    case ForPush(_, _) => PushIsGiven(inbox, call);
  }

  lemma PushIsGiven(inbox: seq<Incoming>, call: Call)
    requires call.ForPush?
    ensures Serve(inbox, call).forwarded == Given(TakenIn(inbox, call))
  {
    hide Given, TakenBy;
    NoFrames();
    NoneGiven(call);
    if Serve(inbox, call).consumed == 1 {
      assert inbox[..1] == [inbox[0]] + [];
      FirstFrame(inbox[0], []);
      if inbox[0].Arrival? && inbox[0].f != [] {
        OneGiven(inbox[0].f, call);
      }
    }
  }

  lemma NoneGiven(call: Call)
    ensures Given(TakenBy([], call, false)) == []
  {
  }

  lemma OneTaken(f: frame, call: Call)
    ensures TakenBy([f] + [], call, false) == [Taken(f, call, false)]
  {
    var one: seq<frame> := [f] + [];
    assert |one| == 1 && one[0] == f && one[1..] == [];
    assert TakenBy(one[1..], call, false) == [];
  }

  lemma OneGiven(f: frame, call: Call)
    requires call.ForPush?
    ensures Given(TakenBy([f] + [], call, false)) == if Accepts(f) || call.cut then [] else [f]
  {
    hide TakenBy;
    OneTaken(f, call);
    assert [Taken(f, call, false)][1..] == [];
  }

  /** Main result: over every incoming sequence and every interleaving of exchanges and push
  receives, the frames are taken off the stream in order, each once, and the state worker gets,
  in that order, exactly the ones it is owed whose receive was not cut. */
  lemma {:induction false} SessionConservation(inbox: seq<Incoming>, calls: seq<Call>)
    ensures FramesOf(Ledger(inbox, calls)) == Frames(inbox[..Consumed(inbox, calls)])
    ensures Forwarded(inbox, calls) == Given(Ledger(inbox, calls))
    ensures Forwarded(inbox, calls) == Owed(Ledger(inbox, calls)) <==> NoneCut(Ledger(inbox, calls))
    decreases |calls|
  {
    hide Serve, Frames, TakenBy, Given, Owed, NoneCut, FramesOf;
    GivenIsOwedExactly(Ledger(inbox, calls));
    if calls == [] {
      EmptyLedger();
    } else {
      var c := Serve(inbox, calls[0]);
      var taken, rest := inbox[..c.consumed], inbox[c.consumed..];
      CallIsGiven(inbox, calls[0]);
      FramesOfTaken(Frames(taken), calls[0], c.end.Reply?);
      if GoesOn(c.end) {
        SessionConservation(rest, calls[1..]);
        GivenAppend(TakenIn(inbox, calls[0]), Ledger(rest, calls[1..]));
        FramesOfAppend(TakenIn(inbox, calls[0]), Ledger(rest, calls[1..]));
        var n := Consumed(rest, calls[1..]);
        assert inbox[..c.consumed + n] == taken + rest[..n];
        FramesAppend(taken, rest[..n]);
      } else {
        assert TakenIn(inbox, calls[0]) + [] == TakenIn(inbox, calls[0]);
      }
    }
  }

  /** Main result: an exchange replies with the first target frame it takes, or takes none. */
  lemma ExchangeRepliesFirstTarget(inbox: seq<Incoming>, patience: nat, expected: byte, isPing: bool)
    ensures var c := Collect(inbox, patience, expected, isPing);
      FirstTarget(Frames(inbox[..c.consumed]), expected, c.end)
  {
    hide Collect, Frames, PassedOn;
    ExchangePassesOn(inbox, patience, expected, isPing);
  }

  lemma {:induction false} ReturnedIsTarget(frames: seq<frame>, call: Call, end: End, t: Taken)
    requires call.ForExchange? && FirstTarget(frames, call.expected, end)
    requires t in TakenBy(frames, call, end.Reply?)
    ensures t.f in frames && t.taker == call && (t.returned <==> IsTarget(t.f, call.expected))
  {
    if t in TakenBy(frames[1..], call, end.Reply?) {
      ReturnedIsTarget(frames[1..], call, if frames[1..] == [] then DeadlinePassed else end, t);
    }
  }

  lemma {:induction false} TakenByPush(frames: seq<frame>, call: Call, t: Taken)
    requires t in TakenBy(frames, call, false)
    ensures t.taker == call && !t.returned
  {
    if t in TakenBy(frames[1..], call, false) {
      TakenByPush(frames[1..], call, t);
    }
  }

  /** Which frames of a session do not reach the state worker: of an exchange just the frame it
  waited for, an acceptance, and any result code that answers a name query; of a push receive just
  an acceptance. Every frame of the first kind went to the caller of the exchange. */
  lemma {:induction false} NothingElseIsDropped(inbox: seq<Incoming>, calls: seq<Call>, t: Taken)
    requires t in Ledger(inbox, calls)
    ensures match t.taker
      case ForExchange(expected, _, _) =>
        && t.f != [] && (t.returned <==> t.f[0] == expected || t.f[0] == 0xEF)
        && (!IsOwed(t) <==> if t.f[0] == 0xEF then Accepts(t.f) || expected == 0xEE else t.f[0] == expected)
      case ForPush(_, _) => !t.returned && (!IsOwed(t) <==> Accepts(t.f))
    decreases |calls|
  {
    hide Serve, Frames, TakenBy;
    var c := Serve(inbox, calls[0]);
    var frames := Frames(inbox[..c.consumed]);
    if t in TakenIn(inbox, calls[0]) {
      match calls[0]
      case ForExchange(expected, isPing, patience) =>
        ExchangeEnds(inbox, calls[0]);
        NoEmptyFrames(inbox[..c.consumed]);
        ReturnedIsTarget(frames, calls[0], c.end, t);
      case ForPush(_, _) =>
        PushNeverReplies(inbox, calls[0]);
        TakenByPush(frames, calls[0], t);
    } else {
      NothingElseIsDropped(inbox[c.consumed..], calls[1..], t);
    }
  }

  lemma {:induction false} NoEmptyFrames(inbox: seq<Incoming>)
    ensures [] !in Frames(inbox)
  {
    if inbox != [] {
      NoEmptyFrames(inbox[1..]);
    }
  }

  lemma ExchangeEnds(inbox: seq<Incoming>, call: Call)
    requires call.ForExchange?
    ensures var c := Serve(inbox, call); FirstTarget(Frames(inbox[..c.consumed]), call.expected, c.end)
  {
    ExchangeRepliesFirstTarget(inbox, call.patience, call.expected, call.isPing);
  }

  lemma PushNeverReplies(inbox: seq<Incoming>, call: Call)
    requires call.ForPush?
    ensures !Serve(inbox, call).end.Reply?
  {
  }

  lemma {:induction false} ExchangeHeard(inbox: seq<Incoming>, patience: nat, expected: byte, isPing: bool)
    ensures var c := Collect(inbox, patience, expected, isPing);
      c.heard <==> Frames(inbox[..c.consumed]) != []
    decreases |inbox|
  {
    hide Frames, IsTarget, ExchangeForwards, IsAccepted;
    NoFrames();
    var c := Collect(inbox, patience, expected, isPing);
    if c.consumed > 0 {
      var tail := inbox[1..];
      assert inbox[..c.consumed] == [inbox[0]] + tail[..c.consumed - 1];
      FirstFrame(inbox[0], tail[..c.consumed - 1]);
      if inbox[0].Arrival? {
        ExchangeHeard(tail, patience - 1, expected, isPing);
      }
    }
  }

  lemma {:induction false} TakenByExchange(frames: seq<frame>, call: Call, replies: bool)
    requires call.ForExchange?
    ensures AllCut(TakenBy(frames, call, replies)) <==> frames == []
  {
    if frames != [] {
      assert !IsCut(TakenBy(frames, call, replies)[0]);
    }
  }

  /** A call has heard something exactly when it took a non-empty frame and was not cut. */
  lemma HeardExactly(inbox: seq<Incoming>, call: Call)
    ensures Serve(inbox, call).heard <==> !AllCut(TakenIn(inbox, call))
  {
    hide Collect, TakenBy, Frames, AllCut;
    var c := Serve(inbox, call);
    match call
    case ForExchange(expected, isPing, patience) =>
      ExchangeHeard(inbox, patience, expected, isPing);
      TakenByExchange(Frames(inbox[..c.consumed]), call, c.end.Reply?);
    case ForPush(_, _) => PushHeard(inbox, call);
  }

  lemma PushHeard(inbox: seq<Incoming>, call: Call)
    requires call.ForPush?
    ensures Serve(inbox, call).heard <==> !AllCut(TakenIn(inbox, call))
  {
    hide TakenBy;
    NoFrames();
    NoneTaken(call);
    if Serve(inbox, call).consumed == 1 {
      assert inbox[..1] == [inbox[0]] + [];
      FirstFrame(inbox[0], []);
      if inbox[0].Arrival? && inbox[0].f != [] {
        OneTaken(inbox[0].f, call);
        AllCutOne(Taken(inbox[0].f, call, false));
      }
    }
  }

  lemma AllCutOne(t: Taken)
    ensures AllCut([t]) <==> IsCut(t)
  {
    assert [t][0] == t;
  }

  lemma NoneTaken(call: Call)
    ensures TakenBy([], call, false) == []
  {
  }

  /** An arrival after which an exchange goes on waiting. */
  predicate IsPassedOver(now: Incoming, expected: byte)
  {
    now.Arrival? && (now.f == [] || (now.f[0] != expected && now.f[0] != 0xEF))
  }

  /** The exchange reaches just behind the first arrival that ends it, or passes over all in time. */
  predicate EndsBy(inTime: seq<Incoming>, expected: byte, consumed: nat, end: End)
  {
    if end.DeadlinePassed? then
      consumed == |inTime| && forall i :: 0 <= i < |inTime| ==> IsPassedOver(inTime[i], expected)
    else
      && 0 < consumed <= |inTime|
      && (forall i :: 0 <= i < consumed - 1 ==> IsPassedOver(inTime[i], expected))
      && !IsPassedOver(inTime[consumed - 1], expected)
      && end == match inTime[consumed - 1]
           case IoError => StreamFailed
           case Closed => StreamClosed
           case Arrival(f) => Reply(f)
  }

  function InTime(inbox: seq<Incoming>, patience: nat): seq<Incoming>
  {
    if patience < |inbox| then inbox[..patience] else inbox
  }

  /** Main result: an exchange passes over arrivals until one ends it or the deadline comes: it is
  ended, just behind it, by the first arrival within its time that is a stream error, the end of the
  stream, or a frame with the awaited command or a result code, which it returns; and it times out
  exactly if there is none. */
  lemma {:induction false} ExchangeEndsExactly(inbox: seq<Incoming>, patience: nat, expected: byte, isPing: bool)
    ensures var c := Collect(inbox, patience, expected, isPing);
      EndsBy(InTime(inbox, patience), expected, c.consumed, c.end)
    decreases |inbox|
  {
    hide EndsBy, Noted, IsPassedOver;
    FirstEnds(inbox, patience, expected, isPing);
    if patience > 0 && inbox != [] && IsPassedOver(inbox[0], expected) {
      var tail := inbox[1..];
      ExchangeEndsExactly(tail, patience - 1, expected, isPing);
      assert InTime(inbox, patience) == [inbox[0]] + InTime(tail, patience - 1);
      var rest := Collect(tail, patience - 1, expected, isPing);
      PassesOver(inbox[0], InTime(tail, patience - 1), expected, rest.consumed, rest.end);
    }
  }

  lemma PassesOver(first: Incoming, rest: seq<Incoming>, expected: byte, consumed: nat, end: End)
    requires IsPassedOver(first, expected) && EndsBy(rest, expected, consumed, end)
    ensures EndsBy([first] + rest, expected, consumed + 1, end)
  {
    hide IsPassedOver;
  }

  /** What the first arrival does to an exchange. */
  lemma FirstEnds(inbox: seq<Incoming>, patience: nat, expected: byte, isPing: bool)
    ensures var c := Collect(inbox, patience, expected, isPing);
      if patience > 0 && inbox != [] && IsPassedOver(inbox[0], expected) then
        var rest := Collect(inbox[1..], patience - 1, expected, isPing);
        c.consumed == rest.consumed + 1 && c.end == rest.end
      else EndsBy(InTime(inbox, patience), expected, c.consumed, c.end)
  {
    hide ExchangeForwards, IsAccepted;
  }

  /** A push receive takes exactly the next arrival, if there is one in time. */
  lemma PushTakesExactly(inbox: seq<Incoming>, ready: bool, cut: bool)
    ensures var c := TakePush(inbox, ready, cut);
      if !ready || inbox == [] then c.end == NothingYet && c.consumed == 0 && c.forwarded == []
      else
        && c.consumed == 1
        && match inbox[0]
           case IoError => c.end == StreamFailed && c.forwarded == []
           case Closed => c.end == StreamClosed && c.forwarded == []
           case Arrival(f) =>
             && c.end == (if f == [] then Panicked else NothingYet)
             && c.forwarded == if f == [] || cut || (|f| > 1 && f[0] == 0xEF && f[1] == 0xFF) then [] else [f]
  {
  }

  /** A push receive indexes out of bounds exactly when it takes an empty frame. */
  lemma PushPanicsExactly(inbox: seq<Incoming>, ready: bool, cut: bool)
    ensures TakePush(inbox, ready, cut).end.Panicked? <==> ready && inbox != [] && inbox[0] == Arrival([])
  {
  }
}
