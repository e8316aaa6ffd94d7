/** Round trips through the framing codec, alone and inside noisy streams. */
module CodecStreams {
  import opened Bytes
  import opened Codec
  import opened CodecProperties

  /** Bytes in which no header starts, also not across their end. */
  predicate Harmless(g: seq<byte>)
  {
    NoPairBefore(g, |g|, SYNC, SYNC) && (g != [] ==> g[|g| - 1] != SYNC)
  }

  /** A region that opens with a header and whose first `FE 0D` ends it. */
  predicate Delimited(raw: seq<byte>)
  {
    |raw| >= 3 && PairAt(raw, 0, SYNC, SYNC) && FindPair(raw, SYNC, END) == Some(|raw| - 2)
  }

  /** The payloads `encode` can transmit: an initial `0D` would complete `FE 0D` with the header. */
  predicate Transmittable(payload: seq<byte>)
  {
    payload == [] || payload[0] != END
  }

  // ---------- A delimited region is cut out of any surroundings ----------

  lemma HeaderAtStart(raw: seq<byte>)
    requires PairAt(raw, 0, SYNC, SYNC)
    ensures FindPair(raw, SYNC, SYNC) == Some(0)
  {
    match FindPair(raw, SYNC, SYNC)
    case None =>
    case Some(p) =>
  }

  lemma ScanDelimitedFirst(raw: seq<byte>, r: seq<byte>)
    requires Delimited(raw)
    ensures ScanBuffer(raw + r) == Region(raw, r)
  {
    HeaderAtStart(raw);
    assert raw[0..] == raw && raw[..|raw| - 2 + 2] == raw && raw[|raw| - 2 + 2..] == [];
    assert ScanBuffer(raw) == Region(raw, []);
    ScanInPrefix(raw, r);
    assert [] + r == r;
  }

  /** No header starts in harmless bytes, whatever follows them. */
  lemma HarmlessPrefix(g: seq<byte>, r: seq<byte>)
    requires Harmless(g)
    ensures NoPairBefore(g + r, |g|, SYNC, SYNC) && (g + r)[|g|..] == r
    ensures r == [] && g != [] ==> (g + r)[|g| - 1] != SYNC
  {
    forall k: nat | k < |g| ensures !PairAt(g + r, k, SYNC, SYNC) {
      assert k + 1 < |g| ==> !PairAt(g, k, SYNC, SYNC);
    }
  }

  lemma ScanDelimited(g: seq<byte>, raw: seq<byte>, r: seq<byte>)
    requires Harmless(g) && Delimited(raw)
    ensures ScanBuffer(g + (raw + r)) == Region(raw, r)
  {
    ScanDelimitedFirst(raw, r);
    HarmlessPrefix(g, raw + r);
    ScanAfterSkip(g + (raw + r), |g|);
  }

  /** What one `decode` call, and what draining, make of a delimited region. */
  lemma TakeDelimited(g: seq<byte>, raw: seq<byte>, r: seq<byte>)
    requires Harmless(g) && Delimited(raw)
    ensures Judge(raw).Intact? ==> DecodeOnce(g + raw + r) == Outcome(Some(Judge(raw).payload), 0, r)
    ensures Drain(g + raw + r) == Prepend(raw, Drain(r))
  {
    assert g + raw + r == g + (raw + r);
    ScanDelimited(g, raw, r);
  }

  // ---------- Encoded payloads ----------

  predicate Stuffed(s: seq<byte>)
  {
    forall k: nat :: k < |s| && s[k] == SYNC ==> k + 1 < |s| && s[k + 1] == STUFF
  }

  lemma {:induction false} EscapeIsStuffed(s: seq<byte>)
    ensures Stuffed(Escape(s))
    ensures s != [] ==> Escape(s) != [] && (Escape(s)[0] == END <==> s[0] == END)
  {
    if s != [] {
      EscapeIsStuffed(s[1..]);
      var head := if s[0] == SYNC then [SYNC, STUFF] else [s[0]];
      assert Escape(s) == head + Escape(s[1..]);
    }
  }

  lemma {:induction false} UnescapeUndoesEscape(s: seq<byte>)
    ensures Unescape(Escape(s)) == s
  {
    if s != [] {
      UnescapeUndoesEscape(s[1..]);
      var tail := Escape(s[1..]);
      if s[0] == SYNC {
        assert ([SYNC, STUFF] + tail)[2..] == tail;
      } else {
        assert ([s[0]] + tail)[1..] == tail;
      }
    }
  }

  lemma EncodeIsDelimited(p: seq<byte>)
    requires Transmittable(p)
    ensures Delimited(Encode(p))
  {
    var x := p + CrcBytes(p);
    var e, raw := Escape(x), Encode(p);
    EscapeIsStuffed(x);
    assert x[0] != END by {
      if p == [] {
        assert CrcFrom(CRC_SEED, []) == CRC_SEED;
      }
    }
    assert raw == [SYNC, SYNC] + e + [SYNC, END];
    forall k: nat | k < |raw| - 2 ensures !PairAt(raw, k, SYNC, END) {
      assert 2 <= k ==> raw[k] == e[k - 2];
      assert 1 <= k < |raw| - 3 ==> raw[k + 1] == e[k - 1];
    }
    assert PairAt(raw, |raw| - 2, SYNC, END);
  }

  lemma JudgeEncoded(p: seq<byte>)
    ensures Judge(Encode(p)) == Intact(p)
  {
    var x := p + CrcBytes(p);
    UnescapeUndoesEscape(x);
    assert Body(Encode(p)) == Escape(x);
    assert x[..|p|] == p;
  }

  /** Main result: behind any harmless bytes and before any others, an encoded payload is decoded
  to itself and exactly itself is consumed. */
  lemma RoundTripWithResync(g: seq<byte>, p: seq<byte>, r: seq<byte>)
    requires Harmless(g) && Transmittable(p)
    ensures DecodeOnce(g + Encode(p) + r) == Outcome(Some(p), 0, r)
  {
    EncodeIsDelimited(p);
    JudgeEncoded(p);
    TakeDelimited(g, Encode(p), r);
  }

  /** An encoded empty payload is returned as an empty frame. */
  lemma EmptyFrameIsReturned(g: seq<byte>, r: seq<byte>)
    requires Harmless(g)
    ensures DecodeOnce(g + Encode([]) + r) == Outcome(Some([]), 0, r)
  {
    RoundTripWithResync(g, [], r);
  }

  // ---------- Exactly which payloads survive ----------

  lemma {:induction false} DecodeConsumes(s: seq<byte>)
    ensures |DecodeOnce(s).left| <= |s|
    ensures DecodeOnce(s).frame.Some? ==> |DecodeOnce(s).left| < |s|
    decreases |s|
  {
    match ScanBuffer(s)
    case NeedMore(left) =>
    case Region(raw, rest) => DecodeConsumes(rest);
  }

  /** An encoded payload that begins with `0D` splits into a runt and bytes without a header. */
  lemma SplitAtEarlyEnd(p: seq<byte>) returns (tail: seq<byte>)
    requires !Transmittable(p)
    ensures Encode(p) == [SYNC, SYNC, END] + tail && Harmless(tail)
  {
    var y := p[1..] + CrcBytes(p);
    assert p + CrcBytes(p) == [END] + y;
    assert ([END] + y)[1..] == y;
    tail := Escape(y) + [SYNC, END];
    EscapeIsStuffed(y);
    forall k: nat | k < |tail| ensures !PairAt(tail, k, SYNC, SYNC) {
      assert k < |Escape(y)| ==> tail[k] == Escape(y)[k];
      assert k + 1 < |Escape(y)| ==> tail[k + 1] == Escape(y)[k + 1];
    }
  }

  /** No frame that `decode` returns, from whatever bytes, starts with `0D`. */
  lemma {:induction false} ReturnedIsTransmittable(s: seq<byte>)
    requires DecodeOnce(s).frame.Some?
    ensures Transmittable(DecodeOnce(s).frame.value)
    decreases |s|
  {
    var raw, rest := ScanBuffer(s).raw, ScanBuffer(s).rest;
    if Judge(raw).Intact? {
      var _ := RegionInPlace(s);
      var body := Body(raw);
      if body != [] {
        assert raw[2] == body[0] && !PairAt(raw, 1, SYNC, END);
      }
    } else {
      ReturnedIsTransmittable(rest);
    }
  }

  /** A payload that starts with `0D` is not returned, nor is anything else in its place: a frame
  returned from such a buffer comes out of the bytes behind it. */
  lemma EarlyEndIsNotReturned(g: seq<byte>, p: seq<byte>, r: seq<byte>)
    requires Harmless(g) && !Transmittable(p)
    ensures var o := DecodeOnce(g + Encode(p) + r);
      o.frame.Some? ==> o.frame.value != p && |o.left| < |r|
  {
    var tail := SplitAtEarlyEnd(p);
    var runt := [SYNC, SYNC, END];
    assert Delimited(runt) by {
      assert !PairAt(runt, 0, SYNC, END) && PairAt(runt, 1, SYNC, END);
    }
    assert g + Encode(p) + r == g + (runt + (tail + r));
    ScanDelimited(g, runt, tail + r);
    assert Judge(runt) == Runt;
    HarmlessThenRest(tail, r);
    if DecodeOnce(g + Encode(p) + r).frame.Some? {
      ReturnedIsTransmittable(g + Encode(p) + r);
    }
  }

  lemma HarmlessThenRest(g: seq<byte>, r: seq<byte>)
    requires Harmless(g)
    ensures DecodeOnce(g + r).frame.Some? ==> |DecodeOnce(g + r).left| < |r|
  {
    HarmlessPrefix(g, r);
    ScanAfterSkip(g + r, |g|);
    match ScanBuffer(g + r)
    case NeedMore(left) =>
    case Region(raw, rest) => DecodeConsumes(rest);
  }

  /** The restriction on payloads is exact. */
  lemma RoundTripExactly(g: seq<byte>, p: seq<byte>, r: seq<byte>)
    requires Harmless(g)
    ensures DecodeOnce(g + Encode(p) + r) == Outcome(Some(p), 0, r) <==> Transmittable(p)
  {
    if Transmittable(p) {
      RoundTripWithResync(g, p, r);
    } else {
      EarlyEndIsNotReturned(g, p, r);
    }
  }

  /** Converse: whatever the input, a returned frame stood on the wire between delimiters,
  followed by its own checksum, directly before the bytes left over. */
  lemma {:induction false} ReturnedFrameWasOnTheWire(s: seq<byte>)
    returns (before: seq<byte>, raw: seq<byte>)
    requires DecodeOnce(s).frame.Some?
    ensures s == before + raw + DecodeOnce(s).left
    ensures PairAt(raw, 0, SYNC, SYNC) && FindPair(raw, SYNC, END) == Some(|raw| - 2)
    ensures Unescape(Body(raw)) == DecodeOnce(s).frame.value + CrcBytes(DecodeOnce(s).frame.value)
    decreases |s|
  {
    var region, rest := ScanBuffer(s).raw, ScanBuffer(s).rest;
    var skipped := RegionInPlace(s);
    if Judge(region).Intact? {
      before, raw := skipped, region;
      ChecksumLast(region);
    } else {
      before, raw := ReturnedFrameWasOnTheWire(rest);
      Regroup(skipped + region, before, raw, DecodeOnce(s).left);
      before := skipped + region + before;
    }
  }

  lemma ChecksumLast(raw: seq<byte>)
    requires Judge(raw).Intact?
    ensures Unescape(Body(raw)) == Judge(raw).payload + CrcBytes(Judge(raw).payload)
  {
    hide CrcFrom, Unescape, Body;
    var data := Unescape(Body(raw));
    assert data == data[..|data| - 2] + [data[|data| - 2], data[|data| - 1]];
  }

  lemma Regroup(a: seq<byte>, b: seq<byte>, c: seq<byte>, d: seq<byte>)
    ensures a + (b + c + d) == a + b + c + d
  {
  }

  lemma RegionInPlace(s: seq<byte>) returns (skipped: seq<byte>)
    requires ScanBuffer(s).Region?
    ensures s == skipped + ScanBuffer(s).raw + ScanBuffer(s).rest
    ensures Delimited(ScanBuffer(s).raw)
  {
    var start := FindPair(s, SYNC, SYNC).value;
    var t := s[start..];
    skipped := s[..start];
    var end := FindPair(t, SYNC, END).value;
    var raw := t[..end + 2];
    assert t == raw + t[end + 2..];
    assert PairAt(raw, end, SYNC, END);
    forall k: nat | k < end ensures !PairAt(raw, k, SYNC, END) {
      assert !PairAt(t, k, SYNC, END);
    }
  }

  // ---------- Streams of good, damaged and short segments ----------

  /** Harmless noise followed by an encoded payload or by some other delimited region. */
  datatype Segment =
    | Sent(gap: seq<byte>, payload: seq<byte>)
    | Other(gap: seq<byte>, raw: seq<byte>)
  {
    predicate WellFormed()
    {
      Harmless(gap) && if Sent? then Transmittable(payload) else Delimited(raw) && !Judge(raw).Intact?
    }

    /** At least two bytes between the delimiters, and a wrong checksum. */
    predicate Damaged() { Other? && Judge(raw) == Corrupt }

    function Region(): seq<byte> { if Sent? then Encode(payload) else raw }

    function OnWire(): seq<byte> { gap + Region() }
  }

  function Wire(segments: seq<Segment>): seq<byte>
  {
    if segments == [] then [] else segments[0].OnWire() + Wire(segments[1..])
  }

  function Payloads(segments: seq<Segment>): seq<seq<byte>>
  {
    if segments == [] then []
    else (if segments[0].Sent? then [segments[0].payload] else []) + Payloads(segments[1..])
  }

  function DamagedCount(segments: seq<Segment>): nat
  {
    if segments == [] then 0
    else (if segments[0].Damaged() then 1 else 0) + DamagedCount(segments[1..])
  }

  /** What one segment, and what a stream of segments, adds to the frames and to the errors. */
  function Yield(segment: Segment): Drained
  {
    if segment.Sent? then Drained([segment.payload], 0, [])
    else Drained([], if segment.Damaged() then 1 else 0, [])
  }

  function YieldAll(segments: seq<Segment>): Drained
  {
    if segments == [] then Drained([], 0, []) else Join(Yield(segments[0]), YieldAll(segments[1..]))
  }

  lemma {:induction false} YieldIsExpected(segments: seq<Segment>)
    ensures YieldAll(segments) == Drained(Payloads(segments), DamagedCount(segments), [])
  {
    if segments != [] {
      YieldIsExpected(segments[1..]);
    }
  }

  lemma SegmentRegion(segment: Segment, d: Drained)
    requires segment.WellFormed()
    ensures Delimited(segment.Region())
    ensures Prepend(segment.Region(), d) == Join(Yield(segment), d)
  {
    if segment.Sent? {
      EncodeIsDelimited(segment.payload);
      JudgeEncoded(segment.payload);
    } else {
      assert [] + d.frames == d.frames;
    }
  }

  lemma DrainSegment(segment: Segment, rest: seq<byte>)
    requires segment.WellFormed()
    ensures Drain(segment.OnWire() + rest) == Join(Yield(segment), Drain(rest))
  {
    SegmentRegion(segment, Drain(rest));
    TakeDelimited(segment.gap, segment.Region(), rest);
  }

  lemma {:induction false} DrainSegments(segments: seq<Segment>, tail: seq<byte>)
    requires forall i :: 0 <= i < |segments| ==> segments[i].WellFormed()
    ensures Drain(Wire(segments) + tail) == Join(YieldAll(segments), Drain(tail))
    decreases |segments|
  {
    hide Drain, Judge, Encode;
    if segments == [] {
      assert [] + tail == tail;
    } else {
      var first, others := segments[0], segments[1..];
      RegroupTail(first.OnWire(), Wire(others), tail);
      DrainSegment(first, Wire(others) + tail);
      DrainSegments(others, tail);
      JoinAssociative(Yield(first), YieldAll(others), Drain(tail));
    }
  }

  lemma RegroupTail(a: seq<byte>, b: seq<byte>, c: seq<byte>)
    ensures a + b + c == a + (b + c)
  {
  }

  /** Main result: from a mixed stream exactly the payloads sent are decoded, in order, and
  exactly the damaged regions are counted, whatever follows the stream. */
  lemma MixedStreamConservation(segments: seq<Segment>, tail: seq<byte>)
    requires forall i :: 0 <= i < |segments| ==> segments[i].WellFormed()
    ensures Drain(Wire(segments) + tail)
         == Join(Drained(Payloads(segments), DamagedCount(segments), []), Drain(tail))
  {
    DrainSegments(segments, tail);
    YieldIsExpected(segments);
  }

  lemma JoinAssociative(a: Drained, b: Drained, c: Drained)
    ensures Join(Join(a, b), c) == Join(a, Join(b, c))
  {
    assert a.frames + b.frames + c.frames == a.frames + (b.frames + c.frames);
  }

  lemma HarmlessYieldsNothing(g: seq<byte>)
    requires Harmless(g)
    ensures Drain(g).frames == [] && Drain(g).errors == 0 && Settled(Drain(g).left) == []
  {
    DrainSkip(g, |g|);
    assert g[|g|..] == [];
  }

  /** The same for any way of cutting the stream into chunks. */
  lemma MixedStreamInChunks(segments: seq<Segment>, tail: seq<byte>, chunks: seq<seq<byte>>)
    requires forall i :: 0 <= i < |segments| ==> segments[i].WellFormed()
    requires Harmless(tail) && Flatten(chunks) == Wire(segments) + tail
    ensures FeedAll([], chunks).frames == Payloads(segments)
    ensures FeedAll([], chunks).errors == DamagedCount(segments)
    ensures Settled(FeedAll([], chunks).left) == []
  {
    ChunkingIndependence(chunks, chunks);
    MixedStreamConservation(segments, tail);
    HarmlessYieldsNothing(tail);
  }
}
