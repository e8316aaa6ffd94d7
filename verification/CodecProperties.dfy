/** What the framing codec promises over whole byte streams. */
module CodecProperties {
  import opened Bytes
  import opened Codec

  // ---------- Draining a buffer ----------

  /** Everything repeated `decode` calls take from a buffer until one of them returns nothing. */
  datatype Drained = Drained(frames: seq<seq<byte>>, errors: nat, left: seq<byte>)

  /** Add what one delimited region yields in front of what the rest yields. */
  function Prepend(raw: seq<byte>, d: Drained): Drained
  {
    match Judge(raw)
    case Intact(payload) => d.(frames := [payload] + d.frames)
    case Corrupt => d.(errors := 1 + d.errors)
    case Runt => d
  }

  function Drain(s: seq<byte>): Drained
    decreases |s|
  {
    match ScanBuffer(s)
    case NeedMore(left) => Drained([], 0, left)
    case Region(raw, rest) => Prepend(raw, Drain(rest))
  }

  function Join(first: Drained, second: Drained): Drained
  {
    Drained(first.frames + second.frames, first.errors + second.errors, second.left)
  }

  /** `Drain` is what a caller sees who calls `decode` until it returns nothing. */
  lemma {:induction false} DrainIsRepeatedDecode(s: seq<byte>)
    ensures var o := DecodeOnce(s);
      Drain(s) == if o.frame.None? then Drained([], o.errors, o.left)
                  else Join(Drained([o.frame.value], o.errors, []), Drain(o.left))
    decreases |s|
  {
    match ScanBuffer(s)
    case NeedMore(left) =>
    case Region(raw, rest) => DrainIsRepeatedDecode(rest);
  }

  // ---------- Chunking independence ----------

  /** Leftovers agree up to a lone byte that cannot start a header. */
  function Settled(left: seq<byte>): seq<byte>
  {
    if |left| == 1 && left[0] != SYNC then [] else left
  }

  predicate Same(a: Drained, b: Drained)
  {
    a.frames == b.frames && a.errors == b.errors && Settled(a.left) == Settled(b.left)
  }

  /** Bytes before the first possible header do not influence what is decoded. */
  lemma DrainSkip(s: seq<byte>, k: nat)
    requires k <= |s| && NoPairBefore(s, k, SYNC, SYNC)
    requires k == |s| > 0 ==> s[k - 1] != SYNC
    ensures Same(Drain(s), Drain(s[k..]))
  {
    ScanAfterSkip(s, k);
  }

  lemma ScanAfterSkip(s: seq<byte>, k: nat)
    requires k <= |s| && NoPairBefore(s, k, SYNC, SYNC)
    requires k == |s| > 0 ==> s[k - 1] != SYNC
    ensures ScanBuffer(s).Region? ==> ScanBuffer(s[k..]) == ScanBuffer(s)
    ensures ScanBuffer(s).NeedMore? ==> ScanBuffer(s[k..]).NeedMore?
    ensures ScanBuffer(s).NeedMore? ==> Settled(ScanBuffer(s[k..]).left) == Settled(ScanBuffer(s).left)
  {
    if |s| < 2 {
      assert k == 0 ==> s[k..] == s;
    } else {
      match FindPair(s, SYNC, SYNC)
      case None =>
        NoHeaderAfterSkip(s, k);
      case Some(start) =>
        HeaderAfterSkip(s, k, start);
        assert s[k..][start - k..] == s[start..];
    }
  }

  lemma NoHeaderAfterSkip(s: seq<byte>, k: nat)
    requires k <= |s| && 2 <= |s|
    requires FindPair(s, SYNC, SYNC).None?
    requires k == |s| ==> s[k - 1] != SYNC
    ensures ScanBuffer(s).NeedMore? && ScanBuffer(s[k..]).NeedMore?
    ensures Settled(ScanBuffer(s[k..]).left) == Settled(ScanBuffer(s).left)
  {
    var t := s[k..];
    if |t| >= 2 {
      match FindPair(t, SYNC, SYNC)
      case None =>
      case Some(p) => assert PairAt(s, k + p, SYNC, SYNC); assert false;
    }
  }

  lemma HeaderAfterSkip(s: seq<byte>, k: nat, start: nat)
    requires k <= |s| && NoPairBefore(s, k, SYNC, SYNC)
    requires FindPair(s, SYNC, SYNC) == Some(start)
    ensures k <= start && FindPair(s[k..], SYNC, SYNC) == Some(start - k)
  {
    var t := s[k..];
    assert PairAt(t, start - k, SYNC, SYNC);
    match FindPair(t, SYNC, SYNC)
    case None =>
    case Some(p) =>
      assert PairAt(s, k + p, SYNC, SYNC);
  }

  /** A pair found in a string is found at the same place when more bytes follow. */
  lemma FindPairInPrefix(a: seq<byte>, b: seq<byte>, x: byte, y: byte)
    requires FindPair(a, x, y).Some?
    ensures FindPair(a + b, x, y) == FindPair(a, x, y)
  {
    var p := FindPair(a, x, y).value;
    var s := a + b;
    assert PairAt(s, p, x, y);
    var q := FindPair(s, x, y).value;
    assert PairAt(a, q, x, y) || p <= q;
  }

  lemma ScanInPrefix(a: seq<byte>, b: seq<byte>)
    requires ScanBuffer(a).Region?
    ensures ScanBuffer(a + b) == Region(ScanBuffer(a).raw, ScanBuffer(a).rest + b)
  {
    FindPairInPrefix(a, b, SYNC, SYNC);
    var start := FindPair(a, SYNC, SYNC).value;
    var t := a[start..];
    assert (a + b)[start..] == t + b;
    FindPairInPrefix(t, b, SYNC, END);
    var end := FindPair(t, SYNC, END).value;
    assert (t + b)[..end + 2] == t[..end + 2];
    assert (t + b)[end + 2..] == t[end + 2..] + b;
  }

  lemma PrependJoin(raw: seq<byte>, d: Drained, e: Drained)
    ensures Prepend(raw, Join(d, e)) == Join(Prepend(raw, d), e)
  {
    match Judge(raw)
    case Intact(payload) => assert [payload] + (d.frames + e.frames) == [payload] + d.frames + e.frames;
    case _ =>
  }

  lemma PrependSame(raw: seq<byte>, d: Drained, e: Drained)
    requires Same(d, e)
    ensures Same(Prepend(raw, d), Prepend(raw, e))
  {
  }

  lemma PrependKeepsLeft(raw: seq<byte>, d: Drained)
    ensures Prepend(raw, d).left == d.left
  {
  }

  lemma DrainRegion(s: seq<byte>, raw: seq<byte>, rest: seq<byte>)
    requires ScanBuffer(s) == Region(raw, rest)
    ensures Drain(s) == Prepend(raw, Drain(rest))
  {
  }

  /** Draining a string in two portions, carrying the leftover over, is draining it whole. */
  lemma {:induction false} DrainAppend(a: seq<byte>, b: seq<byte>)
    ensures Same(Drain(a + b), Join(Drain(a), Drain(Drain(a).left + b)))
    decreases |a|
  {
    match ScanBuffer(a)
    case Region(raw, rest) =>
      hide Drain, Prepend, Join, Same, ScanBuffer;
      ScanInPrefix(a, b);
      DrainRegion(a, raw, rest);
      DrainRegion(a + b, raw, rest + b);
      DrainAppend(rest, b);
      var whole, parts := Drain(rest + b), Join(Drain(rest), Drain(Drain(rest).left + b));
      PrependSame(raw, whole, parts);
      PrependKeepsLeft(raw, Drain(rest));
      PrependJoin(raw, Drain(rest), Drain(Drain(rest).left + b));
    case NeedMore(left) =>
      hide Judge;
      LeftoverIsEnough(a, left, b);
  }

  lemma LeftoverIsEnough(a: seq<byte>, left: seq<byte>, b: seq<byte>)
    requires ScanBuffer(a) == NeedMore(left)
    ensures Same(Drain(a + b), Drain(left + b))
  {
    hide Drain, Same, ScanBuffer, NoPairBefore, PairAt;
    LeftoverIsBack(a, left);
    var k := |a| - |left|;
    NoPairInFront(a, b, k);
    DrainSkip(a + b, k);
    assert (a + b)[k..] == a[k..] + b;
  }

  /** What a scan without a region leaves is the back of the buffer; nothing before it can be part of
  a header. */
  lemma LeftoverIsBack(a: seq<byte>, left: seq<byte>)
    requires ScanBuffer(a) == NeedMore(left)
    ensures |left| <= |a| && left == a[|a| - |left|..]
    ensures NoPairBefore(a, |a| - |left|, SYNC, SYNC)
    ensures left == [] && a != [] ==> a[|a| - 1] != SYNC
  {
  }

  lemma NoPairInFront(a: seq<byte>, b: seq<byte>, k: nat)
    requires k <= |a| && NoPairBefore(a, k, SYNC, SYNC)
    requires k == |a| > 0 ==> a[k - 1] != SYNC
    ensures NoPairBefore(a + b, k, SYNC, SYNC)
  {
    forall j: nat | j < k ensures !PairAt(a + b, j, SYNC, SYNC) {
      assert !PairAt(a, j, SYNC, SYNC);
    }
  }

  /** Feed chunks one by one, draining after each. */
  function FeedAll(left: seq<byte>, chunks: seq<seq<byte>>): Drained
    decreases |chunks|
  {
    if chunks == [] then Drained([], 0, left)
    else
      var d := Drain(left + chunks[0]);
      Join(d, FeedAll(d.left, chunks[1..]))
  }

  function Flatten(chunks: seq<seq<byte>>): seq<byte>
  {
    if chunks == [] then [] else chunks[0] + Flatten(chunks[1..])
  }

  lemma {:induction false} LeftoverIsQuiet(s: seq<byte>)
    ensures Drain(Drain(s).left) == Drained([], 0, Drain(s).left)
    decreases |s|
  {
    match ScanBuffer(s)
    case Region(raw, rest) => LeftoverIsQuiet(rest);
    case NeedMore(left) =>
      if |s| >= 2 && FindPair(s, SYNC, SYNC).Some? {
        HeaderAfterSkip(s, FindPair(s, SYNC, SYNC).value, FindPair(s, SYNC, SYNC).value);
        assert left[0..] == left;
      }
  }

  lemma {:induction false} FeedIsDrain(left: seq<byte>, chunks: seq<seq<byte>>)
    requires Drain(left) == Drained([], 0, left)
    ensures Same(FeedAll(left, chunks), Drain(left + Flatten(chunks)))
    decreases |chunks|
  {
    if chunks == [] {
      assert left + [] == left;
    } else {
      var a, b := left + chunks[0], Flatten(chunks[1..]);
      assert left + Flatten(chunks) == a + b;
      LeftoverIsQuiet(a);
      FeedIsDrain(Drain(a).left, chunks[1..]);
      DrainAppend(a, b);
    }
  }

  /** Main result: how a byte string is cut into chunks changes neither the frames decoded nor
  the checksum errors counted, and the leftover only by a lone byte that starts no header. */
  lemma ChunkingIndependence(chunks: seq<seq<byte>>, others: seq<seq<byte>>)
    requires Flatten(chunks) == Flatten(others)
    ensures Same(FeedAll([], chunks), FeedAll([], others))
    ensures Same(FeedAll([], chunks), Drain(Flatten(chunks)))
  {
    FeedIsDrain([], chunks);
    FeedIsDrain([], others);
    assert [] + Flatten(chunks) == Flatten(chunks);
  }

  /** The allowance for a lone byte is needed: the same two bytes cut differently. */
  lemma LoneByteRemains()
    ensures FeedAll([], [[0, 0], [0]]).left != FeedAll([], [[0, 0, 0]]).left
  {
    assert [] + [0, 0] == [0, 0] && [] + [0] == [0] && [] + [0, 0, 0] == [0, 0, 0];
    assert Drain([0, 0]) == Drained([], 0, []);
    assert Drain([0]) == Drained([], 0, [0]);
    assert Drain([0, 0, 0]) == Drained([], 0, []);
    assert [[0, 0], [0]][1..] == [[0]];
    assert [[0]][1..] == [];
    assert [[0, 0, 0]][1..] == [];
  }
}
