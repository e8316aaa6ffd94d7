/** The framing codec: `FE FE [payload and checksum, FE stuffed as FE F0] FE 0D`.

The first half says what one buffer scan, one decoded frame and one encoded frame are; the
class then works in place on a buffer and is proved against those definitions. */
module Codec {
  import opened Bytes

  const SYNC: byte := 0xFE
  const STUFF: byte := 0xF0
  const END: byte := 0x0D
  const CRC_SEED: word := 0x147A

  // ---------- Checksum ----------

  /** One checksum round: rotate left by one, invert, add the high byte, add the data byte. */
  function CrcStep(crc: word, b: byte): word
  {
    var rotated: word := if crc < 0x8000 then 2 * crc else 2 * crc - 0xFFFF;
    var inverted: word := 0xFFFF - rotated;
    AddWrapping(AddWrapping(inverted, High(inverted)), b)
  }

  function CrcFrom(crc: word, data: seq<byte>): word
    decreases |data|
  {
    if data == [] then crc else CrcFrom(CrcStep(crc, data[0]), data[1..])
  }

  function Crc(data: seq<byte>): word { CrcFrom(CRC_SEED, data) }

  function CrcBytes(data: seq<byte>): seq<byte> { [High(Crc(data)), Low(Crc(data))] }

  // ---------- Byte stuffing ----------

  function Escape(s: seq<byte>): seq<byte>
  {
    if s == [] then []
    else (if s[0] == SYNC then [SYNC, STUFF] else [s[0]]) + Escape(s[1..])
  }

  function Unescape(s: seq<byte>): seq<byte>
  {
    if s == [] then []
    else if |s| >= 2 && s[0] == SYNC && s[1] == STUFF then [SYNC] + Unescape(s[2..])
    else [s[0]] + Unescape(s[1..])
  }

  function Encode(payload: seq<byte>): seq<byte>
  {
    [SYNC, SYNC] + Escape(payload + CrcBytes(payload)) + [SYNC, END]
  }

  // ---------- Scanning a buffer ----------

  predicate PairAt(s: seq<byte>, k: nat, x: byte, y: byte)
  {
    k + 1 < |s| && s[k] == x && s[k + 1] == y
  }

  predicate NoPairBefore(s: seq<byte>, n: nat, x: byte, y: byte)
  {
    forall k: nat :: k < n ==> !PairAt(s, k, x, y)
  }

  /** `windows(2).position(|w| w == [x, y])`. */
  function FindPair(s: seq<byte>, x: byte, y: byte): (found: Option<nat>)
    ensures found.Some? ==> PairAt(s, found.value, x, y) && NoPairBefore(s, found.value, x, y)
    ensures found.None? ==> NoPairBefore(s, |s|, x, y)
  {
    FindPairFrom(s, 0, x, y)
  }

  function FindPairFrom(s: seq<byte>, from: nat, x: byte, y: byte): (found: Option<nat>)
    requires NoPairBefore(s, from, x, y)
    ensures found.Some? ==> PairAt(s, found.value, x, y) && NoPairBefore(s, found.value, x, y)
    ensures found.None? ==> NoPairBefore(s, |s|, x, y)
    decreases |s| - from
  {
    if from >= |s| then None
    else if PairAt(s, from, x, y) then Some(from)
    else FindPairFrom(s, from + 1, x, y)
  }

  /** What a scan finds: nothing complete yet, or one delimited region and what follows it. */
  datatype Scan = NeedMore(left: seq<byte>) | Region(raw: seq<byte>, rest: seq<byte>)

  function ScanBuffer(s: seq<byte>): (scan: Scan)
    ensures scan.Region? ==> 3 <= |scan.raw| && |scan.rest| < |s|
  {
    if |s| < 2 then NeedMore(s)
    else
      match FindPair(s, SYNC, SYNC)
      case None => NeedMore(if s[|s| - 1] == SYNC then [SYNC] else [])
      case Some(start) =>
        var t := s[start..];
        match FindPair(t, SYNC, END)
        case None => NeedMore(t)
        case Some(end) =>
          assert end != 0 by { assert t[1] == SYNC; }
          Region(t[..end + 2], t[end + 2..])
  }

  /** What a delimited region holds. */
  datatype Verdict = Runt | Corrupt | Intact(payload: seq<byte>)

  function Body(raw: seq<byte>): seq<byte>
  {
    if |raw| < 4 then [] else raw[2..|raw| - 2]
  }

  function Judge(raw: seq<byte>): Verdict
  {
    var data := Unescape(Body(raw));
    var n := |data|;
    if n < 2 then Runt
    else if BigEndian(data[n - 2], data[n - 1]) == Crc(data[..n - 2]) then Intact(data[..n - 2])
    else Corrupt
  }

  // ---------- One call of `decode` ----------

  datatype Outcome = Outcome(frame: Option<seq<byte>>, errors: nat, left: seq<byte>)

  /** The frame returned, the checksum errors counted and the bytes left in the buffer. */
  function DecodeOnce(s: seq<byte>): Outcome
    decreases |s|
  {
    match ScanBuffer(s)
    case NeedMore(left) => Outcome(None, 0, left)
    case Region(raw, rest) =>
      match Judge(raw)
      case Intact(payload) => Outcome(Some(payload), 0, rest)
      case Runt => DecodeOnce(rest)
      case Corrupt => var o := DecodeOnce(rest); o.(errors := o.errors + 1)
  }

  /** The codec object; `crcErrors` is the shared 64-bit counter. */
  class SatelCodec {
    var crcErrors: counter

    constructor ()
      ensures crcErrors == 0
    {
      crcErrors := 0;
    }

    static method CalculateCrc(data: seq<byte>) returns (crc: word)
      ensures crc == Crc(data)
    {
      crc := CRC_SEED;
      for i := 0 to |data|
        invariant CrcFrom(crc, data[i..]) == Crc(data)
      {
        assert data[i..][1..] == data[i + 1..];
        crc := CrcStep(crc, data[i]);
      }
    }

    method Decode(src: ByteBuffer) returns (frame: Option<seq<byte>>)
      modifies this, src
      ensures frame == DecodeOnce(old(src.data)).frame
      ensures src.data == DecodeOnce(old(src.data)).left
      ensures crcErrors == BumpBy(old(crcErrors), DecodeOnce(old(src.data)).errors)
      decreases |src.data|
    {
      var region := TakeRegion(src);
      if region.None? {
        return None;
      }
      var verdict := ReadRegion(region.value);
      match verdict
      case Intact(payload) =>
        frame := Some(payload);
      case Runt =>
        frame := Decode(src);
      case Corrupt =>
        crcErrors := Bump(crcErrors);
        frame := Decode(src);
    }

    /** First half of `decode`: drop what precedes a header, then cut out a delimited region. */
    static method TakeRegion(src: ByteBuffer) returns (frameRaw: Option<seq<byte>>)
      modifies src
      ensures frameRaw.None? ==> ScanBuffer(old(src.data)) == NeedMore(src.data)
      ensures frameRaw.Some? ==> ScanBuffer(old(src.data)) == Region(frameRaw.value, src.data)
    {
      if |src.data| < 2 {
        return None;
      }
      var header := FindPair(src.data, SYNC, SYNC);
      if header.Some? {
        if header.value > 0 {
          src.Advance(header.value);
        }
      } else {
        var toAdvance := if src.data[|src.data| - 1] == SYNC then |src.data| - 1 else |src.data|;
        src.Advance(toAdvance);
        return None;
      }
      var end := FindPair(src.data, SYNC, END);
      if end.None? {
        return None;
      }
      var raw := src.SplitTo(end.value + 2);
      return Some(raw);
    }

    /** Second half of `decode`: check the checksum of the bytes between the delimiters. */
    static method ReadRegion(frameRaw: seq<byte>) returns (verdict: Verdict)
      requires |frameRaw| >= 3 && frameRaw[|frameRaw| - 2] == SYNC
      ensures verdict == Judge(frameRaw)
    {
      var dataWithCrc := UnescapeBody(frameRaw);
      var n := |dataWithCrc|;
      if n < 2 {
        return Runt;
      }
      var receivedCrc := BigEndian(dataWithCrc[n - 2], dataWithCrc[n - 1]);
      var payload := dataWithCrc[..n - 2];
      var crc := CalculateCrc(payload);
      verdict := if receivedCrc == crc then Intact(payload) else Corrupt;
    }

    /** The index loop of `decode`: undo the stuffing between the delimiters. */
    static method UnescapeBody(frameRaw: seq<byte>) returns (data: seq<byte>)
      requires |frameRaw| >= 3 && frameRaw[|frameRaw| - 2] == SYNC
      ensures data == Unescape(Body(frameRaw))
    {
      data := [];
      var i, stop := 2, |frameRaw| - 2;
      while i < stop
        invariant data + UnescapeFrom(frameRaw, i, stop) == UnescapeFrom(frameRaw, 2, stop)
      {
        if frameRaw[i] == SYNC && frameRaw[i + 1] == STUFF {
          data := data + [SYNC];
          i := i + 2;
        } else {
          data := data + [frameRaw[i]];
          i := i + 1;
        }
      }
      UnescapeFromIsUnescape(frameRaw, 2, stop);
    }

    method EncodeTo(item: seq<byte>, dst: ByteBuffer)
      modifies dst
      ensures dst.data == old(dst.data) + Encode(item)
    {
      dst.Extend([SYNC, SYNC]);
      StuffTo(item, dst);
      var crc := CalculateCrc(item);
      StuffTo([High(crc), Low(crc)], dst);
      dst.Extend([SYNC, END]);
      EscapeConcat(item, CrcBytes(item));
    }

    static method StuffTo(data: seq<byte>, dst: ByteBuffer)
      modifies dst
      ensures dst.data == old(dst.data) + Escape(data)
    {
      for i := 0 to |data|
        invariant dst.data + Escape(data[i..]) == old(dst.data) + Escape(data)
      {
        assert data[i..][1..] == data[i + 1..];
        if data[i] == SYNC {
          dst.Extend([SYNC, STUFF]);
        } else {
          dst.Extend([data[i]]);
        }
      }
    }
  }

  /** `Unescape(raw[i..stop])` for a stretch whose next byte starts the closing delimiter. */
  function UnescapeFrom(raw: seq<byte>, i: nat, stop: int): seq<byte>
    requires stop < |raw|
    decreases stop - i
  {
    if i >= stop then []
    else if raw[i] == SYNC && raw[i + 1] == STUFF then [SYNC] + UnescapeFrom(raw, i + 2, stop)
    else [raw[i]] + UnescapeFrom(raw, i + 1, stop)
  }

  lemma {:induction false} UnescapeFromIsUnescape(raw: seq<byte>, i: nat, stop: int)
    requires stop < |raw| && (0 <= stop ==> raw[stop] == SYNC)
    ensures UnescapeFrom(raw, i, stop) == if i < stop then Unescape(raw[i..stop]) else []
    decreases stop - i
  {
    if i < stop {
      var s := raw[i..stop];
      if raw[i] == SYNC && raw[i + 1] == STUFF {
        assert s[2..] == raw[i + 2..stop];
        UnescapeFromIsUnescape(raw, i + 2, stop);
      } else {
        assert s[1..] == raw[i + 1..stop];
        UnescapeFromIsUnescape(raw, i + 1, stop);
      }
    }
  }

  lemma {:induction false} EscapeConcat(a: seq<byte>, b: seq<byte>)
    ensures Escape(a + b) == Escape(a) + Escape(b)
  {
    if a == [] {
      assert a + b == b;
    } else {
      assert (a + b)[1..] == a[1..] + b;
      EscapeConcat(a[1..], b);
    }
  }
}
