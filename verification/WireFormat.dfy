/** The wire format itself, in literal bytes: what panel and client must agree on, and what no lemma
about a codec that agrees with itself can show. */
module WireFormat {
  import opened Bytes
  import opened Codec
  import opened CodecStreams

  // ---------- Byte stuffing ----------

  /** Main result: every encoded frame starts with FE FE and ends with FE 0D; in between, each FE is
  followed by F0, and without these F0 bytes stand the payload and its checksum, high byte first. */
  lemma EncodedFrame(p: seq<byte>)
    ensures var wire := Encode(p);
      var n := |wire|;
      && 6 <= n && wire[..2] == [0xFE, 0xFE] && wire[n - 2..] == [0xFE, 0x0D]
      && (forall i :: 2 <= i < n - 2 && wire[i] == 0xFE ==> i + 1 < n - 2 && wire[i + 1] == 0xF0)
      && Unescape(wire[2..n - 2]) == p + [Crc(p) / 256, Crc(p) % 256]
  {
    var body := p + CrcBytes(p);
    var e := Escape(body);
    EscapeIsStuffed(body);
    EscapeGrows(body);
    UnescapeUndoesEscape(body);
    assert Encode(p)[2..|Encode(p)| - 2] == e;
    forall i | 2 <= i < |Encode(p)| - 2 && Encode(p)[i] == 0xFE
      ensures i + 1 < |Encode(p)| - 2 && Encode(p)[i + 1] == 0xF0
    {
      var k: nat := i - 2;
      assert e[k] == SYNC;
    }
  }

  lemma {:induction false} EscapeGrows(s: seq<byte>)
    ensures |s| <= |Escape(s)|
  {
    if s != [] {
      EscapeGrows(s[1..]);
    }
  }

  /** What is not FE F0 is left as it is ... */
  lemma {:induction false} UnescapeKeepsOthers(s: seq<byte>)
    requires forall i :: 0 <= i < |s| - 1 ==> !(s[i] == 0xFE && s[i + 1] == 0xF0)
    ensures Unescape(s) == s
  {
    if s != [] {
      UnescapeKeepsOthers(s[1..]);
    }
  }

  /** ... and each FE F0 becomes FE, from the first one on. */
  lemma {:induction false} UnescapeFirstPair(a: seq<byte>, b: seq<byte>)
    requires forall i :: 0 <= i < |a| - 1 ==> !(a[i] == 0xFE && a[i + 1] == 0xF0)
    ensures Unescape(a + [0xFE, 0xF0] + b) == a + [0xFE] + Unescape(b)
  {
    var s := a + [0xFE, 0xF0] + b;
    if a == [] {
      assert s[2..] == b;
    } else {
      assert s[1..] == a[1..] + [0xFE, 0xF0] + b;
      UnescapeFirstPair(a[1..], b);
      assert s[0] == a[0] && (if |a| > 1 then s[1] == a[1] else s[1] == 0xFE);
    }
  }

  // ---------- The checksum ----------

  lemma {:induction false} TopBit(w: nat, n: nat)
    requires w < PowerOfTwo(n + 1)
    ensures HasBit(w, n) <==> w >= PowerOfTwo(n)
  {
    if n > 0 {
      TopBit(w / 2, n - 1);
    }
  }

  lemma {:induction false} InvertedBit(w: nat, n: nat, k: nat)
    requires k < n && w < PowerOfTwo(n)
    ensures HasBit(PowerOfTwo(n) - 1 - w, k) == !HasBit(w, k)
  {
    assert PowerOfTwo(n) == 2 * PowerOfTwo(n - 1);
    assert (PowerOfTwo(n) - 1 - w) / 2 == PowerOfTwo(n - 1) - 1 - w / 2;
    if k > 0 {
      InvertedBit(w / 2, n - 1, k - 1);
    }
  }

  lemma PowerOfSixteen()
    ensures PowerOfTwo(16) == 0x1_0000 && PowerOfTwo(15) == 0x8000
  {
    PowerOfEight();
    assert PowerOfTwo(12) == 16 * PowerOfTwo(8);
    assert PowerOfTwo(15) == 8 * PowerOfTwo(12);
  }

  /** `rotated` has the bits of `crc` moved up by one, the top bit at the bottom. */
  ghost predicate IsRotated(crc: word, rotated: word)
  {
    HasBit(rotated, 0) == HasBit(crc, 15) && forall k :: 0 <= k < 15 ==> HasBit(rotated, k + 1) == HasBit(crc, k)
  }

  ghost predicate IsInverted(w: word, inverted: word)
  {
    forall k :: 0 <= k < 16 ==> HasBit(inverted, k) == !HasBit(w, k)
  }

  lemma RotateValue(crc: word, rotated: word)
    requires IsRotated(crc, rotated)
    ensures rotated == if crc < 0x8000 then 2 * crc else 2 * crc - 0xFFFF
  {
    PowerOfSixteen();
    var r := if crc < 0x8000 then 2 * crc else 2 * crc - 0xFFFF;
    TopBit(crc, 15);
    assert r / 2 == if crc < 0x8000 then crc else crc - PowerOfTwo(15);
    forall k | 0 <= k < 16 ensures HasBit(rotated, k) == HasBit(r, k) {
      if k > 0 {
        assert HasBit(rotated, (k - 1) + 1) == HasBit(crc, k - 1);
        if crc >= 0x8000 {
          WithoutTopBit(crc, 15, k - 1);
        }
      }
    }
    BitsDetermine(rotated, r, 16);
  }

  lemma InvertValue(w: word, inverted: word)
    requires IsInverted(w, inverted)
    ensures inverted == 0xFFFF - w
  {
    PowerOfSixteen();
    forall k | 0 <= k < 16 ensures HasBit(inverted, k) == HasBit(0xFFFF - w, k) {
      InvertedBit(w, 16, k);
    }
    BitsDetermine(inverted, 0xFFFF - w, 16);
  }

  /** Main result: one checksum round rotates the word left by one bit, inverts all bits, and adds the
  high byte and the data byte, modulo 65536; `rotated` and `inverted` are given by their bits. */
  lemma ChecksumRound(crc: word, b: byte, rotated: word, inverted: word)
    requires IsRotated(crc, rotated) && IsInverted(rotated, inverted)
    ensures CrcStep(crc, b) == (inverted + inverted / 256 + b) % 0x1_0000
  {
    hide IsRotated, IsInverted, CrcStep;
    RotateValue(crc, rotated);
    InvertValue(rotated, inverted);
    RoundValue(crc, b);
  }

  lemma RoundValue(crc: word, b: byte)
    ensures var inverted := 0xFFFF - if crc < 0x8000 then 2 * crc else 2 * crc - 0xFFFF;
      CrcStep(crc, b) == (inverted + inverted / 256 + b) % 0x1_0000
  {
  }

  /** The checksum is that round over all bytes, from 0x147A. */
  lemma {:induction false} ChecksumRounds(data: seq<byte>, b: byte)
    ensures Crc([]) == 0x147A && Crc(data + [b]) == CrcStep(Crc(data), b)
  {
    RoundsFrom(CRC_SEED, data, b);
  }

  lemma {:induction false} RoundsFrom(crc: word, data: seq<byte>, b: byte)
    ensures CrcFrom(crc, data + [b]) == CrcStep(CrcFrom(crc, data), b)
    decreases |data|
  {
    if data == [] {
      assert ([] + [b])[1..] == [];
    } else {
      assert (data + [b])[1..] == data[1..] + [b];
      RoundsFrom(CrcStep(crc, data[0]), data[1..], b);
    }
  }

  // ---------- Frames as they stand on the wire ----------

  lemma ChecksumOfOne(b: byte)
    ensures Crc([b]) == CrcStep(0x147A, b)
  {
    ChecksumRounds([], b);
    assert [] + [b] == [b];
  }

  lemma ChecksumOfTwo(a: byte, b: byte)
    ensures Crc([a, b]) == CrcStep(CrcStep(0x147A, a), b)
  {
    ChecksumOfOne(a);
    ChecksumRounds([a], b);
    assert [a] + [b] == [a, b];
  }

  /** One byte of a frame as it is sent. */
  function Byte(b: byte): seq<byte> { if b == 0xFE then [0xFE, 0xF0] else [b] }

  lemma EscapeOne(b: byte)
    ensures Escape([b]) == Byte(b)
  {
    assert [b][1..] == [];
  }

  lemma EscapeTwo(a: byte, b: byte)
    ensures Escape([a, b]) == Byte(a) + Byte(b)
  {
    hide Escape;
    EscapeConcat([a], [b]);
    EscapeOne(a);
    EscapeOne(b);
    assert [a] + [b] == [a, b];
  }

  /** A frame is its header, its payload and checksum byte by byte, and its end. */
  lemma EncodeBytes(p: seq<byte>)
    ensures Encode(p) == [0xFE, 0xFE] + (Escape(p) + (Byte(Crc(p) / 256) + Byte(Crc(p) % 256))) + [0xFE, 0x0D]
  {
    hide Escape, Crc;
    EscapeConcat(p, CrcBytes(p));
    EscapeTwo(Crc(p) / 256, Crc(p) % 256);
  }

  /** Three frames: a stuffed byte, the query for the panel's version, an acceptance. Encoding gives
  just these bytes, and decoding gives the payload back, whatever follows. */
  lemma FramesOnTheWire(rest: seq<byte>)
    ensures Encode([0xFE]) == [0xFE, 0xFE, 0xFE, 0xF0, 0xD8, 0xE0, 0xFE, 0x0D]
    ensures Encode([0x7E]) == [0xFE, 0xFE, 0x7E, 0xD8, 0x60, 0xFE, 0x0D]
    ensures Encode([0xEF, 0xFF]) == [0xFE, 0xFE, 0xEF, 0xFF, 0x4F, 0xA9, 0xFE, 0x0D]
    ensures DecodeOnce([0xFE, 0xFE, 0xFE, 0xF0, 0xD8, 0xE0, 0xFE, 0x0D] + rest) == Outcome(Some([0xFE]), 0, rest)
    ensures DecodeOnce([0xFE, 0xFE, 0xEF, 0xFF, 0x4F, 0xA9, 0xFE, 0x0D] + rest) == Outcome(Some([0xEF, 0xFF]), 0, rest)
  {
    hide DecodeOnce, Escape, Crc, Encode;
    FrameOfOne(0xFE);
    FrameOfOne(0x7E);
    FrameOfTwo(0xEF, 0xFF);
    KnownChecksums();
    DecodesBack([0xFE], rest);
    DecodesBack([0xEF, 0xFF], rest);
  }

  lemma KnownChecksums()
    ensures Crc([0xFE]) == 0xD8E0 && Crc([0x7E]) == 0xD860 && Crc([0xEF, 0xFF]) == 0x4FA9
  {
    hide Crc;
    ChecksumOfOne(0xFE);
    ChecksumOfOne(0x7E);
    ChecksumOfTwo(0xEF, 0xFF);
  }

  lemma FrameOfOne(b: byte)
    ensures Encode([b]) == [0xFE, 0xFE] + (Byte(b) + (Byte(Crc([b]) / 256) + Byte(Crc([b]) % 256))) + [0xFE, 0x0D]
  {
    hide Encode, Escape, Crc;
    EscapeOne(b);
    EncodeBytes([b]);
  }

  lemma FrameOfTwo(a: byte, b: byte)
    ensures Encode([a, b]) ==
      [0xFE, 0xFE] + (Byte(a) + Byte(b) + (Byte(Crc([a, b]) / 256) + Byte(Crc([a, b]) % 256))) + [0xFE, 0x0D]
  {
    hide Encode, Escape, Crc;
    EscapeTwo(a, b);
    EncodeBytes([a, b]);
  }

  lemma DecodesBack(p: seq<byte>, rest: seq<byte>)
    requires Transmittable(p)
    ensures DecodeOnce(Encode(p) + rest) == Outcome(Some(p), 0, rest)
  {
    hide DecodeOnce, Encode;
    RoundTripWithResync([], p, rest);
    assert [] + Encode(p) + rest == Encode(p) + rest;
  }
}
