/** Which altered frames the checksum rejects. A wrong last payload byte is always noticed; a wrong
earlier byte is noticed unless the two running checksums meet further on, and exactly then not. */
module Checksum {
  import opened Bytes
  import opened Codec
  import opened CodecStreams

  lemma {:induction false} CrcFromAppend(crc: word, s: seq<byte>, b: byte)
    ensures CrcFrom(crc, s + [b]) == CrcStep(CrcFrom(crc, s), b)
    decreases |s|
  {
    hide CrcStep;
    if s == [] {
      assert [b][1..] == [];
    } else {
      assert (s + [b])[1..] == s[1..] + [b];
      CrcFromAppend(CrcStep(crc, s[0]), s[1..], b);
    }
  }

  /** The checksum rotated left by one bit and inverted, the first half of a round. */
  function Inverted(crc: word): word
  {
    0xFFFF - if crc < 0x8000 then 2 * crc else 2 * crc - 0xFFFF
  }

  /** Two checksums that the second half of a round maps to the same value. */
  predicate Meet(x: word, y: word)
  {
    var v, w := Inverted(x), Inverted(y);
    (v > 0xFF00 && w == v - 0xFF01) || (w > 0xFF00 && v == w - 0xFF01)
  }

  /** A round tells two checksums apart unless they meet, whatever the next byte is. */
  lemma RoundsCollideExactly(x: word, y: word, b: byte)
    ensures CrcStep(x, b) == CrcStep(y, b) <==> x == y || Meet(x, y)
  {
  }

  /** A checksum tells any two last bytes apart ... */
  lemma LastByteDecides(p: seq<byte>, a: byte, b: byte)
    ensures Crc(p + [a]) == Crc(p + [b]) <==> a == b
  {
    CrcFromAppend(CRC_SEED, p, a);
    CrcFromAppend(CRC_SEED, p, b);
  }

  /** Somewhere along `s` the checksums that start from `x` and `y` meet. */
  predicate MeetAlong(x: word, y: word, s: seq<byte>)
  {
    exists i :: 0 <= i < |s| && Meet(CrcFrom(x, s[..i]), CrcFrom(y, s[..i]))
  }

  lemma {:induction false} RunsCollideExactly(x: word, y: word, s: seq<byte>)
    ensures CrcFrom(x, s) == CrcFrom(y, s) <==> x == y || MeetAlong(x, y, s)
    decreases |s|
  {
    hide CrcStep, Meet;
    if s != [] {
      var n := |s| - 1;
      RunsCollideExactly(x, y, s[..n]);
      assert s == s[..n] + [s[n]];
      CrcFromAppend(x, s[..n], s[n]);
      CrcFromAppend(y, s[..n], s[n]);
      RoundsCollideExactly(CrcFrom(x, s[..n]), CrcFrom(y, s[..n]), s[n]);
      MeetAlongAppend(x, y, s, n);
    }
  }

  lemma MeetAlongAppend(x: word, y: word, s: seq<byte>, n: nat)
    requires n == |s| - 1
    ensures MeetAlong(x, y, s) <==> MeetAlong(x, y, s[..n]) || Meet(CrcFrom(x, s[..n]), CrcFrom(y, s[..n]))
  {
    hide CrcFrom, Meet;
    forall i | 0 <= i < n ensures s[..n][..i] == s[..i] {
    }
    if MeetAlong(x, y, s[..n]) {
      var i :| 0 <= i < n && Meet(CrcFrom(x, s[..n][..i]), CrcFrom(y, s[..n][..i]));
      assert Meet(CrcFrom(x, s[..i]), CrcFrom(y, s[..i]));
    }
    if MeetAlong(x, y, s) {
      var i :| 0 <= i < |s| && Meet(CrcFrom(x, s[..i]), CrcFrom(y, s[..i]));
      if i < n {
        assert Meet(CrcFrom(x, s[..n][..i]), CrcFrom(y, s[..n][..i]));
      }
    }
  }

  lemma {:induction false} CrcFromConcat(crc: word, a: seq<byte>, b: seq<byte>)
    ensures CrcFrom(crc, a + b) == CrcFrom(CrcFrom(crc, a), b)
    decreases |a|
  {
    hide CrcStep;
    if a == [] {
      assert a + b == b;
    } else {
      assert (a + b)[1..] == a[1..] + b;
      CrcFromConcat(CrcStep(crc, a[0]), a[1..], b);
    }
  }

  /** What arrives when the payload `sent` is altered to `received` on the way, its length kept. */
  function Altered(sent: seq<byte>, received: seq<byte>): seq<byte>
  {
    [SYNC, SYNC] + Escape(received + CrcBytes(sent)) + [SYNC, END]
  }

  lemma JudgeAltered(sent: seq<byte>, received: seq<byte>)
    ensures Judge(Altered(sent, received)) == if Crc(sent) == Crc(received) then Intact(received) else Corrupt
  {
    hide CrcFrom;
    var x := received + CrcBytes(sent);
    var raw := Altered(sent, received);
    assert Body(raw) == Escape(x);
    UnescapeUndoesEscape(x);
    assert x[..|x| - 2] == received;
  }

  /** Main result: a payload in which one byte was altered, anywhere, is accepted exactly if the
  running checksums behind the two bytes meet somewhere along the rest; else it is rejected. */
  lemma AlteredByteIsAcceptedExactly(p: seq<byte>, sent: byte, received: byte, rest: seq<byte>)
    requires sent != received
    ensures Judge(Altered(p + [sent] + rest, p + [received] + rest)) ==
      if MeetAlong(Crc(p + [sent]), Crc(p + [received]), rest) then Intact(p + [received] + rest) else Corrupt
  {
    hide Judge, CrcStep, MeetAlong, CrcFrom;
    JudgeAltered(p + [sent] + rest, p + [received] + rest);
    CrcFromConcat(CRC_SEED, p + [sent], rest);
    CrcFromConcat(CRC_SEED, p + [received], rest);
    RunsCollideExactly(Crc(p + [sent]), Crc(p + [received]), rest);
    LastByteDecides(p, sent, received);
  }

  /** An altered last byte is always rejected ... */
  lemma AlteredLastByteIsCounted(p: seq<byte>, sent: byte, received: byte)
    requires sent != received
    ensures Judge(Altered(p + [sent], p + [received])) == Corrupt
  {
    hide Judge, CrcFrom;
    JudgeAltered(p + [sent], p + [received]);
    LastByteDecides(p, sent, received);
  }

  /** ... the last but one exactly unless the two checksums behind it meet at once ... */
  lemma AlteredSecondToLastExactly(p: seq<byte>, sent: byte, received: byte, last: byte)
    requires sent != received
    ensures Judge(Altered(p + [sent, last], p + [received, last])) ==
      if Meet(Crc(p + [sent]), Crc(p + [received])) then Intact(p + [received, last]) else Corrupt
  {
    hide Judge, CrcFrom, Meet;
    AlteredByteIsAcceptedExactly(p, sent, received, [last]);
    assert p + [sent] + [last] == p + [sent, last] && p + [received] + [last] == p + [received, last];
    var x, y := Crc(p + [sent]), Crc(p + [received]);
    assert [last][..0] == [];
    EmptyRun(x);
    EmptyRun(y);
    if Meet(x, y) {
      assert Meet(CrcFrom(x, [last][..0]), CrcFrom(y, [last][..0]));
    }
  }

  lemma EmptyRun(crc: word)
    ensures CrcFrom(crc, []) == crc
  {
  }

  /** An altered payload that is accepted looks on the wire like the same payload sent. */
  lemma AcceptedIsEncoded(sent: seq<byte>, received: seq<byte>)
    requires Judge(Altered(sent, received)) == Intact(received)
    ensures Altered(sent, received) == Encode(received)
  {
    hide Crc, Judge;
    JudgeAltered(sent, received);
  }

  /** ... and that happens: one altered byte, and `decode` returns the frame all the same. */
  lemma UndetectedAlteration(g: seq<byte>, r: seq<byte>)
    requires Harmless(g)
    ensures var sent, received := [0, 0, 0x78, 0, 126, 7], [0, 0, 0x78, 0, 253, 7];
      && Judge(Altered(sent, received)) == Intact(received)
      && DecodeOnce(g + Altered(sent, received) + r) == Outcome(Some(received), 0, r)
  {
    hide Judge, CrcStep, Meet, Crc, DecodeOnce, Altered, Encode;
    var p: seq<byte> := [0, 0, 0x78, 0];
    var sent: seq<byte>, received: seq<byte> := [0, 0, 0x78, 0, 126, 7], [0, 0, 0x78, 0, 253, 7];
    TheyMeet();
    AlteredSecondToLastExactly(p, 126, 253, 7);
    assert p + [126, 7] == sent && p + [253, 7] == received;
    AcceptedIsEncoded(sent, received);
    RoundTripWithResync(g, received, r);
  }

  lemma FourRounds()
    ensures CrcStep(CRC_SEED, 0) == 0xD7E2 && CrcStep(0xD7E2, 0) == 0x508A
    ensures CrcStep(0x508A, 0x78) == 0x5FC1 && CrcStep(0x5FC1, 0) == 0x40BD
  {
  }

  lemma PrefixChecksum()
    ensures Crc([0, 0, 0x78, 0]) == 0x40BD
  {
    hide CrcFrom, CrcStep;
    FourRounds();
    EmptyRun(CRC_SEED);
    CrcFromAppend(CRC_SEED, [], 0);
    CrcFromAppend(CRC_SEED, [0], 0);
    CrcFromAppend(CRC_SEED, [0, 0], 0x78);
    CrcFromAppend(CRC_SEED, [0, 0, 0x78], 0);
    assert [] + [0] == [0] && [0] + [0] == [0, 0] && [0, 0] + [0x78] == [0, 0, 0x78];
    assert [0, 0, 0x78] + [0] == [0, 0, 0x78, 0];
  }

  lemma PrefixThen(b: byte)
    ensures Crc([0, 0, 0x78, 0] + [b]) == CrcStep(0x40BD, b)
  {
    PrefixChecksum();
    CrcFromAppend(CRC_SEED, [0, 0, 0x78, 0], b);
  }

  lemma TheyMeet()
    ensures Meet(Crc([0, 0, 0x78, 0] + [126]), Crc([0, 0, 0x78, 0] + [253]))
  {
    hide Crc;
    PrefixThen(126);
    PrefixThen(253);
  }
}
