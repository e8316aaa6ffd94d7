/** Codec and encryption together: what one side encodes and writes, the other side decodes. */
module EndToEnd {
  import opened Bytes
  import opened Codec
  import opened CodecProperties
  import opened CodecStreams
  import opened Cipher
  import opened Packets
  import opened EncryptedStreams

  /** Each payload was encoded and handed to one `poll_write`, and fits one packet. */
  predicate Carries(messages: seq<Message>, payloads: seq<seq<byte>>)
  {
    && |messages| == |payloads|
    && forall i :: 0 <= i < |payloads| ==>
         && Transmittable(payloads[i])
         && messages[i].plain == Encode(payloads[i])
         && messages[i].FitsLengthPrefix()
  }

  function Padding(m: Message): seq<byte>
  {
    Zeros(BytesCount(m.plain) - HEADER - |m.plain|)
  }

  /** The zero padding between encoded payloads disappears in the decoder's resynchronisation. */
  lemma {:induction false} PaddedStreamDecodes(gap: seq<byte>, messages: seq<Message>, payloads: seq<seq<byte>>)
    requires Harmless(gap) && Carries(messages, payloads)
    ensures var d := Drain(gap + AllPadded(messages));
      d.frames == payloads && d.errors == 0 && Settled(d.left) == []
    decreases |messages|
  {
    if messages == [] {
      HarmlessYieldsNothing(gap);
      assert gap + [] == gap;
    } else {
      FirstMessageDecodes(gap, messages[0], payloads[0], AllPadded(messages[1..]));
      PaddedStreamDecodes(Padding(messages[0]), messages[1..], payloads[1..]);
    }
  }

  lemma FirstMessageDecodes(gap: seq<byte>, m: Message, payload: seq<byte>, rest: seq<byte>)
    requires Harmless(gap) && Transmittable(payload) && m.plain == Encode(payload)
    ensures Drain(gap + (m.Padded() + rest)) == Join(Drained([payload], 0, []), Drain(Padding(m) + rest))
  {
    EncodeIsDelimited(payload);
    JudgeEncoded(payload);
    TakeDelimited(gap, m.plain, Padding(m) + rest);
    RegroupPadding(gap, m, rest);
  }

  lemma RegroupPadding(gap: seq<byte>, m: Message, rest: seq<byte>)
    ensures gap + (m.Padded() + rest) == gap + m.plain + (Padding(m) + rest)
  {
  }

  lemma DrainIsMonotone(a: seq<byte>, b: seq<byte>)
    requires a <= b
    ensures Drain(a).frames <= Drain(b).frames && Drain(a).errors <= Drain(b).errors
  {
    assert b == a + b[|a|..];
    DrainAppend(a, b[|a|..]);
  }

  lemma ParseIsMonotone(f: BlockFunction, id: byte, a: seq<byte>, b: seq<byte>)
    requires a <= b
    ensures Parse(f, id, a).plain <= Parse(f, id, b).plain
  {
    assert b == a + b[|a|..];
    ParseAppend(f, id, a, b[|a|..]);
  }

  /** Main result, at every moment of every run: with any schedule of partial writes and reads,
  blocking and failures, and any chunking of what the reader has been handed, the frames decoded
  so far are a prefix of the payloads written so far, and no checksum error has been counted. */
  lemma DeliveredIsPrefix(writer: EncryptedStream, reader: EncryptedStream,
                          payloads: seq<seq<byte>>, chunks: seq<seq<byte>>)
    requires writer.Valid() && reader.Valid()
    requires writer.cipher.f == reader.cipher.f && writer.cipher.f.IsPermutation()
    requires Carries(writer.messages, payloads)
    requires reader.inner.received <= writer.inner.wire
    requires Flatten(chunks) == reader.delivered
    ensures FeedAll([], chunks).frames <= payloads
    ensures FeedAll([], chunks).errors == 0
  {
    var f := writer.cipher.f;
    var all := AllPackets(f, writer.messages);
    ParseIsMonotone(f, 0, reader.inner.received, all);
    ParseAllPackets(f, 0, writer.messages);
    assert reader.delivered <= AllPadded(writer.messages);
    DrainIsMonotone(reader.delivered, AllPadded(writer.messages));
    AllPaddedDecodes(writer.messages, payloads);
    ChunkingIndependence(chunks, chunks);
  }

  lemma AllPaddedDecodes(messages: seq<Message>, payloads: seq<seq<byte>>)
    requires Carries(messages, payloads)
    ensures var d := Drain(AllPadded(messages));
      d.frames == payloads && d.errors == 0 && Settled(d.left) == []
  {
    PaddedStreamDecodes([], messages, payloads);
    assert [] + AllPadded(messages) == AllPadded(messages);
  }

  /** Main result, once the writer has flushed and the reader has read to the end: exactly the
  payloads written are decoded, in order, and nothing is left over. */
  lemma DeliveredIsEverything(writer: EncryptedStream, reader: EncryptedStream,
                              payloads: seq<seq<byte>>, chunks: seq<seq<byte>>)
    requires writer.Valid() && reader.Valid()
    requires writer.cipher.f == reader.cipher.f && writer.cipher.f.IsPermutation()
    requires Carries(writer.messages, payloads)
    requires writer.writeBuffer == [] && reader.inner.received == writer.inner.wire
    requires reader.readBuffer == [] && Flatten(chunks) == reader.delivered
    ensures FeedAll([], chunks).frames == payloads
    ensures FeedAll([], chunks).errors == 0
    ensures Settled(FeedAll([], chunks).left) == []
  {
    var f := writer.cipher.f;
    assert writer.inner.wire + [] == writer.inner.wire;
    assert reader.delivered + [] == reader.delivered;
    ParseAllPackets(f, 0, writer.messages);
    AllPaddedDecodes(writer.messages, payloads);
    ChunkingIndependence(chunks, chunks);
  }
}
