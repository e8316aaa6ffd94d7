/** Encrypted packets as values: how one is built, and how a byte stream of them is read back. */
module Packets {
  import opened Bytes
  import opened Cipher

  const HEADER := 6
  const SMALLEST := 16
  const LONGEST_PLAINTEXT := 249

  /** The six bytes in front of the plaintext, and the plaintext of one `poll_write`. */
  datatype Message = Message(header: seq<byte>, plain: seq<byte>)
  {
    predicate HasHeader() { |header| == HEADER }

    predicate FitsLengthPrefix() { HasHeader() && 1 <= |plain| <= LONGEST_PLAINTEXT }

    /** The plaintext as the receiver sees it: padded with zeros to the smallest packet. */
    function Padded(): (r: seq<byte>)
      ensures |r| + HEADER == BytesCount(plain) && plain <= r
    {
      plain + Zeros(BytesCount(plain) - HEADER - |plain|)
    }
  }

  function Zeros(n: nat): (z: seq<byte>)
    ensures |z| == n && forall i :: 0 <= i < n ==> z[i] == 0
  {
    seq(n, i => 0)
  }

  function BytesCount(plain: seq<byte>): nat
  {
    if HEADER + |plain| < SMALLEST then SMALLEST else HEADER + |plain|
  }

  /** One length byte (the low byte of the length) and the encrypted header and plaintext. */
  function Packet(f: BlockFunction, m: Message): seq<byte>
  {
    [BytesCount(m.plain) % 256] + Encipher(f, m.header + m.Padded())
  }

  function AllPackets(f: BlockFunction, messages: seq<Message>): seq<byte>
  {
    if messages == [] then [] else Packet(f, messages[0]) + AllPackets(f, messages[1..])
  }

  function AllPadded(messages: seq<Message>): seq<byte>
  {
    if messages == [] then [] else messages[0].Padded() + AllPadded(messages[1..])
  }

  lemma {:induction false} AllPacketsAppend(f: BlockFunction, messages: seq<Message>, m: Message)
    ensures AllPackets(f, messages + [m]) == AllPackets(f, messages) + Packet(f, m)
  {
    if messages == [] {
      assert [m][1..] == [];
    } else {
      assert (messages + [m])[1..] == messages[1..] + [m];
      AllPacketsAppend(f, messages[1..], m);
    }
  }

  // ---------- Reading packets back ----------

  /** Plaintext recovered so far, the unfinished packet, and the sender id seen last. */
  datatype Parsed = Parsed(plain: seq<byte>, expected: Option<byte>, raw: seq<byte>, id: byte)

  /** What one complete packet adds: the plaintext behind its header, and the sender id. */
  function Unwrap(f: BlockFunction, id: byte, body: seq<byte>): (u: (seq<byte>, byte))
    ensures |u.0| == if |body| < HEADER then 0 else |body| - HEADER
  {
    var data := Decipher(f, body);
    if |data| < HEADER then ([], id) else (data[HEADER..], data[4])
  }

  /** The front of a packet stream: an unfinished packet, or a complete one and what follows. */
  datatype Front = Unfinished(expected: Option<byte>, raw: seq<byte>) | Complete(body: seq<byte>, rest: seq<byte>)

  function TakeFront(wire: seq<byte>): (front: Front)
    ensures front.Complete? ==> |front.rest| < |wire|
  {
    if wire == [] then Unfinished(None, [])
    else if |wire| - 1 < wire[0] then Unfinished(Some(wire[0]), wire[1..])
    else
      var end: nat := wire[0] as int + 1;
      Complete(wire[1..end], wire[end..])
  }

  function Parse(f: BlockFunction, id: byte, wire: seq<byte>): Parsed
    decreases |wire|
  {
    match TakeFront(wire)
    case Unfinished(expected, raw) => Parsed([], expected, raw, id)
    case Complete(body, rest) => Behind(Unwrap(f, id, body).0, Parse(f, Unwrap(f, id, body).1, rest))
  }

  function Behind(plain: seq<byte>, p: Parsed): Parsed
  {
    p.(plain := plain + p.plain)
  }

  /** The bytes of the unfinished packet, as they stood on the wire. */
  function Carry(expected: Option<byte>, raw: seq<byte>): seq<byte>
  {
    match expected
    case None => raw
    case Some(n) => [n] + raw
  }

  lemma FrontInPrefix(a: seq<byte>, b: seq<byte>)
    ensures match TakeFront(a)
      case Unfinished(expected, raw) => Carry(expected, raw) == a
      case Complete(body, rest) => TakeFront(a + b) == Complete(body, rest + b)
  {
    if a != [] && |a| - 1 >= a[0] {
      var end: nat := a[0] as int + 1;
      assert (a + b)[1..end] == a[1..end];
      assert (a + b)[end..] == a[end..] + b;
    }
  }

  /** Reading may stop and resume anywhere. */
  lemma {:induction false} ParseAppend(f: BlockFunction, id: byte, a: seq<byte>, b: seq<byte>)
    ensures var p := Parse(f, id, a);
      Parse(f, id, a + b) == Behind(p.plain, Parse(f, p.id, Carry(p.expected, p.raw) + b))
    decreases |a|
  {
    FrontInPrefix(a, b);
    match TakeFront(a)
    case Unfinished(expected, raw) =>
    case Complete(body, rest) =>
      var (plain, sender) := Unwrap(f, id, body);
      ParseAppend(f, sender, rest, b);
      var p := Parse(f, sender, rest);
      var q := Parse(f, p.id, Carry(p.expected, p.raw) + b);
      BehindTwice(plain, p.plain, q);
  }

  lemma BehindTwice(a: seq<byte>, b: seq<byte>, p: Parsed)
    ensures Behind(a, Behind(b, p)) == Behind(a + b, p)
  {
    assert a + (b + p.plain) == a + b + p.plain;
  }

  // ---------- What is written is what is read ----------

  lemma ParsePacket(f: BlockFunction, id: byte, m: Message, rest: seq<byte>)
    requires f.IsPermutation() && m.FitsLengthPrefix()
    ensures var q := Parse(f, m.header[4], rest);
      Parse(f, id, Packet(f, m) + rest) == Behind(m.Padded(), q)
  {
    var data := m.header + m.Padded();
    var n := BytesCount(m.plain);
    var wire := Packet(f, m) + rest;
    CipherRoundTrip(f, data);
    assert wire[0] == n && wire[1..1 + n] == Encipher(f, data) && wire[1 + n..] == rest;
    assert data[HEADER..] == m.Padded();
  }

  /** Main result: a packet is its length, modulo 256, and behind it, encrypted, the six header bytes, the
  plaintext, and zeros up to sixteen bytes in all. */
  lemma PacketOnTheWire(f: BlockFunction, m: Message)
    requires f.IsPermutation() && m.HasHeader()
    ensures var wire := Packet(f, m);
      var n := if |m.plain| < 10 then 16 else 6 + |m.plain|;
      var data := Decipher(f, wire[1..]);
      && |wire| == n + 1 && wire[0] == n % 256
      && |data| == n && data[..6] == m.header && data[6..6 + |m.plain|] == m.plain
      && forall i :: 6 + |m.plain| <= i < n ==> data[i] == 0
  {
    hide Encipher, Decipher;
    var data := m.header + m.Padded();
    assert Packet(f, m)[1..] == Encipher(f, data);
    CipherRoundTrip(f, data);
    assert m.Padded() == m.plain + Zeros(BytesCount(m.plain) - HEADER - |m.plain|);
  }

  /** Whole packets written one after the other are read back as the padded plaintexts; the sender kept is
  the fifth header byte of the last one. */
  lemma {:induction false} ParseAllPackets(f: BlockFunction, id: byte, messages: seq<Message>)
    requires f.IsPermutation()
    requires forall i :: 0 <= i < |messages| ==> messages[i].FitsLengthPrefix()
    ensures var p := Parse(f, id, AllPackets(f, messages));
      && p.plain == AllPadded(messages) && p.expected == None && p.raw == []
      && p.id == if messages == [] then id else
           var last := messages[|messages| - 1];
           assert last.FitsLengthPrefix();
           last.header[4]
    decreases |messages|
  {
    hide Parse, Packet;
    if messages == [] {
      ParseNothing(f, id);
    } else {
      var rest := messages[1..];
      assert messages[0].FitsLengthPrefix();
      ParsePacket(f, id, messages[0], AllPackets(f, rest));
      ParseAllPackets(f, messages[0].header[4], rest);
      assert rest != [] ==> rest[|rest| - 1] == messages[|messages| - 1];
    }
  }

  lemma ParseNothing(f: BlockFunction, id: byte)
    ensures Parse(f, id, []) == Parsed([], None, [], id)
  {
  }

  /** The limit on the plaintext is exact: a packet is read back whole just up to 249 bytes. */
  lemma ReadableExactly(f: BlockFunction, id: byte, m: Message)
    requires f.IsPermutation() && m.HasHeader() && m.plain != []
    ensures (var p := Parse(f, id, Packet(f, m)); p.plain == m.Padded() && p.expected == None && p.raw == [])
       <==> |m.plain| <= LONGEST_PLAINTEXT
  {
    if |m.plain| <= LONGEST_PLAINTEXT {
      ParsePacket(f, id, m, []);
      assert Packet(f, m) + [] == Packet(f, m);
    } else {
      TruncatedPrefix(f, id, m);
    }
  }

  lemma {:induction false} ParseLosesHeaders(f: BlockFunction, id: byte, wire: seq<byte>)
    ensures Parse(f, id, wire).plain == [] || |Parse(f, id, wire).plain| + HEADER + 1 <= |wire|
    decreases |wire|
  {
    match TakeFront(wire)
    case Unfinished(_, _) =>
    case Complete(body, rest) => ParseLosesHeaders(f, Unwrap(f, id, body).1, rest);
  }

  /** A length that does not fit one byte is cut short, so less than the plaintext comes back. */
  lemma TruncatedPrefix(f: BlockFunction, id: byte, m: Message)
    requires m.HasHeader() && |m.plain| > LONGEST_PLAINTEXT
    ensures |Parse(f, id, Packet(f, m)).plain| < |m.plain|
  {
    var front := TakeFront(Packet(f, m));
    assert front.rest != [];
    ParseLosesHeaders(f, Unwrap(f, id, front.body).1, front.rest);
  }

  // ---------- One packet at a time ----------

  datatype Decrypted = Ok(plain: seq<byte>) | InvalidLength(len: nat)

  function EncryptData(f: BlockFunction, plain: seq<byte>): seq<byte>
  {
    if plain == [] then [] else Packet(f, Message(Zeros(HEADER), plain))
  }

  function DecryptData(f: BlockFunction, wire: seq<byte>): Decrypted
  {
    if wire == [] then Ok([])
    else if |wire| < 17 || |wire| - 1 < wire[0] || wire[0] < SMALLEST then InvalidLength(|wire|)
    else Ok(Decipher(f, wire[1..wire[0] as int + 1])[HEADER..])
  }

  /** `decrypt_data` refuses exactly what does not start with a length of at least 16 and that many bytes;
  `encrypt_data` makes one packet with a header of six zeros, or nothing of nothing. */
  lemma OneShotFormat(f: BlockFunction, wire: seq<byte>, plain: seq<byte>)
    ensures DecryptData(f, wire).Ok? <==> wire == [] || 16 <= wire[0] < |wire|
    ensures EncryptData(f, plain) == if plain == [] then [] else Packet(f, Message([0, 0, 0, 0, 0, 0], plain))
  {
    assert Zeros(HEADER) == [0, 0, 0, 0, 0, 0];
  }

  /** The one-shot helpers round trip, up to the zero padding, exactly within the length limit. */
  lemma OneShotRoundTrip(f: BlockFunction, plain: seq<byte>)
    requires f.IsPermutation() && plain != []
    ensures DecryptData(f, EncryptData(f, plain)) == Ok(Message(Zeros(HEADER), plain).Padded())
       <==> |plain| <= LONGEST_PLAINTEXT
  {
    var m := Message(Zeros(HEADER), plain);
    var wire := Packet(f, m);
    if |plain| <= LONGEST_PLAINTEXT {
      var data := m.header + m.Padded();
      CipherRoundTrip(f, data);
      assert wire[1..wire[0] as int + 1] == Encipher(f, data);
      assert data[HEADER..] == m.Padded();
    }
  }
}
