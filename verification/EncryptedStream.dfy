/** The packetising stream wrapper, over an inner stream that reads and writes as it pleases. */
module EncryptedStreams {
  import opened Bytes
  import opened Cipher
  import opened Packets

  datatype Poll<+T> = Ready(value: T) | Failed | Pending

  datatype WriteOutcome = Accept(count: nat) | RefuseWrite | BlockWrite

  type chunk = s: seq<byte> | |s| <= 512 witness []
  datatype ReadOutcome = Arrive(bytes: chunk) | RefuseRead | BlockRead

  // ---------- What a poll comes to ----------

  /** Writing `buf` out: the result, what is left of it, and what is left of the script. */
  function WriteAll(script: seq<WriteOutcome>, buf: seq<byte>): (w: (Poll<()>, seq<byte>, seq<WriteOutcome>))
    ensures w.0.Ready? ==> w.1 == []
  {
    if buf == [] then (Ready(()), [], script)
    else if script == [] then (Pending, buf, [])
    else
      match script[0]
      case Accept(count) =>
        if count == 0 then (Failed, buf, script[1..]) else WriteAll(script[1..], buf[Min(count, |buf|)..])
      case RefuseWrite => (Failed, buf, script[1..])
      case BlockWrite => (Pending, buf, script[1..])
  }

  /** Reading on from what `p` holds until there is plaintext to hand out: `Ready` then, or at the end of
  the stream. */
  function ReadAll(f: BlockFunction, p: Parsed, script: seq<ReadOutcome>): (Poll<()>, Parsed, seq<ReadOutcome>)
    decreases |script|
  {
    if p.plain != [] then (Ready(()), p, script)
    else if script == [] then (Pending, p, [])
    else
      match script[0]
      case Arrive(bytes) =>
        if bytes == [] then (Ready(()), p, script[1..])
        else ReadAll(f, Parse(f, p.id, Carry(p.expected, p.raw) + bytes), script[1..])
      case RefuseRead => (Failed, p, script[1..])
      case BlockRead => (Pending, p, script[1..])
  }

  /** The bytes an inner stream takes before it first refuses, blocks or takes nothing ... */
  function Capacity(script: seq<WriteOutcome>): nat
  {
    if script == [] || !script[0].Accept? || script[0].count == 0 then 0
    else script[0].count + Capacity(script[1..])
  }

  /** ... and what it does then. */
  function Stop(script: seq<WriteOutcome>): Option<WriteOutcome>
  {
    if script == [] then None
    else if !script[0].Accept? || script[0].count == 0 then Some(script[0])
    else Stop(script[1..])
  }

  /** Main result: a buffer is written out whole exactly if the inner stream takes that many bytes before
  it stops; otherwise just those bytes are gone, and the poll fails or waits as the inner stream does
  (taking no bytes is a failure). */
  lemma {:induction false} WriteAllExactly(script: seq<WriteOutcome>, buf: seq<byte>)
    ensures var (r, left, _) := WriteAll(script, buf);
      if |buf| <= Capacity(script) then r.Ready? && left == []
      else
        && left == buf[Capacity(script)..]
        && r == (if Stop(script).Some? && !Stop(script).value.BlockWrite? then Failed else Pending)
    decreases |script|
  {
    if buf != [] && script != [] && script[0].Accept? && script[0].count > 0 {
      WriteAllExactly(script[1..], buf[Min(script[0].count, |buf|)..]);
    }
  }

  lemma WriteAllDone(script: seq<WriteOutcome>)
    ensures WriteAll(script, []) == (Ready(()), [], script)
  {
  }

  /** One round of the loop that writes a buffer out. */
  lemma WriteAllStep(script: seq<WriteOutcome>, buf: seq<byte>)
    requires buf != []
    ensures WriteAll(script, buf) ==
      if script == [] then (Pending, buf, [])
      else
        match script[0]
        case Accept(count) =>
          if Min(count, |buf|) == 0 then (Failed, buf, script[1..])
          else WriteAll(script[1..], buf[Min(count, |buf|)..])
        case RefuseWrite => (Failed, buf, script[1..])
        case BlockWrite => (Pending, buf, script[1..])
  {
  }

  lemma FrontMoves(out: seq<byte>, buf: seq<byte>, n: nat)
    requires n <= |buf|
    ensures out + buf == out + buf[..n] + buf[n..]
  {
  }

  /** All the bytes of arrivals. */
  function Arrivals(script: seq<ReadOutcome>): seq<byte>
  {
    if script == [] then []
    else (if script[0].Arrive? then script[0].bytes else []) + Arrivals(script[1..])
  }

  /** Main result: with `before` received and handed out, as soon as the bytes that arrive complete a
  packet with plaintext a read hands out plaintext; while they do not, it reads on, and waits when
  nothing more arrives. */
  lemma {:induction false} ReadAllExactly(f: BlockFunction, id: byte, before: seq<byte>, script: seq<ReadOutcome>)
    requires forall i :: 0 <= i < |script| ==> script[i].Arrive? && script[i].bytes != []
    ensures var held := Parse(f, id, before);
      var (r, q, _) := ReadAll(f, held.(plain := []), script);
      var all := Parse(f, id, before + Arrivals(script)).plain;
      if all == held.plain then r == Pending && q.plain == []
      else r.Ready? && q.plain != [] && held.plain + q.plain <= all
    decreases |script|
  {
    hide Parse;
    var held := Parse(f, id, before);
    if script == [] {
      assert before + Arrivals(script) == before;
    } else {
      var bytes := script[0].bytes;
      var q := Parse(f, held.id, Carry(held.expected, held.raw) + bytes);
      ParseAppend(f, id, before, bytes);
      assert before + Arrivals(script) == before + bytes + Arrivals(script[1..]);
      ParseAppend(f, id, before + bytes, Arrivals(script[1..]));
      if q.plain == [] {
        assert held.plain + q.plain == held.plain;
        ReadAllExactly(f, id, before + bytes, script[1..]);
      }
    }
  }

  /** The inner stream: `writes` and `reads` script what its future polls do, `wire` and
  `received` are all the bytes it has taken and handed out so far. */
  class InnerStream {
    var writeScript: seq<WriteOutcome>
    var readScript: seq<ReadOutcome>
    var wire: seq<byte>
    var received: seq<byte>

    constructor (writeScript: seq<WriteOutcome>, readScript: seq<ReadOutcome>)
      ensures this.writeScript == writeScript && this.readScript == readScript && wire == [] && received == []
    {
      this.writeScript, this.readScript, wire, received := writeScript, readScript, [], [];
    }

    /** Takes any number of bytes from the front of `buf`, fails or blocks. */
    method PollWrite(buf: seq<byte>) returns (r: Poll<nat>)
      modifies this`writeScript, this`wire
      ensures r.Ready? ==> r.value <= |buf| && wire == old(wire) + buf[..r.value]
      ensures !r.Ready? ==> wire == old(wire)
      ensures writeScript == if old(writeScript) == [] then [] else old(writeScript)[1..]
      ensures r == if old(writeScript) == [] then Pending else
        match old(writeScript)[0]
        case Accept(count) => Ready(Min(count, |buf|))
        case RefuseWrite => Failed
        case BlockWrite => Pending
    {
      if writeScript == [] {
        return Pending;
      }
      var now := writeScript[0];
      writeScript := writeScript[1..];
      match now
      case Accept(count) =>
        var n := if count <= |buf| then count else |buf|;
        wire := wire + buf[..n];
        r := Ready(n);
      case RefuseWrite => r := Failed;
      case BlockWrite => r := Pending;
    }

    /** Hands out up to 512 bytes (none at the end of the stream), fails or blocks. */
    method PollRead() returns (r: Poll<seq<byte>>)
      modifies this`readScript, this`received
      ensures r.Ready? ==> received == old(received) + r.value
      ensures !r.Ready? ==> received == old(received)
      ensures readScript == if old(readScript) == [] then [] else old(readScript)[1..]
      ensures r == if old(readScript) == [] then Pending else
        match old(readScript)[0]
        case Arrive(bytes) => Ready(bytes)
        case RefuseRead => Failed
        case BlockRead => Pending
    {
      if readScript == [] {
        return Pending;
      }
      var now := readScript[0];
      readScript := readScript[1..];
      match now
      case Arrive(bytes) =>
        received := received + bytes;
        r := Ready(bytes);
      case RefuseRead => r := Failed;
      case BlockRead => r := Pending;
    }
  }

  class EncryptedStream {
    const inner: InnerStream
    const cipher: SatelAesCipher
    var idS: byte
    var idR: byte
    var rollingCounter: word
    var readBuffer: seq<byte>
    var rawReadBuffer: seq<byte>
    var expectedRespLen: Option<byte>
    var writeBuffer: seq<byte>

    /** Every packet built so far, and every plaintext byte handed to the caller so far. */
    ghost var messages: seq<Message>
    ghost var delivered: seq<byte>

    /** Every byte of every packet built is on the wire or waiting, once and in order. */
    ghost predicate WriteSide()
      reads this, inner
    {
      Written(cipher.f, inner.wire, writeBuffer, messages, rollingCounter)
    }

    /** Everything received is delivered, decrypted and waiting, or part of the last packet. */
    ghost predicate ReadSide()
      reads this, inner
    {
      Parsed(delivered + readBuffer, expectedRespLen, rawReadBuffer, idR)
        == Parse(cipher.f, 0, inner.received)
    }

    ghost predicate Valid()
      reads this, inner
    {
      WriteSide() && ReadSide()
    }

    constructor (inner: InnerStream, f: BlockFunction)
      requires inner.wire == [] && inner.received == []
      ensures Valid() && this.inner == inner && cipher.f == f
      ensures messages == [] && delivered == []
    {
      this.inner := inner;
      cipher := new SatelAesCipher(f);
      idS, idR, rollingCounter := 0, 0, 0;
      readBuffer, rawReadBuffer, expectedRespLen, writeBuffer := [], [], None, [];
      messages, delivered := [], [];
    }

    // ---------- Writing ----------

    /** The loop shared by `poll_write` (twice) and `poll_flush`. */
    method WriteOut() returns (r: Poll<()>)
      requires Valid()
      modifies this`writeBuffer, inner`wire, inner`writeScript
      ensures Valid()
      ensures (r, writeBuffer, inner.writeScript) == WriteAll(old(inner.writeScript), old(writeBuffer))
      ensures r.Ready? ==> writeBuffer == []
    {
      hide WriteAll, AllPackets, Parse, Number, Numbered;
      WriteAllDone(inner.writeScript);
      while writeBuffer != []
        invariant Valid()
        invariant WriteAll(inner.writeScript, writeBuffer) == WriteAll(old(inner.writeScript), old(writeBuffer))
        decreases |writeBuffer|
      {
        ghost var out := inner.wire;
        WriteAllStep(inner.writeScript, writeBuffer);
        var w := inner.PollWrite(writeBuffer);
        if w == Ready(0) || w.Failed? {
          return Failed;
        } else if w.Pending? {
          return Pending;
        }
        FrontMoves(out, writeBuffer, w.value);
        writeBuffer := writeBuffer[w.value..];
      }
      WriteAllDone(inner.writeScript);
      return Ready(());
    }

    /** `random` and `session` are the pseudo-random header bytes of a packet, if one is built. */
    method PollWrite(buf: seq<byte>, random: word, session: byte) returns (r: Poll<nat>)
      requires Valid()
      modifies this`idS, this`rollingCounter, this`writeBuffer, this`messages, inner`wire, inner`writeScript
      ensures Valid()
      ensures messages == old(messages)
           || messages == old(messages) + [Message(Header(random, old(rollingCounter), session, idR), buf)]
      ensures r.Ready? ==> r.value == |buf|
      ensures var (first, left, script) := WriteAll(old(inner.writeScript), old(writeBuffer));
        if !first.Ready? || buf == [] then
          && messages == old(messages) && writeBuffer == left && inner.writeScript == script
          && r == if first.Ready? then Ready(0) else if first.Failed? then Failed else Pending
        else
          var m := Message(Header(random, old(rollingCounter), session, idR), buf);
          var (second, more, rest) := WriteAll(script, Packet(cipher.f, m));
          && messages == old(messages) + [m] && writeBuffer == more && inner.writeScript == rest
          && r == if second.Failed? then Failed else Ready(|buf|)
    {
      hide WriteAll, AllPackets, Packet, Header;
      var flushed := WriteOut();
      if flushed.Failed? {
        return Failed;
      } else if flushed.Pending? {
        return Pending;
      }
      if buf == [] {
        return Ready(0);
      }
      QueuePacket(buf, random, session);
      var written := WriteOut();
      if written.Failed? {
        return Failed;
      }
      return Ready(|buf|);
    }

    /** Number a new packet and put it, encrypted, into the empty write buffer. */
    method QueuePacket(buf: seq<byte>, random: word, session: byte)
      requires Valid() && writeBuffer == [] && buf != []
      modifies this`idS, this`rollingCounter, this`writeBuffer, this`messages
      ensures Valid()
      ensures messages == old(messages) + [Message(Header(random, old(rollingCounter), session, idR), buf)]
      ensures writeBuffer == Packet(cipher.f, Message(Header(random, old(rollingCounter), session, idR), buf))
    {
      idS := session;
      ghost var m := Message(Header(random, rollingCounter, idS, idR), buf);
      WrittenNext(cipher.f, inner.wire, messages, rollingCounter, m);
      writeBuffer := BuildPacket(Header(random, rollingCounter, idS, idR), buf);
      rollingCounter := NextNumber(rollingCounter);
      messages := messages + [m];
    }

    /** Lay out header, plaintext and zero padding, encrypt in place, add the length byte. */
    method BuildPacket(header: seq<byte>, buf: seq<byte>) returns (packet: seq<byte>)
      requires |header| == HEADER
      ensures packet == Packet(cipher.f, Message(header, buf))
    {
      var bytesCount := if SMALLEST < HEADER + |buf| then HEADER + |buf| else SMALLEST;
      var data := new byte[bytesCount](i => 0);
      forall i | 0 <= i < HEADER {
        data[i] := header[i];
      }
      forall i | 0 <= i < |buf| {
        data[HEADER + i] := buf[i];
      }
      assert data[..] == header + Message(header, buf).Padded();
      cipher.Encrypt(data);
      packet := [bytesCount % 256] + data[..];
    }

    /** `innerFlush` is what flushing the inner stream answers. */
    method PollFlush(innerFlush: Poll<()>) returns (r: Poll<()>)
      requires Valid()
      modifies this`writeBuffer, inner`wire, inner`writeScript
      ensures Valid()
      ensures r.Ready? ==> inner.wire == AllPackets(cipher.f, messages)
      ensures var (written, left, script) := WriteAll(old(inner.writeScript), old(writeBuffer));
        && r == (if written.Ready? then innerFlush else written)
        && writeBuffer == left && inner.writeScript == script
    {
      hide WriteAll;
      r := WriteOut();
      if r.Ready? {
        return innerFlush;
      }
    }

    // ---------- Reading ----------

    /** Plaintext waiting, the unfinished packet, and the sender of the last packet. */
    ghost function State(): Parsed
      reads this
    {
      Parsed(readBuffer, expectedRespLen, rawReadBuffer, idR)
    }

    method PollRead(remaining: nat) returns (r: Poll<seq<byte>>)
      requires Valid()
      modifies this`readBuffer, this`rawReadBuffer, this`expectedRespLen, this`idR, this`delivered
      modifies inner`readScript, inner`received
      ensures Valid()
      ensures delivered == old(delivered) + if r.Ready? then r.value else []
      ensures r.Ready? ==> |r.value| <= remaining
      ensures readBuffer == [] || (r.Ready? && |r.value| == remaining)
      ensures var (result, p, script) := ReadAll(cipher.f, old(State()), old(inner.readScript));
        var n := Min(|p.plain|, remaining);
        && r == (match result case Ready(_) => Ready(p.plain[..n]) case Failed => Failed case Pending => Pending)
        && State() == p.(plain := if r.Ready? then p.plain[n..] else p.plain) && inner.readScript == script
    {
      ghost var all := ReadAll(cipher.f, State(), inner.readScript);
      while true
        invariant Valid() && delivered == old(delivered)
        invariant ReadAll(cipher.f, State(), inner.readScript) == all
        decreases |inner.readScript|
      {
        hide Parse;
        if readBuffer != [] {
          r := Yield(remaining);
          return;
        }
        ghost var before, was := inner.received, State();
        var got := inner.PollRead();
        if got.Failed? {
          return Failed;
        } else if got.Pending? {
          return Pending;
        } else if got.value == [] {
          assert inner.received == before;
          return Ready([]);
        }
        Received(got.value, before);
        ProcessPackets();
        ParsedNext(cipher.f, delivered, was, State(), before, got.value);
        if readBuffer != [] {
          r := Yield(remaining);
          return;
        }
      }
    }

    /** Append newly received bytes to the raw buffer. */
    method Received(bytes: seq<byte>, ghost before: seq<byte>)
      requires WriteSide() && inner.received == before + bytes
      requires Parsed(delivered + readBuffer, expectedRespLen, rawReadBuffer, idR) == Parse(cipher.f, 0, before)
      modifies this`rawReadBuffer
      ensures WriteSide() && Unprocessed()
    {
      ParseAppend(cipher.f, 0, before, bytes);
      CarryAppend(expectedRespLen, rawReadBuffer, bytes);
      rawReadBuffer := rawReadBuffer + bytes;
    }

    method Yield(remaining: nat) returns (r: Poll<seq<byte>>)
      requires Valid()
      modifies this`readBuffer, this`delivered
      ensures Valid()
      ensures delivered == old(delivered) + old(readBuffer)[..Min(|old(readBuffer)|, remaining)]
      ensures r == Ready(old(readBuffer)[..Min(|old(readBuffer)|, remaining)])
      ensures readBuffer == old(readBuffer)[Min(|old(readBuffer)|, remaining)..]
    {
      var toCopy := if |readBuffer| < remaining then |readBuffer| else remaining;
      var out := readBuffer[..toCopy];
      assert delivered + readBuffer == delivered + out + readBuffer[toCopy..];
      delivered := delivered + out;
      readBuffer := readBuffer[toCopy..];
      return Ready(out);
    }

    /** Bytes have been appended to the raw buffer and are not yet looked at. */
    ghost predicate Unprocessed()
      reads this, inner
    {
      Behind(delivered + readBuffer, Parse(cipher.f, idR, Carry(expectedRespLen, rawReadBuffer)))
        == Parse(cipher.f, 0, inner.received)
    }

    /** The inner loop of `poll_read`: cut complete packets off the raw buffer and decrypt them. */
    method ProcessPackets()
      requires WriteSide() && Unprocessed()
      modifies this`readBuffer, this`rawReadBuffer, this`expectedRespLen, this`idR
      ensures Valid()
    {
      var again := true;
      while again
        invariant WriteSide() && Unprocessed()
        invariant !again ==> ReadSide()
        decreases again, |Carry(expectedRespLen, rawReadBuffer)|
      {
        again := NextPacket();
      }
    }

    /** One round of that loop; false where it breaks out. */
    method NextPacket() returns (again: bool)
      requires WriteSide() && Unprocessed()
      modifies this`readBuffer, this`rawReadBuffer, this`expectedRespLen, this`idR
      ensures WriteSide() && Unprocessed()
      ensures !again ==> ReadSide()
      ensures again ==> |Carry(expectedRespLen, rawReadBuffer)| < old(|Carry(expectedRespLen, rawReadBuffer)|)
    {
      hide Parse, Behind, Unwrap, AllPackets;
      TakeLength();
      if expectedRespLen.None? || |rawReadBuffer| < expectedRespLen.value {
        UnfinishedCarry(cipher.f, idR, expectedRespLen, rawReadBuffer, delivered + readBuffer);
        return false;
      }
      var targetLen := expectedRespLen.value;
      CompleteCarry(cipher.f, idR, targetLen, rawReadBuffer);
      var body := rawReadBuffer[..targetLen];
      rawReadBuffer := rawReadBuffer[targetLen..];
      expectedRespLen := None;
      TakePacket(body);
      return true;
    }

    /** Read the length prefix of the next packet, if it is there and not read yet. */
    method TakeLength()
      requires WriteSide() && Unprocessed()
      modifies this`rawReadBuffer, this`expectedRespLen
      ensures WriteSide() && Unprocessed()
      ensures expectedRespLen.None? ==> rawReadBuffer == []
      ensures Carry(expectedRespLen, rawReadBuffer) == old(Carry(expectedRespLen, rawReadBuffer))
    {
      hide Parse, Behind, AllPackets;
      if expectedRespLen.None? && rawReadBuffer != [] {
        var lenPrefix := rawReadBuffer[0];
        assert rawReadBuffer == [lenPrefix] + rawReadBuffer[1..];
        rawReadBuffer := rawReadBuffer[1..];
        expectedRespLen := Some(lenPrefix);
      }
    }

    /** Decrypt one packet; keep its sender id and its plaintext if it has a full header. */
    method TakePacket(body: seq<byte>)
      requires WriteSide()
      requires Behind(delivered + readBuffer,
                 Behind(Unwrap(cipher.f, idR, body).0,
                   Parse(cipher.f, Unwrap(cipher.f, idR, body).1, Carry(expectedRespLen, rawReadBuffer))))
            == Parse(cipher.f, 0, inner.received)
      modifies this`readBuffer, this`idR
      ensures WriteSide() && Unprocessed()
    {
      var packetData := new byte[|body|](i requires 0 <= i < |body| => body[i]);
      assert packetData[..] == body;
      cipher.Decrypt(packetData);
      ghost var u := Unwrap(cipher.f, idR, body);
      ghost var rest := Parse(cipher.f, u.1, Carry(expectedRespLen, rawReadBuffer));
      BehindRegroup(delivered, readBuffer, u.0, rest);
      if packetData.Length >= HEADER {
        idR := packetData[4];
        readBuffer := readBuffer + packetData[HEADER..];
      } else {
        assert readBuffer + u.0 == readBuffer;
      }
    }
  }

  /** More bytes leave what parsing them from the unfinished packet on gives. */
  lemma ParsedNext(f: BlockFunction, delivered: seq<byte>, was: Parsed, now: Parsed, before: seq<byte>,
                   bytes: seq<byte>)
    requires was.plain == []
    requires was.(plain := delivered) == Parse(f, 0, before)
    requires now.(plain := delivered + now.plain) == Parse(f, 0, before + bytes)
    ensures now == Parse(f, was.id, Carry(was.expected, was.raw) + bytes)
  {
    hide Parse;
    ParseAppend(f, 0, before, bytes);
    var p := Parse(f, was.id, Carry(was.expected, was.raw) + bytes);
    assert (delivered + now.plain)[|delivered|..] == now.plain && (delivered + p.plain)[|delivered|..] == p.plain;
  }

  lemma BehindRegroup(a: seq<byte>, b: seq<byte>, c: seq<byte>, p: Parsed)
    ensures Behind(a + b, Behind(c, p)) == Behind(a + (b + c), p)
  {
    BehindTwice(a + b, c, p);
    assert a + b + c == a + (b + c);
  }

  /** Two random bytes, the number of the packet, the session byte, and the sender of the last packet read. */
  function Header(random: word, counter: word, idS: byte, idR: byte): (h: seq<byte>)
    ensures |h| == 6
    ensures BigEndian(h[0], h[1]) == random && BigEndian(h[2], h[3]) == counter
    ensures h[4] == idS && h[5] == idR
  {
    [High(random), Low(random), High(counter), Low(counter), idS, idR]
  }

  /** A packet carries its own number, modulo 65536. */
  predicate Numbered(m: Message, k: nat)
  {
    m.HasHeader() && m.plain != [] && BigEndian(m.header[2], m.header[3]) == Number(k)
  }

  lemma CarryAppend(expected: Option<byte>, raw: seq<byte>, bytes: seq<byte>)
    ensures Carry(expected, raw) + bytes == Carry(expected, raw + bytes)
  {
    if expected.Some? {
      assert [expected.value] + raw + bytes == [expected.value] + (raw + bytes);
    }
  }

  /** `wrapping_add(1)` on the 16-bit rolling counter. */
  function NextNumber(counter: word): word { if counter == 0xFFFF then 0 else counter + 1 }

  function Number(k: nat): word { if k == 0 then 0 else NextNumber(Number(k - 1)) }

  lemma {:induction false} NumberIsModular(k: nat)
    ensures Number(k) == k % 0x1_0000
  {
    if k > 0 {
      NumberIsModular(k - 1);
      NextIsModular(k - 1);
    }
  }

  lemma NextIsModular(k: nat)
    ensures NextNumber(k % 0x1_0000) == (k + 1) % 0x1_0000
  {
    var q, n := k / 0x1_0000, k % 0x1_0000;
    assert k == 0x1_0000 * q + n;
    if n == 0xFFFF {
      assert k + 1 == 0x1_0000 * (q + 1);
    } else {
      assert k + 1 == 0x1_0000 * q + (n + 1);
    }
  }

  /** Wire and buffer hold exactly the packets built, which carry consecutive numbers. */
  ghost predicate Written(f: BlockFunction, wire: seq<byte>, waiting: seq<byte>, messages: seq<Message>, counter: word)
  {
    && wire + waiting == AllPackets(f, messages)
    && counter == Number(|messages|)
    && forall k :: 0 <= k < |messages| ==> Numbered(messages[k], k)
  }

  lemma WrittenNext(f: BlockFunction, wire: seq<byte>, messages: seq<Message>, counter: word, m: Message)
    requires Written(f, wire, [], messages, counter) && Numbered(m, |messages|)
    ensures Written(f, wire, Packet(f, m), messages + [m], NextNumber(counter))
  {
    AllPacketsAppend(f, messages, m);
    assert wire + [] == wire;
  }

  lemma UnfinishedCarry(f: BlockFunction, id: byte, expected: Option<byte>, raw: seq<byte>, plain: seq<byte>)
    requires if expected.None? then raw == [] else |raw| < expected.value
    ensures Behind(plain, Parse(f, id, Carry(expected, raw))) == Parsed(plain, expected, raw, id)
  {
    assert plain + [] == plain;
    if expected.Some? {
      assert ([expected.value] + raw)[1..] == raw;
    }
  }

  lemma CompleteCarry(f: BlockFunction, id: byte, n: byte, raw: seq<byte>)
    requires n <= |raw|
    ensures Parse(f, id, Carry(Some(n), raw))
         == Behind(Unwrap(f, id, raw[..n]).0, Parse(f, Unwrap(f, id, raw[..n]).1, Carry(None, raw[n..])))
  {
    hide Unwrap, Behind;
    FrontOfCarry(n, raw);
  }

  lemma FrontOfCarry(n: byte, raw: seq<byte>)
    requires n <= |raw|
    ensures TakeFront(Carry(Some(n), raw)) == Complete(raw[..n], raw[n..])
  {
    var wire := [n] + raw;
    assert wire[1..n as int + 1] == raw[..n] && wire[n as int + 1..] == raw[n..];
  }
}
