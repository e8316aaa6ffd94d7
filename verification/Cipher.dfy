/** The ETHM-1 cipher mode: blocks chained as in cipher block chaining (section 6.2 of NIST
SP 800-38A) with the encryption of the zero block as first chaining value, and a last partial
block masked with one more encryption of the chaining value.

The AES-192 block function itself (section 5 of FIPS 197) stays uninterpreted: any pair of
functions on 16-byte blocks that undo each other. */
module Cipher {
  import opened Bytes

  const BLOCK := 16

  type block = s: seq<byte> | |s| == BLOCK witness ZERO_BLOCK

  const ZERO_BLOCK: seq<byte> := [0, 0, 0, 0, 0, 0, 0, 0, 0, 0, 0, 0, 0, 0, 0, 0]

  datatype BlockFunction = BlockFunction(enc: block -> block, dec: block -> block)
  {
    ghost predicate IsPermutation()
    {
      forall b: block :: dec(enc(b)) == b && enc(dec(b)) == b
    }

    function FirstChain(): block { enc(ZERO_BLOCK) }
  }

  // ---------- Recursive definition of the mode ----------

  /** Byte-wise exclusive or of `s` with the front of `mask`. */
  function Mask(s: seq<byte>, mask: seq<byte>): (r: seq<byte>)
    requires |s| <= |mask|
    ensures |r| == |s| && forall i :: 0 <= i < |s| ==> r[i] == Xor(s[i], mask[i])
  {
    seq(|s|, i requires 0 <= i < |s| => Xor(s[i], mask[i]))
  }

  function EncryptFrom(f: BlockFunction, chain: block, s: seq<byte>): (r: seq<byte>)
    ensures |r| == |s|
    decreases |s|
  {
    if |s| < BLOCK then Mask(s, f.enc(chain))
    else
      var c := f.enc(Mask(s[..BLOCK], chain));
      c + EncryptFrom(f, c, s[BLOCK..])
  }

  function DecryptFrom(f: BlockFunction, chain: block, s: seq<byte>): (r: seq<byte>)
    ensures |r| == |s|
    decreases |s|
  {
    if |s| < BLOCK then Mask(s, f.enc(chain))
    else Mask(f.dec(s[..BLOCK]), chain) + DecryptFrom(f, s[..BLOCK], s[BLOCK..])
  }

  function Encipher(f: BlockFunction, s: seq<byte>): (r: seq<byte>)
    ensures |r| == |s|
  {
    EncryptFrom(f, f.FirstChain(), s)
  }

  function Decipher(f: BlockFunction, s: seq<byte>): (r: seq<byte>)
    ensures |r| == |s|
  {
    DecryptFrom(f, f.FirstChain(), s)
  }

  // ---------- The two directions undo each other ----------

  lemma MaskTwice(s: seq<byte>, mask: seq<byte>)
    requires |s| <= |mask|
    ensures Mask(Mask(s, mask), mask) == s
  {
    forall i | 0 <= i < |s| ensures Mask(Mask(s, mask), mask)[i] == s[i] {
      XorTwice(s[i], mask[i]);
    }
  }

  lemma {:induction false} DecryptUndoesEncrypt(f: BlockFunction, chain: block, s: seq<byte>)
    requires f.IsPermutation()
    ensures DecryptFrom(f, chain, EncryptFrom(f, chain, s)) == s
    decreases |s|
  {
    if |s| < BLOCK {
      MaskTwice(s, f.enc(chain));
    } else {
      var c: seq<byte> := f.enc(Mask(s[..BLOCK], chain));
      var rest: seq<byte> := EncryptFrom(f, c, s[BLOCK..]);
      assert (c + rest)[..BLOCK] == c && (c + rest)[BLOCK..] == rest;
      MaskTwice(s[..BLOCK], chain);
      DecryptUndoesEncrypt(f, c, s[BLOCK..]);
    }
  }

  lemma {:induction false} EncryptUndoesDecrypt(f: BlockFunction, chain: block, s: seq<byte>)
    requires f.IsPermutation()
    ensures EncryptFrom(f, chain, DecryptFrom(f, chain, s)) == s
    decreases |s|
  {
    if |s| < BLOCK {
      MaskTwice(s, f.enc(chain));
    } else {
      var p := Mask(f.dec(s[..BLOCK]), chain);
      var rest := DecryptFrom(f, s[..BLOCK], s[BLOCK..]);
      assert (p + rest)[..BLOCK] == p && (p + rest)[BLOCK..] == rest;
      MaskTwice(f.dec(s[..BLOCK]), chain);
      EncryptUndoesDecrypt(f, s[..BLOCK], s[BLOCK..]);
    }
  }

  /** Main result: on buffers of every length, encryption and decryption are inverse bijections. */
  lemma CipherRoundTrip(f: BlockFunction, s: seq<byte>)
    requires f.IsPermutation()
    ensures Decipher(f, Encipher(f, s)) == s && Encipher(f, Decipher(f, s)) == s
  {
    DecryptUndoesEncrypt(f, f.FirstChain(), s);
    EncryptUndoesDecrypt(f, f.FirstChain(), s);
  }

  // ---------- The in-place loops ----------

  /** One round of the encryption loop, behind the bytes already written. */
  lemma EncryptFirst(f: BlockFunction, chain: block, s: seq<byte>, done: seq<byte>)
    requires |s| >= BLOCK
    ensures var c := f.enc(Mask(s[..BLOCK], chain));
      done + EncryptFrom(f, chain, s) == (done + c) + EncryptFrom(f, c, s[BLOCK..])
  {
  }

  /** One round of the decryption loop, behind the bytes already written. */
  lemma DecryptFirst(f: BlockFunction, chain: block, s: seq<byte>, done: seq<byte>)
    requires |s| >= BLOCK
    ensures var p := Mask(f.dec(s[..BLOCK]), chain);
      done + DecryptFrom(f, chain, s) == (done + p) + DecryptFrom(f, s[..BLOCK], s[BLOCK..])
  {
  }

  class SatelAesCipher {
    const f: BlockFunction

    constructor (f: BlockFunction)
      ensures this.f == f
    {
      this.f := f;
    }

    /** The loop `for i in 0..count { p[i] ^= cv[i]; }`. */
    static method XorInto(p: seq<byte>, cv: block) returns (r: seq<byte>)
      requires |p| <= BLOCK
      ensures r == Mask(p, cv)
    {
      r := p;
      for i := 0 to |p|
        invariant |r| == |p|
        invariant forall k :: 0 <= k < i ==> r[k] == Xor(p[k], cv[k])
        invariant forall k :: i <= k < |p| ==> r[k] == p[k]
      {
        r := r[i := Xor(r[i], cv[i])];
      }
    }

    /** `buffer[index..index + |p|].copy_from_slice(p)`. */
    static method CopyFromSlice(buffer: array<byte>, index: nat, p: seq<byte>)
      requires index + |p| <= buffer.Length
      modifies buffer
      ensures buffer[..] == old(buffer[..index]) + p + old(buffer[index + |p|..])
    {
      forall i | 0 <= i < |p| {
        buffer[index + i] := p[i];
      }
    }

    /** One full block of the encryption loop; the ciphertext is the next chaining value. */
    method EncryptBlock(buffer: array<byte>, index: nat, cv: block) returns (next: block)
      requires index + BLOCK <= buffer.Length
      modifies buffer
      ensures next == f.enc(Mask(old(buffer[index..index + BLOCK]), cv))
      ensures buffer[..] == old(buffer[..index]) + next + old(buffer[index + BLOCK..])
    {
      var p := XorInto(buffer[index..index + 16], cv);
      p := f.enc(p);
      CopyFromSlice(buffer, index, p);
      next := p;
    }

    /** One full block of the decryption loop; the ciphertext is the next chaining value. */
    method DecryptBlock(buffer: array<byte>, index: nat, cv: block) returns (next: block)
      requires index + BLOCK <= buffer.Length
      modifies buffer
      ensures next == old(buffer[index..index + BLOCK])
      ensures buffer[..] == old(buffer[..index]) + Mask(f.dec(next), cv) + old(buffer[index + BLOCK..])
    {
      var temp: block := buffer[index..index + 16];
      var c := XorInto(f.dec(temp), cv);
      CopyFromSlice(buffer, index, c);
      next := temp;
    }

    /** The last partial block, masked with one more encryption, in both loops. */
    method MaskTail(buffer: array<byte>, index: nat, cv: block)
      requires index <= buffer.Length < index + BLOCK
      modifies buffer
      ensures buffer[..] == old(buffer[..index]) + Mask(old(buffer[index..]), f.enc(cv))
    {
      var p := XorInto(buffer[index..buffer.Length], f.enc(cv));
      assert buffer[index..buffer.Length] == buffer[index..];
      CopyFromSlice(buffer, index, p);
    }

    method Encrypt(buffer: array<byte>)
      modifies buffer
      ensures buffer[..] == Encipher(f, old(buffer[..]))
    {
      hide EncryptFrom, Mask;
      ghost var plain, done := buffer[..], [];
      var cv: block := f.enc(ZERO_BLOCK);
      var index: nat, count: nat := 0, buffer.Length;
      Whole(plain);
      if count == 0 {
        EncryptLast(f, cv, plain);
        NoTail(buffer[..], done, plain, f.enc(cv));
      }
      while count > 0
        invariant count > 0 ==> |done| == index && index + count == |plain| == buffer.Length
        invariant count > 0 ==> buffer[..] == done + plain[index..]
        invariant count > 0 ==> done + EncryptFrom(f, cv, plain[index..]) == Encipher(f, plain)
        invariant count == 0 ==> buffer[..] == Encipher(f, plain)
      {
        if count > 15 {
          NextBlock(buffer[..], done, plain, index);
          EncryptFirst(f, cv, plain[index..], done);
          count := count - 16;
          cv := EncryptBlock(buffer, index, cv);
          done := done + cv;
          index := index + 16;
          if count == 0 {
            EncryptLast(f, cv, plain[index..]);
            NoTail(buffer[..], done, plain[index..], f.enc(cv));
          }
        } else {
          LastBlock(buffer[..], done, plain, index);
          EncryptLast(f, cv, plain[index..]);
          MaskTail(buffer, index, cv);
          count := 0;
        }
      }
    }

    method Decrypt(buffer: array<byte>)
      modifies buffer
      ensures buffer[..] == Decipher(f, old(buffer[..]))
    {
      hide DecryptFrom, Mask;
      ghost var wire, done := buffer[..], [];
      var cv: block := f.enc(ZERO_BLOCK);
      var index: nat, count: nat := 0, buffer.Length;
      Whole(wire);
      if count == 0 {
        DecryptLast(f, cv, wire);
        NoTail(buffer[..], done, wire, f.enc(cv));
      }
      while count > 0
        invariant count > 0 ==> |done| == index && index + count == |wire| == buffer.Length
        invariant count > 0 ==> buffer[..] == done + wire[index..]
        invariant count > 0 ==> done + DecryptFrom(f, cv, wire[index..]) == Decipher(f, wire)
        invariant count == 0 ==> buffer[..] == Decipher(f, wire)
      {
        if count > 15 {
          NextBlock(buffer[..], done, wire, index);
          DecryptFirst(f, cv, wire[index..], done);
          count := count - 16;
          ghost var p := Mask(f.dec(wire[index..][..BLOCK]), cv);
          cv := DecryptBlock(buffer, index, cv);
          done := done + p;
          index := index + 16;
          if count == 0 {
            DecryptLast(f, cv, wire[index..]);
            NoTail(buffer[..], done, wire[index..], f.enc(cv));
          }
        } else {
          LastBlock(buffer[..], done, wire, index);
          DecryptLast(f, cv, wire[index..]);
          MaskTail(buffer, index, cv);
          count := 0;
        }
      }
    }
  }

  // ---------- A buffer whose front is done ----------

  lemma Whole(s: seq<byte>)
    ensures s[0..] == s && [] + s == s
  {
  }

  lemma NextBlock(buffer: seq<byte>, done: seq<byte>, s: seq<byte>, index: nat)
    requires index + BLOCK <= |s| && |done| == index && buffer == done + s[index..]
    ensures buffer[..index] == done && buffer[index..index + BLOCK] == s[index..][..BLOCK]
    ensures buffer[index + BLOCK..] == s[index..][BLOCK..] == s[index + BLOCK..]
  {
  }

  lemma LastBlock(buffer: seq<byte>, done: seq<byte>, s: seq<byte>, index: nat)
    requires index <= |s| && |done| == index && buffer == done + s[index..]
    ensures buffer[..index] == done && buffer[index..] == s[index..]
  {
  }

  lemma EncryptLast(f: BlockFunction, chain: block, s: seq<byte>)
    requires |s| < BLOCK
    ensures EncryptFrom(f, chain, s) == Mask(s, f.enc(chain))
  {
  }

  lemma DecryptLast(f: BlockFunction, chain: block, s: seq<byte>)
    requires |s| < BLOCK
    ensures DecryptFrom(f, chain, s) == Mask(s, f.enc(chain))
  {
  }

  lemma NoTail(buffer: seq<byte>, done: seq<byte>, tail: seq<byte>, mask: block)
    requires tail == [] && buffer == done + tail
    ensures buffer == done + Mask(tail, mask)
  {
  }
}
