/** The cipher mode block by block: where each block of a ciphertext comes from. A round trip alone does
not show it, since any chaining value that both directions share comes back. */
module CipherMode {
  import opened Bytes
  import opened Cipher

  /** Block `i` of a buffer, and the bytes behind its last full block. */
  function BlockAt(s: seq<byte>, i: nat): block
    requires 16 * i + 16 <= |s|
  {
    s[16 * i..16 * i + 16]
  }

  function TailOf(s: seq<byte>): (t: seq<byte>)
    ensures |t| < 16
  {
    s[16 * (|s| / 16)..]
  }

  /** What block `i` is chained to: the ciphertext block before it, or, for the first one, the encryption
  of sixteen zeros. */
  function ChainedTo(f: BlockFunction, cipher: seq<byte>, i: nat): block
    requires 16 * i <= |cipher|
  {
    if i == 0 then f.enc([0, 0, 0, 0, 0, 0, 0, 0, 0, 0, 0, 0, 0, 0, 0, 0]) else BlockAt(cipher, i - 1)
  }

  // ---------- From any chaining value on ----------

  function Chain(chain: block, cipher: seq<byte>, i: nat): block
    requires 16 * i <= |cipher|
  {
    if i == 0 then chain else BlockAt(cipher, i - 1)
  }

  /** Behind the first block everything is one block further on. */
  lemma OneBlockOn(first: seq<byte>, rest: seq<byte>, i: nat)
    requires |first| == 16 && 1 <= i && 16 * i + 16 <= 16 + |rest|
    ensures BlockAt(first + rest, i) == BlockAt(rest, i - 1)
  {
  }

  lemma TailBehind(first: seq<byte>, rest: seq<byte>)
    requires |first| == 16
    ensures TailOf(first + rest) == TailOf(rest)
  {
    assert |first + rest| / 16 == |rest| / 16 + 1;
  }

  lemma ChainOn(first: seq<byte>, chain: block, rest: seq<byte>, i: nat)
    requires |first| == 16 && 1 <= i && 16 * i <= 16 + |rest|
    ensures Chain(chain, first + rest, i) == Chain(first, rest, i - 1)
  {
    if i == 1 {
      assert BlockAt(first + rest, 0) == first;
    } else {
      OneBlockOn(first, rest, i - 1);
    }
  }

  lemma {:induction false} EncryptedFrom(f: BlockFunction, chain: block, s: seq<byte>, i: nat)
    requires 16 * i + 16 <= |s|
    ensures var c := EncryptFrom(f, chain, s); BlockAt(c, i) == f.enc(Mask(BlockAt(s, i), Chain(chain, c, i)))
    decreases |s|
  {
    hide Mask;
    var first: block := f.enc(Mask(s[..BLOCK], chain));
    var rest := EncryptFrom(f, first, s[BLOCK..]);
    assert EncryptFrom(f, chain, s) == first + rest && BlockAt(first + rest, 0) == first;
    if i > 0 {
      EncryptedFrom(f, first, s[BLOCK..], i - 1);
      OneBlockOn(first, rest, i);
      ChainOn(first, chain, rest, i);
      assert s == s[..BLOCK] + s[BLOCK..];
      OneBlockOn(s[..BLOCK], s[BLOCK..], i);
    }
  }

  lemma {:induction false} EncryptedTailFrom(f: BlockFunction, chain: block, s: seq<byte>)
    ensures var c := EncryptFrom(f, chain, s); TailOf(c) == Mask(TailOf(s), f.enc(Chain(chain, c, |s| / 16)))
    decreases |s|
  {
    hide Mask;
    if |s| < BLOCK {
      assert s[0..] == s && TailOf(s) == s;
      assert TailOf(EncryptFrom(f, chain, s)) == EncryptFrom(f, chain, s);
    } else {
      var first: block := f.enc(Mask(s[..BLOCK], chain));
      var rest := EncryptFrom(f, first, s[BLOCK..]);
      assert EncryptFrom(f, chain, s) == first + rest;
      EncryptedTailFrom(f, first, s[BLOCK..]);
      TailBehind(first, rest);
      ChainOn(first, chain, rest, |s| / 16);
      assert s == s[..BLOCK] + s[BLOCK..];
      TailBehind(s[..BLOCK], s[BLOCK..]);
    }
  }

  lemma {:induction false} DecryptedFrom(f: BlockFunction, chain: block, c: seq<byte>, i: nat)
    requires 16 * i + 16 <= |c|
    ensures BlockAt(DecryptFrom(f, chain, c), i) == Mask(f.dec(BlockAt(c, i)), Chain(chain, c, i))
    decreases |c|
  {
    hide Mask;
    var first := Mask(f.dec(c[..BLOCK]), chain);
    var rest := DecryptFrom(f, c[..BLOCK], c[BLOCK..]);
    assert |first| == 16 by { MaskLength(f.dec(c[..BLOCK]), chain); }
    assert DecryptFrom(f, chain, c) == first + rest && BlockAt(first + rest, 0) == first;
    assert c == c[..BLOCK] + c[BLOCK..];
    if i > 0 {
      DecryptedFrom(f, c[..BLOCK], c[BLOCK..], i - 1);
      OneBlockOn(first, rest, i);
      ChainOn(c[..BLOCK], chain, c[BLOCK..], i);
      OneBlockOn(c[..BLOCK], c[BLOCK..], i);
    }
  }

  lemma MaskLength(s: seq<byte>, mask: seq<byte>)
    requires |s| <= |mask|
    ensures |Mask(s, mask)| == |s|
  {
  }

  lemma {:induction false} DecryptedTailFrom(f: BlockFunction, chain: block, c: seq<byte>)
    ensures TailOf(DecryptFrom(f, chain, c)) == Mask(TailOf(c), f.enc(Chain(chain, c, |c| / 16)))
    decreases |c|
  {
    hide Mask;
    if |c| < BLOCK {
      assert c[0..] == c && TailOf(c) == c;
      assert TailOf(DecryptFrom(f, chain, c)) == DecryptFrom(f, chain, c);
    } else {
      var first := Mask(f.dec(c[..BLOCK]), chain);
      var rest := DecryptFrom(f, c[..BLOCK], c[BLOCK..]);
      assert |first| == 16 by { MaskLength(f.dec(c[..BLOCK]), chain); }
      assert DecryptFrom(f, chain, c) == first + rest;
      assert c == c[..BLOCK] + c[BLOCK..];
      DecryptedTailFrom(f, c[..BLOCK], c[BLOCK..]);
      TailBehind(first, rest);
      TailBehind(c[..BLOCK], c[BLOCK..]);
      ChainOn(c[..BLOCK], chain, c[BLOCK..], |c| / 16);
    }
  }

  // ---------- The mode ----------

  /** Main result: each full block of a ciphertext is the encryption of its plaintext block masked with
  the ciphertext block before it, the first one with the encryption of the zero block; and what is left
  over is masked with one more encryption of the last ciphertext block, or of that first value. */
  lemma EncipheredBlocks(f: BlockFunction, s: seq<byte>)
    ensures var c := Encipher(f, s);
      && (forall i: nat :: 16 * i + 16 <= |s| ==> BlockAt(c, i) == f.enc(Mask(BlockAt(s, i), ChainedTo(f, c, i))))
      && TailOf(c) == Mask(TailOf(s), f.enc(ChainedTo(f, c, |s| / 16)))
  {
    hide EncryptFrom, Mask;
    var c := Encipher(f, s);
    forall i: nat | 16 * i + 16 <= |s|
      ensures BlockAt(c, i) == f.enc(Mask(BlockAt(s, i), ChainedTo(f, c, i)))
    {
      EncryptedFrom(f, f.FirstChain(), s, i);
    }
    EncryptedTailFrom(f, f.FirstChain(), s);
  }

  /** Main result: each full block of a plaintext is the decryption of its ciphertext block, masked in the
  same way; the rest is masked as when it was encrypted. */
  lemma DecipheredBlocks(f: BlockFunction, c: seq<byte>)
    ensures var s := Decipher(f, c);
      && (forall i: nat :: 16 * i + 16 <= |c| ==> BlockAt(s, i) == Mask(f.dec(BlockAt(c, i)), ChainedTo(f, c, i)))
      && TailOf(s) == Mask(TailOf(c), f.enc(ChainedTo(f, c, |c| / 16)))
  {
    hide DecryptFrom, Mask;
    var s := Decipher(f, c);
    forall i: nat | 16 * i + 16 <= |c|
      ensures BlockAt(s, i) == Mask(f.dec(BlockAt(c, i)), ChainedTo(f, c, i))
    {
      DecryptedFrom(f, f.FirstChain(), c, i);
    }
    DecryptedTailFrom(f, f.FirstChain(), c);
  }

  // ---------- Masking, bit by bit ----------

  lemma {:induction false} XorBit(a: nat, b: nat, bits: nat, k: nat)
    requires k < bits
    ensures HasBit(XorBits(a, b, bits), k) <==> HasBit(a, k) != HasBit(b, k)
  {
    var x, y := XorBits(a / 2, b / 2, bits - 1), (a % 2 + b % 2) % 2;
    assert (2 * x + y) / 2 == x && (2 * x + y) % 2 == y;
    if k > 0 {
      XorBit(a / 2, b / 2, bits - 1, k - 1);
    }
  }

  /** A masked byte has just the bits in which the byte and its mask differ. */
  lemma MaskedBits(s: seq<byte>, mask: seq<byte>, i: nat, k: nat)
    requires i < |s| <= |mask| && k < 8
    ensures HasBit(Mask(s, mask)[i], k) <==> HasBit(s[i], k) != HasBit(mask[i], k)
  {
    XorBit(s[i], mask[i], 8, k);
  }
}
