/** Machine-sized values, single bits and the growable byte buffer shared by the wire modules.

Bytes and words are bounded integers; every truncation the program performs is written out
as a division or a remainder. */
module Bytes {

  type byte = i: int | 0 <= i < 256
  type word = i: int | 0 <= i < 0x1_0000
  type counter = i: int | 0 <= i < 0x1_0000_0000_0000_0000

  datatype Option<+T> = None | Some(value: T)

  function Min(a: nat, b: nat): nat { if a <= b then a else b }

  // ---------- Bits ----------

  function PowerOfTwo(n: nat): (p: nat)
    ensures 1 <= p
  {
    if n == 0 then 1 else 2 * PowerOfTwo(n - 1)
  }

  /** `b & (1 << bit) != 0`. The powers are spelled out so that a constant bit costs nothing. */
  predicate Bit(b: byte, bit: nat)
    requires bit < 8
  {
    var weight := match bit
      case 0 => 1 case 1 => 2 case 2 => 4 case 3 => 8
      case 4 => 16 case 5 => 32 case 6 => 64 case _ => 128;
    (b / weight) % 2 == 1
  }

  /** Bit `pos` of a byte string, least significant bit of the first byte first. */
  predicate BitAt(data: seq<byte>, pos: nat)
    requires pos < 8 * |data|
  {
    Bit(data[pos / 8], pos % 8)
  }

  /** Bit `k` of any number, least significant bit first. */
  predicate HasBit(n: nat, k: nat)
  {
    if k == 0 then n % 2 == 1 else HasBit(n / 2, k - 1)
  }

  lemma BitIsBinary(b: byte, bit: nat)
    requires bit < 8
    ensures Bit(b, bit) <==> HasBit(b, bit)
  {
    hide Bit, HasBit;
    if bit < 4 {
      LowBitIsBinary(b, bit);
    } else {
      assert b / 2 / 2 / 2 / 2 == b / 16;
      HighBit(b, bit);
      LowBitIsBinary(b / 16, bit - 4);
      HasBitFurther(b, bit);
    }
  }

  lemma LowBitIsBinary(b: byte, bit: nat)
    requires bit < 4
    ensures Bit(b, bit) <==> HasBit(b, bit)
  {
    assert b / 4 == b / 2 / 2 && b / 8 == b / 2 / 2 / 2;
  }

  lemma HighBit(b: byte, bit: nat)
    requires 4 <= bit < 8
    ensures Bit(b, bit) == Bit(b / 16, bit - 4)
  {
    assert b / 32 == b / 16 / 2 && b / 64 == b / 16 / 4 && b / 128 == b / 16 / 8;
  }

  /** Four places further on. */
  lemma HasBitFurther(n: nat, k: nat)
    requires k >= 4
    ensures HasBit(n, k) == HasBit(n / 2 / 2 / 2 / 2, k - 4)
  {
    assert HasBit(n, k) == HasBit(n / 2, k - 1) == HasBit(n / 2 / 2, k - 2);
    assert HasBit(n / 2 / 2, k - 2) == HasBit(n / 2 / 2 / 2, k - 3) == HasBit(n / 2 / 2 / 2 / 2, k - 4);
  }

  /** Bits tell a number. */
  lemma {:induction false} BitsDetermine(a: nat, b: nat, n: nat)
    requires a < PowerOfTwo(n) && b < PowerOfTwo(n)
    requires forall k :: 0 <= k < n ==> HasBit(a, k) == HasBit(b, k)
    ensures a == b
  {
    if n > 0 {
      forall k | 0 <= k < n - 1 ensures HasBit(a / 2, k) == HasBit(b / 2, k) {
        assert HasBit(a, k + 1) == HasBit(b, k + 1);
      }
      BitsDetermine(a / 2, b / 2, n - 1);
      assert HasBit(a, 0) == HasBit(b, 0);
    }
  }

  lemma {:induction false} WithoutTopBit(w: nat, n: nat, k: nat)
    requires k < n && PowerOfTwo(n) <= w
    ensures HasBit(w - PowerOfTwo(n), k) == HasBit(w, k)
  {
    assert PowerOfTwo(n) == 2 * PowerOfTwo(n - 1);
    assert (w - PowerOfTwo(n)) / 2 == w / 2 - PowerOfTwo(n - 1);
    if k > 0 {
      WithoutTopBit(w / 2, n - 1, k - 1);
    }
  }

  lemma PowerOfSix()
    ensures PowerOfTwo(6) == 64
  {
    assert PowerOfTwo(3) == 8;
  }

  /** A remainder modulo 64 has the six low bits. */
  lemma {:induction false} RemainderBit(n: nat, k: nat)
    requires k < 6
    ensures HasBit(n % 64, k) == HasBit(n, k)
  {
    hide HasBit;
    if n >= 64 {
      PowerOfSix();
      WithoutTopBit(n, 6, k);
      RemainderBit(n - 64, k);
      assert n % 64 == (n - 64) % 64;
    } else {
      assert n % 64 == n;
    }
  }

  lemma BitsTellByte(x: byte, y: byte)
    requires forall k :: 0 <= k < 8 ==> Bit(x, k) == Bit(y, k)
    ensures x == y
  {
    hide Bit, HasBit;
    forall k | 0 <= k < 8 ensures HasBit(x, k) == HasBit(y, k) {
      BitIsBinary(x, k);
      BitIsBinary(y, k);
    }
    PowerOfEight();
    BitsDetermine(x, y, 8);
  }

  /** The six low bits are those of the remainder. */
  lemma LowBitsTell(x: byte, y: byte)
    ensures x % 64 == y % 64 <==> forall k :: 0 <= k < 6 ==> Bit(x, k) == Bit(y, k)
  {
    hide Bit, HasBit;
    forall k | 0 <= k < 6 ensures Bit(x, k) == HasBit(x % 64, k) && Bit(y, k) == HasBit(y % 64, k) {
      BitIsBinary(x, k);
      BitIsBinary(y, k);
      RemainderBit(x, k);
      RemainderBit(y, k);
    }
    if forall k :: 0 <= k < 6 ==> Bit(x, k) == Bit(y, k) {
      PowerOfSix();
      forall k | 0 <= k < 6 ensures HasBit(x % 64, k) == HasBit(y % 64, k) {
        assert Bit(x, k) == Bit(y, k);
      }
      BitsDetermine(x % 64, y % 64, 6);
    }
  }

  lemma LowNibble(low: nat, high: nat)
    requires low < 16 && high < 16
    ensures var b := low + 16 * high;
      && (Bit(b, 0) <==> low % 2 == 1) && (Bit(b, 1) <==> low / 2 % 2 == 1)
      && (Bit(b, 2) <==> low / 4 % 2 == 1) && (Bit(b, 3) <==> low / 8 % 2 == 1)
  {
    var b := low + 16 * high;
    assert b / 2 == low / 2 + 8 * high && b / 4 == low / 4 + 4 * high && b / 8 == low / 8 + 2 * high;
  }

  lemma HighNibble(low: nat, high: nat)
    requires low < 16 && high < 16
    ensures var b := low + 16 * high;
      && (Bit(b, 4) <==> high % 2 == 1) && (Bit(b, 5) <==> high / 2 % 2 == 1)
      && (Bit(b, 6) <==> high / 4 % 2 == 1) && (Bit(b, 7) <==> high / 8 % 2 == 1)
  {
    var b := low + 16 * high;
    assert b / 16 == high;
    assert b / 32 == high / 2 && b / 64 == high / 4 && b / 128 == high / 8;
  }

  lemma NibbleClear(n: nat)
    requires n < 16
    ensures n == 0 <==> n % 2 == 0 && n / 2 % 2 == 0 && n / 4 % 2 == 0 && n / 8 % 2 == 0
  {
  }

  /** A byte is zero exactly when none of its bits is set. */
  lemma NonZeroByte(b: byte)
    ensures b != 0 <==> exists bit :: 0 <= bit < 8 && Bit(b, bit)
  {
    hide Bit;
    var low, high := b % 16, b / 16;
    assert b == low + 16 * high;
    LowNibble(low, high);
    HighNibble(low, high);
    NibbleClear(low);
    NibbleClear(high);
  }

  // ---------- Words ----------

  function High(w: word): byte { w / 256 }

  function Low(w: word): byte { w % 256 }

  function BigEndian(high: byte, low: byte): word { high * 256 + low }

  const COUNTER_MODULUS := 0x1_0000_0000_0000_0000

  /** `fetch_add(1)` on a 64-bit counter, which wraps. */
  function Bump(c: counter): counter { if c == COUNTER_MODULUS - 1 then 0 else c + 1 }

  function BumpBy(c: counter, times: nat): counter
    decreases times
  {
    if times == 0 then c else BumpBy(Bump(c), times - 1)
  }

  lemma {:induction false} BumpByIsModular(c: counter, times: nat)
    ensures BumpBy(c, times) == (c + times) % COUNTER_MODULUS
    decreases times
  {
    if times > 0 {
      BumpByIsModular(Bump(c), times - 1);
    }
  }

  /** Sixteen-bit `wrapping_add`. */
  function AddWrapping(a: word, b: word): word
  {
    if a + b < 0x1_0000 then a + b else a + b - 0x1_0000
  }

  // ---------- Exclusive or ----------

  function XorBits(a: nat, b: nat, bits: nat): (r: nat)
    ensures r < PowerOfTwo(bits)
  {
    if bits == 0 then 0 else 2 * XorBits(a / 2, b / 2, bits - 1) + (a % 2 + b % 2) % 2
  }

  function Xor(a: byte, b: byte): byte
  {
    assert PowerOfTwo(8) == 256 by { PowerOfEight(); }
    XorBits(a, b, 8)
  }

  lemma PowerOfEight()
    ensures PowerOfTwo(8) == 256
  {
    assert PowerOfTwo(4) == 16;
    assert PowerOfTwo(8) == 16 * PowerOfTwo(4);
  }

  lemma {:induction false} XorBitsTwice(a: nat, b: nat, bits: nat)
    requires a < PowerOfTwo(bits)
    ensures XorBits(XorBits(a, b, bits), b, bits) == a
  {
    if bits > 0 {
      var x, y := XorBits(a / 2, b / 2, bits - 1), (a % 2 + b % 2) % 2;
      var once := 2 * x + y;
      assert once / 2 == x && once % 2 == y;
      assert (y + b % 2) % 2 == a % 2;
      XorBitsTwice(a / 2, b / 2, bits - 1);
    }
  }

  lemma XorTwice(a: byte, b: byte)
    ensures Xor(Xor(a, b), b) == a
  {
    PowerOfEight();
    XorBitsTwice(a, b, 8);
  }

  // ---------- Growable buffer ----------

  /** The part of `BytesMut` the program relies on: append at the back, take from the front. */
  class ByteBuffer {
    var data: seq<byte>

    constructor (initial: seq<byte>)
      ensures data == initial
    {
      data := initial;
    }

    method Extend(more: seq<byte>)
      modifies this
      ensures data == old(data) + more
    {
      data := data + more;
    }

    method Advance(count: nat)
      requires count <= |data|
      modifies this
      ensures data == old(data)[count..]
    {
      data := data[count..];
    }

    method SplitTo(count: nat) returns (front: seq<byte>)
      requires count <= |data|
      modifies this
      ensures front == old(data)[..count] && data == old(data)[count..]
    {
      front := data[..count];
      data := data[count..];
    }
  }
}
