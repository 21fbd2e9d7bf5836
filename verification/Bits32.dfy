/**
 * 32-bit words as numbers below 2^32, with the bitwise operators defined bit by bit.
 * Shared by the FIPS 180-4 specification and the model of JavaScript's operators.
 */
module Bits32 {

  const TWO32: nat := 0x1_0000_0000

  type Word = w: nat | w < TWO32
  type Byte = b: nat | b < 256
  type Bytes = seq<Byte>

  /** A word is a number mod 2^32: the reduction of FIPS 180-4 section 3.2 and of ToUint32. */
  function Reduce(x: int): Word { x % TWO32 }

  datatype BitOp = AND | OR | XOR
  {
    function Bit(x: nat, y: nat): (r: nat)
      requires x < 2 && y < 2
      ensures r < 2
    {
      match this
      case AND => if x == 1 && y == 1 then 1 else 0
      case OR => if x == 1 || y == 1 then 1 else 0
      case XOR => if x != y then 1 else 0
    }
  }

  function Pow2(n: nat): (r: nat)
    ensures r > 0
  {
    if n == 0 then 1 else 2 * Pow2(n - 1)
  }

  /** Bit i of the result is `op` of bits i of the operands, for i below `width`. */
  function Bitwise(op: BitOp, x: nat, y: nat, width: nat): (r: nat)
    ensures r < Pow2(width)
    decreases width, x
  {
    if width == 0 then 0 else 2 * Bitwise(op, x / 2, y / 2, width - 1) + op.Bit(x % 2, y % 2)
  }

  lemma Pow32()
    ensures Pow2(32) == TWO32
  {
    assert Pow2(8) == 256;
    assert Pow2(16) == 0x1_0000;
    assert Pow2(24) == 0x100_0000;
  }

  function Word32(op: BitOp, x: Word, y: Word): Word
  {
    Pow32();
    Bitwise(op, x, y, 32)
  }

  function And(x: Word, y: Word): Word { Word32(AND, x, y) }
  function Or(x: Word, y: Word): Word { Word32(OR, x, y) }
  function Xor(x: Word, y: Word): Word { Word32(XOR, x, y) }
  function Not(x: Word): Word { TWO32 - 1 - x }

  /** Left shift, dropping the bits pushed out. */
  function Shl(x: Word, n: nat): Word
    decreases n, x
  {
    if n == 0 then x else 2 * Shl(x, n - 1) % TWO32
  }

  /** Right shift, filling with zeros. */
  function Shr(x: Word, n: nat): Word
    decreases n, x
  {
    if n == 0 then x else Shr(x, n - 1) / 2
  }

  lemma {:induction false} OrZero(x: nat, width: nat)
    requires x < Pow2(width)
    ensures Bitwise(OR, x, 0, width) == x
    decreases width
  {
    if width > 0 {
      OrZero(x / 2, width - 1);
    }
  }

  /** OR of numbers without common bits is their sum. */
  lemma {:induction false} OrDisjoint(q: nat, low: nat, k: nat, width: nat)
    requires low < Pow2(k) && q * Pow2(k) + low < Pow2(width)
    ensures Bitwise(OR, q * Pow2(k), low, width) == q * Pow2(k) + low
    decreases k
  {
    var high := q * Pow2(k);
    if k == 0 {
      OrZero(high, width);
    } else if width > 0 {
      assert high == 2 * (q * Pow2(k - 1));
      OrDisjoint(q, low / 2, k - 1, width - 1);
    }
  }

  lemma {:induction false} ShlIsProduct(x: Word, n: nat)
    requires x * Pow2(n) < TWO32
    ensures Shl(x, n) == x * Pow2(n)
  {
    if n > 0 {
      TwiceProduct(x, Pow2(n - 1));
      ShlIsProduct(x, n - 1);
    }
  }

  lemma TwiceProduct(x: nat, p: nat)
    ensures x * (2 * p) == 2 * (x * p)
  {
  }

  /** Eight single-bit shifts divide by 256. */
  lemma ShrByte(x: Word, n: nat)
    ensures Shr(x, n + 8) == Shr(x, n) / 256
  {
    assert Shr(x, n + 1) == Shr(x, n) / 2;
    assert Shr(x, n + 2) == Shr(x, n + 1) / 2;
    assert Shr(x, n + 3) == Shr(x, n + 2) / 2;
    assert Shr(x, n + 4) == Shr(x, n + 3) / 2;
    assert Shr(x, n + 5) == Shr(x, n + 4) / 2;
    assert Shr(x, n + 6) == Shr(x, n + 5) / 2;
    assert Shr(x, n + 7) == Shr(x, n + 6) / 2;
    assert Shr(x, n + 8) == Shr(x, n + 7) / 2;
  }

  lemma ShrBytes(x: Word)
    ensures Shr(x, 0) == x && Shr(x, 8) == x / 0x100 && Shr(x, 16) == x / 0x1_0000 && Shr(x, 24) == x / 0x100_0000
  {
    hide Shr;
    ShrZero(x);
    ShrByte(x, 0);
    ShrByte(x, 8);
    ShrByte(x, 16);
  }

  lemma ShrZero(x: Word)
    ensures Shr(x, 0) == x
  {
  }

  lemma {:induction false} AndNothing(x: nat, width: nat)
    ensures Bitwise(AND, x, 0, width) == 0
    decreases width
  {
    if width > 0 {
      AndNothing(x / 2, width - 1);
    }
  }

  lemma AndStep(x: nat, mask: nat, width: nat)
    requires width > 0
    ensures Bitwise(AND, x, 2 * mask + 1, width) == 2 * Bitwise(AND, x / 2, mask, width - 1) + x % 2
  {
  }

  lemma NibbleDigits(x: nat)
    ensures x / 2 / 2 == x / 4 && x / 4 / 2 == x / 8 && x / 8 / 2 == x / 16
    ensures x % 16 == x % 2 + 2 * (x / 2 % 2) + 4 * (x / 4 % 2) + 8 * (x / 8 % 2)
  {
  }

  lemma AndNibble(x: nat, mask: nat, width: nat)
    requires width >= 4
    ensures Bitwise(AND, x, 16 * mask + 15, width) == 16 * Bitwise(AND, x / 16, mask, width - 4) + x % 16
  {
    hide Bitwise;
    NibbleDigits(x);
    AndStep(x, 8 * mask + 7, width);
    AndStep(x / 2, 4 * mask + 3, width - 1);
    AndStep(x / 4, 2 * mask + 1, width - 2);
    AndStep(x / 8, mask, width - 3);
  }

  /** AND with 255 keeps the low byte. */
  lemma AndByte(x: Word)
    ensures And(x, 255) == x % 256
  {
    hide Bitwise;
    AndNibble(x, 15, 32);
    AndNibble(x / 16, 0, 28);
    AndNothing(x / 256, 24);
  }
}
