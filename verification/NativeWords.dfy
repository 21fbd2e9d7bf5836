/**
 * The words of `Bits32` against Dafny's own 32-bit vectors: every operator the hash uses is the
 * machine operator. Conversions go byte by byte, where the solver can follow them.
 */
module NativeWords {
  import opened Bits32

  function B0(x: bv32): bv8 { (x & 0xFF) as bv8 }
  function B1(x: bv32): bv8 { ((x >> 8) & 0xFF) as bv8 }
  function B2(x: bv32): bv8 { ((x >> 16) & 0xFF) as bv8 }
  function B3(x: bv32): bv8 { ((x >> 24) & 0xFF) as bv8 }

  /** The number a machine byte stands for. */
  function Of(b: bv8): Byte { b as int }

  function Number(b3: Byte, b2: Byte, b1: Byte, b0: Byte): Word
  {
    b3 as int * 0x100_0000 + b2 as int * 0x1_0000 + b1 as int * 0x100 + b0 as int
  }

  /** The number a machine word stands for. */
  function Value(x: bv32): Word { Number(Of(B3(x)), Of(B2(x)), Of(B1(x)), Of(B0(x))) }

  // ------------------------------------------------------------ bitwise operators

  function And8(x: bv8, y: bv8): bv8 { x & y }
  function Or8(x: bv8, y: bv8): bv8 { x | y }
  function Xor8(x: bv8, y: bv8): bv8 { x ^ y }
  function And32(x: bv32, y: bv32): bv32 { x & y }
  function Or32(x: bv32, y: bv32): bv32 { x | y }
  function Xor32(x: bv32, y: bv32): bv32 { x ^ y }

  function Native8(op: BitOp, x: bv8, y: bv8): bv8
  {
    match op
    case AND => And8(x, y)
    case OR => Or8(x, y)
    case XOR => Xor8(x, y)
  }

  function Native(op: BitOp, x: bv32, y: bv32): bv32
  {
    match op
    case AND => And32(x, y)
    case OR => Or32(x, y)
    case XOR => Xor32(x, y)
  }

  function Half8(x: bv8): bv8 { x >> 1 }
  function Low8(x: bv8): bv8 { x & 1 }

  lemma HalfByte(x: bv8)
    ensures Of(x) / 2 == Of(Half8(x)) && Of(x) % 2 == Of(Low8(x))
  {
    assert x as int == 2 * ((x >> 1) as int) + ((x & 1) as int);
    assert (x & 1) as int < 2;
  }

  lemma LowBit(op: BitOp, x: bv8, y: bv8)
    ensures Of(Low8(x)) < 2 && Of(Low8(y)) < 2
    ensures Of(Low8(Native8(op, x, y))) == op.Bit(Of(Low8(x)), Of(Low8(y)))
    ensures Half8(Native8(op, x, y)) == Native8(op, Half8(x), Half8(y))
  {
    LowBits(x, y);
    HalfBits(x, y);
    hide Of, Low8, Half8, And8, Or8, Xor8;
  }

  lemma LowBits(x: bv8, y: bv8)
    ensures Of(Low8(x)) < 2 && Of(Low8(y)) < 2
    ensures Of(Low8(And8(x, y))) == AND.Bit(Of(Low8(x)), Of(Low8(y)))
    ensures Of(Low8(Or8(x, y))) == OR.Bit(Of(Low8(x)), Of(Low8(y)))
    ensures Of(Low8(Xor8(x, y))) == XOR.Bit(Of(Low8(x)), Of(Low8(y)))
  {
  }

  lemma HalfBits(x: bv8, y: bv8)
    ensures Half8(And8(x, y)) == And8(Half8(x), Half8(y))
    ensures Half8(Or8(x, y)) == Or8(Half8(x), Half8(y))
    ensures Half8(Xor8(x, y)) == Xor8(Half8(x), Half8(y))
  {
  }

  lemma ZeroByte(op: BitOp, x: bv8, y: bv8)
    requires Of(x) == 0 && Of(y) == 0
    ensures Of(Native8(op, x, y)) == 0
  {
    assert x == 0 && y == 0;
  }

  lemma {:induction false} ByteOp(op: BitOp, x: bv8, y: bv8, n: nat)
    requires Of(x) < Pow2(n) && Of(y) < Pow2(n)
    ensures Bitwise(op, Of(x), Of(y), n) == Of(Native8(op, x, y))
    decreases n
  {
    hide Native8, BitOp.Bit, Of, Half8, Low8;
    if n == 0 {
      ZeroByte(op, x, y);
    } else {
      HalfByte(x);
      HalfByte(y);
      HalfByte(Native8(op, x, y));
      LowBit(op, x, y);
      ByteOp(op, Half8(x), Half8(y), n - 1);
    }
  }

  lemma HalfSum(h: nat, p: nat, l: nat)
    ensures (h * (2 * p) + l) / 2 == h * p + l / 2 && (h * (2 * p) + l) % 2 == l % 2
  {
    TwiceProduct(h, p);
  }

  /** High and low parts are combined apart. */
  lemma {:induction false} BitwiseParts(op: BitOp, h: nat, l: nat, h': nat, l': nat, n: nat, k: nat)
    requires l < Pow2(k) && l' < Pow2(k)
    ensures Bitwise(op, h * Pow2(k) + l, h' * Pow2(k) + l', n + k)
            == Bitwise(op, h, h', n) * Pow2(k) + Bitwise(op, l, l', k)
    decreases k
  {
    if k > 0 {
      var p := Pow2(k - 1);
      assert Pow2(k) == 2 * p;
      hide Bitwise, Pow2, BitOp.Bit;
      HalfSum(h, p, l);
      HalfSum(h', p, l');
      BitwiseStep(op, h * (2 * p) + l, h' * (2 * p) + l', n + k);
      BitwiseStep(op, l, l', k);
      BitwiseParts(op, h, l / 2, h', l' / 2, n, k - 1);
      TwiceProduct(Bitwise(op, h, h', n), p);
    }
  }

  lemma BitwiseStep(op: BitOp, x: nat, y: nat, n: nat)
    requires n > 0
    ensures Bitwise(op, x, y, n) == 2 * Bitwise(op, x / 2, y / 2, n - 1) + op.Bit(x % 2, y % 2)
  {
  }

  lemma BytesOfAnd(x: bv32, y: bv32)
    ensures B0(And32(x, y)) == And8(B0(x), B0(y)) && B1(And32(x, y)) == And8(B1(x), B1(y))
    ensures B2(And32(x, y)) == And8(B2(x), B2(y)) && B3(And32(x, y)) == And8(B3(x), B3(y))
  {
  }

  lemma BytesOfOr(x: bv32, y: bv32)
    ensures B0(Or32(x, y)) == Or8(B0(x), B0(y)) && B1(Or32(x, y)) == Or8(B1(x), B1(y))
    ensures B2(Or32(x, y)) == Or8(B2(x), B2(y)) && B3(Or32(x, y)) == Or8(B3(x), B3(y))
  {
    OrBytes(x, y);
    hide B0, B1, B2, B3;
  }

  lemma OrBytes(x: bv32, y: bv32)
    ensures B0(x | y) == B0(x) | B0(y) && B1(x | y) == B1(x) | B1(y)
    ensures B2(x | y) == B2(x) | B2(y) && B3(x | y) == B3(x) | B3(y)
  {
  }

  lemma BytesOfXor(x: bv32, y: bv32)
    ensures B0(Xor32(x, y)) == Xor8(B0(x), B0(y)) && B1(Xor32(x, y)) == Xor8(B1(x), B1(y))
    ensures B2(Xor32(x, y)) == Xor8(B2(x), B2(y)) && B3(Xor32(x, y)) == Xor8(B3(x), B3(y))
  {
    XorBytes(x, y);
    hide B0, B1, B2, B3;
  }

  lemma XorBytes(x: bv32, y: bv32)
    ensures B0(x ^ y) == B0(x) ^ B0(y) && B1(x ^ y) == B1(x) ^ B1(y)
    ensures B2(x ^ y) == B2(x) ^ B2(y) && B3(x ^ y) == B3(x) ^ B3(y)
  {
  }

  lemma BytesOfNative(op: BitOp, x: bv32, y: bv32)
    ensures var z := Native(op, x, y);
            && B0(z) == Native8(op, B0(x), B0(y)) && B1(z) == Native8(op, B1(x), B1(y))
            && B2(z) == Native8(op, B2(x), B2(y)) && B3(z) == Native8(op, B3(x), B3(y))
  {
    hide B0, B1, B2, B3, And8, Or8, Xor8, And32, Or32, Xor32;
    BytesOfAnd(x, y);
    BytesOfOr(x, y);
    BytesOfXor(x, y);
  }

  /** A number with one more low byte. */
  function Push(high: nat, low: Byte): nat { high * Pow2(8) + low as int }

  lemma NumberIsPushed(b3: Byte, b2: Byte, b1: Byte, b0: Byte)
    ensures Number(b3, b2, b1, b0) == Push(Push(Push(b3 as int, b2), b1), b0)
  {
    Pow8();
    hide Pow2;
    assert Push(b3 as int, b2) == b3 as int * 256 + b2 as int;
    assert Push(Push(b3 as int, b2), b1) == (b3 as int * 256 + b2 as int) * 256 + b1 as int;
  }

  lemma Pow8()
    ensures Pow2(8) == 256
  {
  }

  lemma NumberOp(op: BitOp, x3: bv8, x2: bv8, x1: bv8, x0: bv8, y3: bv8, y2: bv8, y1: bv8, y0: bv8)
    ensures Bitwise(op, Number(Of(x3), Of(x2), Of(x1), Of(x0)), Number(Of(y3), Of(y2), Of(y1), Of(y0)), 32)
            == Number(Of(Native8(op, x3, y3)), Of(Native8(op, x2, y2)), Of(Native8(op, x1, y1)),
                      Of(Native8(op, x0, y0)))
  {
    NumberIsPushed(Of(x3), Of(x2), Of(x1), Of(x0));
    NumberIsPushed(Of(y3), Of(y2), Of(y1), Of(y0));
    NumberIsPushed(Of(Native8(op, x3, y3)), Of(Native8(op, x2, y2)), Of(Native8(op, x1, y1)), Of(Native8(op, x0, y0)));
    Pow8();
    hide Bitwise, Native8, Number, Of, Pow2;
    ByteOp(op, x3, y3, 8);
    ByteOp(op, x2, y2, 8);
    ByteOp(op, x1, y1, 8);
    ByteOp(op, x0, y0, 8);
    BitwiseParts(op, Of(x3), Of(x2), Of(y3), Of(y2), 8, 8);
    BitwiseParts(op, Push(Of(x3), Of(x2)), Of(x1), Push(Of(y3), Of(y2)), Of(y1), 16, 8);
    BitwiseParts(op, Push(Push(Of(x3), Of(x2)), Of(x1)), Of(x0), Push(Push(Of(y3), Of(y2)), Of(y1)), Of(y0), 24, 8);
  }

  /** The bit-by-bit operators are the machine's. */
  lemma NativeOp(op: BitOp, x: bv32, y: bv32)
    ensures Word32(op, Value(x), Value(y)) == Value(Native(op, x, y))
  {
    BytesOfNative(op, x, y);
    hide Bitwise, Native8, Native, Number, Of, B0, B1, B2, B3;
    NumberOp(op, B3(x), B2(x), B1(x), B0(x), B3(y), B2(y), B1(y), B0(y));
  }

  function Inverted8(x: bv8): bv8 { !x }
  function Inverted(x: bv32): bv32 { !x }

  lemma NotByte(x: bv8)
    ensures Of(Inverted8(x)) == 255 - Of(x)
  {
  }

  lemma BytesOfNot(x: bv32)
    ensures var z := Inverted(x);
            && B0(z) == Inverted8(B0(x)) && B1(z) == Inverted8(B1(x))
            && B2(z) == Inverted8(B2(x)) && B3(z) == Inverted8(B3(x))
  {
  }

  lemma NativeNot(x: bv32)
    ensures Not(Value(x)) == Value(Inverted(x))
  {
    BytesOfNot(x);
    hide B0, B1, B2, B3, Of, Inverted, Inverted8;
    NotByte(B0(x));
    NotByte(B1(x));
    NotByte(B2(x));
    NotByte(B3(x));
  }

  // ------------------------------------------------------------ shifts

  function Half(x: bv32): bv32 { x >> 1 }
  function Twice(x: bv32): bv32 { x << 1 }

  function ShiftRight(x: bv32, n: nat): bv32
    decreases n
  {
    if n == 0 then x else Half(ShiftRight(x, n - 1))
  }

  function ShiftLeft(x: bv32, n: nat): bv32
    decreases n
  {
    if n == 0 then x else Twice(ShiftLeft(x, n - 1))
  }

  /** A byte moved right by one bit, with the lowest bit of the next above it. */
  function Right(c: bv8, l: bv8): bv8 { (c >> 1) | ((l & 1) << 7) }

  lemma BytesOfHalf(x: bv32)
    ensures B0(Half(x)) == Right(B0(x), B1(x)) && B1(Half(x)) == Right(B1(x), B2(x))
    ensures B2(Half(x)) == Right(B2(x), B3(x)) && B3(Half(x)) == Right(B3(x), 0)
  {
  }

  function Halved(c: Byte, l: Byte): nat { c as int / 2 + 128 * (l as int % 2) }

  lemma RightByte(c: bv8, l: bv8)
    ensures Of(Right(c, l)) == Halved(Of(c), Of(l))
  {
    HalfByte(c);
    HalfByte(l);
    RightParts(c, l);
    hide Of, Right, Half8, Low8;
  }

  lemma RightParts(c: bv8, l: bv8)
    ensures Of(Right(c, l)) == Of(Half8(c)) + 128 * Of(Low8(l))
  {
  }

  lemma HalfNumber(a: Byte, b: Byte, c: Byte, d: Byte, a': Byte, b': Byte, c': Byte, d': Byte)
    requires a' as int == Halved(a, 0) && b' as int == Halved(b, a)
    requires c' as int == Halved(c, b) && d' as int == Halved(d, c)
    ensures Number(a, b, c, d) / 2 == Number(a', b', c', d')
  {
    assert Number(a, b, c, d) == 2 * Number(a', b', c', d') + d as int % 2;
  }

  lemma ZeroOf()
    ensures Of(0) == 0
  {
  }

  lemma HalfValue(x: bv32)
    ensures Value(Half(x)) == Value(x) / 2
  {
    BytesOfHalf(x);
    ZeroOf();
    hide B0, B1, B2, B3, Of, Right, Half, Number, Halved;
    RightByte(B0(x), B1(x));
    RightByte(B1(x), B2(x));
    RightByte(B2(x), B3(x));
    RightByte(B3(x), 0);
    var y := Half(x);
    HalfNumber(Of(B3(x)), Of(B2(x)), Of(B1(x)), Of(B0(x)), Of(B3(y)), Of(B2(y)), Of(B1(y)), Of(B0(y)));
  }

  lemma {:induction false} NativeShr(x: bv32, n: nat)
    ensures Shr(Value(x), n) == Value(ShiftRight(x, n))
    decreases n
  {
    hide Value, Half;
    if n > 0 {
      NativeShr(x, n - 1);
      HalfValue(ShiftRight(x, n - 1));
    }
  }

  /** A byte moved left by one bit, with the top bit of the next below it. */
  function Left(c: bv8, l: bv8): bv8 { (c << 1) | (l >> 7) }

  function Top(c: bv8): nat { (c >> 7) as int }

  lemma BytesOfTwice(x: bv32)
    ensures B0(Twice(x)) == Left(B0(x), 0) && B1(Twice(x)) == Left(B1(x), B0(x))
    ensures B2(Twice(x)) == Left(B2(x), B1(x)) && B3(Twice(x)) == Left(B3(x), B2(x))
  {
  }

  lemma LeftByte(c: bv8, l: bv8)
    ensures Of(Left(c, l)) == 2 * Of(c) - 256 * Top(c) + Top(l)
  {
  }

  lemma NoTop()
    ensures Top(0) == 0
  {
  }

  lemma TwiceNumber(a: Byte, b: Byte, c: Byte, d: Byte, a': Byte, b': Byte, c': Byte, d': Byte,
                    ta: nat, tb: nat, tc: nat, td: nat)
    requires a' as int == 2 * a as int - 256 * ta + tb && b' as int == 2 * b as int - 256 * tb + tc
    requires c' as int == 2 * c as int - 256 * tc + td && d' as int == 2 * d as int - 256 * td
    ensures 2 * Number(a, b, c, d) % TWO32 == Number(a', b', c', d')
  {
    assert 2 * Number(a, b, c, d) == Number(a', b', c', d') + ta * TWO32;
    Wraps(Number(a', b', c', d'), ta);
  }

  lemma Wraps(r: Word, q: nat)
    ensures (r + q * TWO32) % TWO32 == r
  {
  }

  lemma TwiceValue(x: bv32)
    ensures Value(Twice(x)) == 2 * Value(x) % TWO32
  {
    BytesOfTwice(x);
    NoTop();
    hide B0, B1, B2, B3, Of, Left, Top, Twice, Number;
    LeftByte(B0(x), 0);
    LeftByte(B1(x), B0(x));
    LeftByte(B2(x), B1(x));
    LeftByte(B3(x), B2(x));
    var y := Twice(x);
    TwiceNumber(Of(B3(x)), Of(B2(x)), Of(B1(x)), Of(B0(x)), Of(B3(y)), Of(B2(y)), Of(B1(y)), Of(B0(y)),
                Top(B3(x)), Top(B2(x)), Top(B1(x)), Top(B0(x)));
  }

  /** Whatever doubles a word's value mod 2^32 at each of n steps shifts it left by n. */
  lemma {:induction false} Doubled(words: seq<Word>, n: nat)
    requires |words| == n + 1 && forall i :: 0 <= i < n ==> words[i + 1] == 2 * words[i] % TWO32
    ensures words[n] == Shl(words[0], n)
    decreases n
  {
    if n > 0 {
      Doubled(words[..n], n - 1);
    }
  }

  /** The values of x shifted left by 0 to n bits. */
  function LeftValues(x: bv32, n: nat): (r: seq<Word>)
    ensures |r| == n + 1
  {
    seq(n + 1, i requires 0 <= i <= n => Value(ShiftLeft(x, i)))
  }

  lemma LeftDoubles(x: bv32, n: nat, i: nat)
    requires i < n
    ensures LeftValues(x, n)[i + 1] == 2 * LeftValues(x, n)[i] % TWO32
  {
    hide Value, Twice;
    TwiceValue(ShiftLeft(x, i));
  }

  // ------------------------------------------------------------ addition

  function Sum(x: bv32, y: bv32): bv32 { x + y }
  function Up(x: bv32): bv32 { x + 1 }
  function Down(x: bv32): bv32 { x - 1 }

  /** A byte with a carry added. */
  function Up8(b: bv8, carry: bool): bv8 { if carry then b + 1 else b }

  lemma UpByte(b: bv8, carry: bool)
    ensures Of(Up8(b, carry)) == if carry then if Of(b) == 255 then 0 else Of(b) + 1 else Of(b)
  {
    NextByte(b);
  }

  lemma NextByte(b: bv8)
    ensures if b == 255 then b as int == 255 && (b + 1) as int == 0
            else b as int != 255 && (b + 1) as int == b as int + 1
  {
  }

  lemma IsFull(b: bv8)
    ensures b == 255 <==> Of(b) == 255
  {
    NextByte(b);
  }

  predicate Full(b: bv8) { b == 255 }

  lemma BytesOfUp(x: bv32)
    ensures B0(Up(x)) == Up8(B0(x), true) && B1(Up(x)) == Up8(B1(x), Full(B0(x)))
    ensures B2(Up(x)) == Up8(B2(x), Full(B0(x)) && Full(B1(x)))
    ensures B3(Up(x)) == Up8(B3(x), Full(B0(x)) && Full(B1(x)) && Full(B2(x)))
  {
  }

  function Carried(b: Byte, carry: bool): Byte { if !carry then b else if b == 255 then 0 else b + 1 }

  lemma UpNumber(a: Byte, b: Byte, c: Byte, d: Byte)
    ensures Number(Carried(a, d == 255 && c == 255 && b == 255), Carried(b, d == 255 && c == 255), Carried(c, d == 255),
                   Carried(d, true))
            == (Number(a, b, c, d) + 1) % TWO32
  {
    if a == 255 && b == 255 && c == 255 && d == 255 {
      assert Number(255, 255, 255, 255) + 1 == TWO32;
    }
  }

  lemma UpValue(x: bv32)
    ensures Value(Up(x)) == (Value(x) + 1) % TWO32
  {
    BytesOfUp(x);
    IsFull(B0(x));
    IsFull(B1(x));
    IsFull(B2(x));
    hide B0, B1, B2, B3, Of, Up, Up8, Number;
    UpByte(B0(x), true);
    UpByte(B1(x), Full(B0(x)));
    UpByte(B2(x), Full(B0(x)) && Full(B1(x)));
    UpByte(B3(x), Full(B0(x)) && Full(B1(x)) && Full(B2(x)));
    UpNumber(Of(B3(x)), Of(B2(x)), Of(B1(x)), Of(B0(x)));
  }

  lemma ZeroIsZero(b: bv8)
    requires Of(b) == 0
    ensures b == 0
  {
  }

  lemma ZeroBytes(x: bv32)
    requires B3(x) == 0 && B2(x) == 0 && B1(x) == 0 && B0(x) == 0
    ensures x == 0
  {
  }

  lemma ZeroValue(x: bv32)
    requires Value(x) == 0
    ensures x == 0
  {
    hide B0, B1, B2, B3, Of;
    ZeroIsZero(B3(x));
    ZeroIsZero(B2(x));
    ZeroIsZero(B1(x));
    ZeroIsZero(B0(x));
    ZeroBytes(x);
  }

  lemma Moved(x: bv32, y: bv32)
    ensures Sum(Up(x), Down(y)) == Sum(x, y) && Up(Down(y)) == y && Sum(x, 0) == x
  {
  }

  lemma DownValue(y: bv32)
    requires Value(y) > 0
    ensures Value(Down(y)) == Value(y) - 1
  {
    Moved(y, y);
    hide Value, Up, Down, Sum;
    UpValue(Down(y));
  }

  lemma AddMod(a: nat, b: nat, c: nat)
    requires b > 0 && c == (a + 1) % TWO32
    ensures (c + (b - 1)) % TWO32 == (a + b) % TWO32
  {
    var q := (a + 1) / TWO32;
    assert a + b == c + (b - 1) + q * TWO32;
  }

  /** Machine addition is addition mod 2^32. */
  lemma {:induction false} NativeAdd(x: bv32, y: bv32)
    ensures Value(Sum(x, y)) == (Value(x) + Value(y)) % TWO32
    decreases Value(y)
  {
    Moved(x, y);
    hide Value, Up, Down, Sum;
    if Value(y) == 0 {
      ZeroValue(y);
    } else {
      DownValue(y);
      UpValue(x);
      NativeAdd(Up(x), Down(y));
      AddMod(Value(x), Value(y), Value(Up(x)));
    }
  }
}
