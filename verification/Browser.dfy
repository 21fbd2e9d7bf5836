/** The page's streaming hash: class SHA256 and hashFile of web/index.html. */
module Browser {
  import opened Wrappers
  import opened Bits32
  import opened Sha256Spec
  import opened Hex

  // ------------------------------------------------------- JavaScript numbers
  //
  // Every number the hash computes with is an integer; the largest, in a round, stays
  // below 2^35, so doubles are exact and a JavaScript number is modelled as an int.
  // The bitwise operators first reduce their operands mod 2^32 and, except for >>>,
  // return a signed 32-bit result. A store into a Uint32Array reduces mod 2^32.

  function ToUint32(x: int): Word { Reduce(x) }

  function ToInt32(x: int): (r: int)
    ensures -0x8000_0000 <= r < 0x8000_0000
    ensures ToUint32(r) == ToUint32(x)
  {
    var w := ToUint32(x);
    if w < 0x8000_0000 then w else w - TWO32
  }

  function JsXor(x: int, y: int): int { ToInt32(Xor(ToUint32(x), ToUint32(y))) }
  function JsOr(x: int, y: int): int { ToInt32(Or(ToUint32(x), ToUint32(y))) }
  function JsAnd(x: int, y: int): int { ToInt32(And(ToUint32(x), ToUint32(y))) }
  function JsNot(x: int): int { ToInt32(Not(ToUint32(x))) }
  function JsShl(x: int, n: nat): int requires n < 32 { ToInt32(Shl(ToUint32(x), n)) }
  function JsUshr(x: int, n: nat): int requires n < 32 { Shr(ToUint32(x), n) }

  /** `x>>>n | x<<(32-n)` */
  function JsRotate(x: int, n: nat): int
    requires 0 < n < 32
  {
    JsOr(JsUshr(x, n), JsShl(x, 32 - n))
  }

  lemma Unsigned(w: Word)
    ensures ToUint32(w) == w
  {
  }

  lemma RotateReduces(x: Word, n: nat)
    requires 0 < n < 32
    ensures ToUint32(JsRotate(x, n)) == Rotr(x, n)
  {
    Unsigned(x);
    Unsigned(Shr(x, n));
    Unsigned(Shl(x, 32 - n));
    Unsigned(Or(Shr(x, n), Shl(x, 32 - n)));
  }

  function JsSigma(x: int, n1: nat, n2: nat, last: int): int
    requires 0 < n1 < 32 && 0 < n2 < 32
  {
    JsXor(JsXor(JsRotate(x, n1), JsRotate(x, n2)), last)
  }

  lemma SigmaReduces(x: Word, n1: nat, n2: nat, last: int)
    requires 0 < n1 < 32 && 0 < n2 < 32
    ensures ToUint32(JsSigma(x, n1, n2, last)) == Xor3(Rotr(x, n1), Rotr(x, n2), ToUint32(last))
  {
    RotateReduces(x, n1);
    RotateReduces(x, n2);
    Unsigned(Xor(Rotr(x, n1), Rotr(x, n2)));
    Unsigned(Xor3(Rotr(x, n1), Rotr(x, n2), ToUint32(last)));
  }

  function JsChoose(e: int, f: int, g: int): int { JsXor(JsAnd(e, f), JsAnd(JsNot(e), g)) }

  function JsMajority(a: int, b: int, c: int): int { JsXor(JsXor(JsAnd(a, b), JsAnd(a, c)), JsAnd(b, c)) }

  lemma ChooseReduces(e: Word, f: Word, g: Word)
    ensures ToUint32(JsChoose(e, f, g)) == Ch(e, f, g)
  {
    Unsigned(e); Unsigned(f); Unsigned(g); Unsigned(Not(e));
    Unsigned(And(e, f)); Unsigned(And(Not(e), g)); Unsigned(Ch(e, f, g));
  }

  lemma MajorityReduces(a: Word, b: Word, c: Word)
    ensures ToUint32(JsMajority(a, b, c)) == Maj(a, b, c)
  {
    Unsigned(a); Unsigned(b); Unsigned(c);
    Unsigned(And(a, b)); Unsigned(And(a, c)); Unsigned(And(b, c));
    Unsigned(Xor(And(a, b), And(a, c))); Unsigned(Maj(a, b, c));
  }

  /** Reducing a sum once at the end equals reducing the signed terms first. */
  lemma SumReduces(a: int, x: int, x': Word, y: int, y': Word, b: int, c: int)
    requires ToUint32(x) == x' && ToUint32(y) == y'
    ensures ToUint32(a + x + y + b + c) == Reduce(a + x' + y' + b + c)
  {
    var i, j := x / TWO32, y / TWO32;
    assert x == x' + i * TWO32;
    assert y == y' + j * TWO32;
    assert a + x + y + b + c == (a + x' + y' + b + c) + (i + j) * TWO32;
  }

  /** `(x0<<24)|(x1<<16)|(x2<<8)|x3` */
  function JsAssemble(x0: int, x1: int, x2: int, x3: int): int
  {
    JsOr(JsOr(JsOr(JsShl(x0, 24), JsShl(x1, 16)), JsShl(x2, 8)), x3)
  }

  lemma Powers()
    ensures Pow2(8) == 0x100 && Pow2(16) == 0x1_0000 && Pow2(24) == 0x100_0000 && Pow2(32) == TWO32
  {
    Pow32();
  }

  /** ORing a value into bits another leaves clear adds them. */
  lemma JsOrAdds(q: nat, k: nat, low: nat)
    requires low < Pow2(k) && q * Pow2(k) + low < TWO32
    ensures ToUint32(JsOr(q * Pow2(k), low)) == q * Pow2(k) + low
  {
    hide Bitwise, Pow2;
    Pow32();
    Unsigned(q * Pow2(k));
    Unsigned(low);
    OrDisjoint(q, low, k, 32);
    Unsigned(q * Pow2(k) + low);
  }

  lemma JsShlMultiplies(x: nat, n: nat)
    requires n < 32 && x * Pow2(n) < TWO32 && x < TWO32
    ensures ToUint32(JsShl(x, n)) == x * Pow2(n)
  {
    hide Shl, Pow2;
    Unsigned(x);
    ShlIsProduct(x, n);
    Unsigned(x * Pow2(n));
  }

  lemma JsOrReduces(x: int, y: int, x': int)
    requires ToUint32(x) == ToUint32(x')
    ensures ToUint32(JsOr(x, y)) == ToUint32(JsOr(x', y))
    ensures ToUint32(JsOr(y, x)) == ToUint32(JsOr(y, x'))
  {
    hide Or;
  }

  /** The four bytes are assembled big-endian. */
  lemma AssembleIsBigEndian(x0: Byte, x1: Byte, x2: Byte, x3: Byte)
    ensures var b0: nat, b1: nat, b2: nat, b3: nat := x0, x1, x2, x3;
            ToUint32(JsAssemble(b0, b1, b2, b3)) == b0 * 0x100_0000 + b1 * 0x1_0000 + b2 * 0x100 + b3
  {
    hide JsOr, JsShl, Pow2;
    Powers();
    var b0: nat, b1: nat, b2: nat, b3: nat := x0, x1, x2, x3;
    var s0, s1, s2 := b0 * 0x100_0000, b1 * 0x1_0000, b2 * 0x100;
    JsShlMultiplies(b0, 24);
    JsShlMultiplies(b1, 16);
    JsShlMultiplies(b2, 8);
    Unsigned(s0); Unsigned(s1); Unsigned(s2);
    JsOrReduces(JsShl(b0, 24), JsShl(b1, 16), s0);
    JsOrReduces(JsShl(b1, 16), s0, s1);
    JsOrAdds(b0, 24, s1);
    var o1 := JsOr(JsShl(b0, 24), JsShl(b1, 16));
    Unsigned(s0 + s1);
    JsOrReduces(o1, JsShl(b2, 8), s0 + s1);
    JsOrReduces(JsShl(b2, 8), s0 + s1, s2);
    JsOrAdds(b0 * 0x100 + b1, 16, s2);
    var o2 := JsOr(o1, JsShl(b2, 8));
    Unsigned(s0 + s1 + s2);
    JsOrReduces(o2, b3, s0 + s1 + s2);
    JsOrAdds(b0 * 0x1_0000 + b1 * 0x100 + b2, 8, b3);
  }

  // The four sigma expressions of `block`.
  function JsBigSigma0(a: int): int { JsSigma(a, 2, 13, JsRotate(a, 22)) }
  function JsBigSigma1(e: int): int { JsSigma(e, 6, 11, JsRotate(e, 25)) }
  function JsSmallSigma0(a: int): int { JsSigma(a, 7, 18, JsUshr(a, 3)) }
  function JsSmallSigma1(b: int): int { JsSigma(b, 17, 19, JsUshr(b, 10)) }

  lemma SigmasReduce(x: Word)
    ensures ToUint32(JsBigSigma0(x)) == BigSigma0(x) && ToUint32(JsBigSigma1(x)) == BigSigma1(x)
    ensures ToUint32(JsSmallSigma0(x)) == SmallSigma0(x) && ToUint32(JsSmallSigma1(x)) == SmallSigma1(x)
  {
    hide JsSigma, JsRotate, Rotr, Xor3, Shr;
    Unsigned(x);
    RotateReduces(x, 22);
    RotateReduces(x, 25);
    Unsigned(Shr(x, 3));
    Unsigned(Shr(x, 10));
    SigmaReduces(x, 2, 13, JsRotate(x, 22));
    SigmaReduces(x, 6, 11, JsRotate(x, 25));
    SigmaReduces(x, 7, 18, JsUshr(x, 3));
    SigmaReduces(x, 17, 19, JsUshr(x, 10));
  }

  /** `(sigma0(a)+w[i-16]+sigma1(b)+w[i-7])>>>0` */
  function JsSchedule(w15: Word, w16: Word, w2: Word, w7: Word): Word
  {
    ToUint32(JsSmallSigma0(w15) + w16 + JsSmallSigma1(w2) + w7)
  }

  lemma ScheduleReduces(w15: Word, w16: Word, w2: Word, w7: Word)
    ensures JsSchedule(w15, w16, w2, w7) == Reduce(SmallSigma1(w2) + w7 + SmallSigma0(w15) + w16)
  {
    hide JsSmallSigma0, JsSmallSigma1, SmallSigma0, SmallSigma1, Reduce;
    SigmasReduce(w15);
    SigmasReduce(w2);
    var s0, s1 := JsSmallSigma0(w15), JsSmallSigma1(w2);
    assert s0 + w16 + s1 + w7 == 0 + s0 + s1 + w16 + w7;
    SumReduces(0, s0, SmallSigma0(w15), s1, SmallSigma1(w2), w16, w7);
    assert 0 + SmallSigma0(w15) + SmallSigma1(w2) + w16 + w7 == SmallSigma1(w2) + w7 + SmallSigma0(w15) + w16;
  }

  lemma ScheduleStart(block: Bytes, t: nat)
    requires |block| == 64 && t < 16
    ensures ToUint32(JsAssemble(block[t * 4], block[t * 4 + 1], block[t * 4 + 2], block[t * 4 + 3]))
            == Schedule(block, t)
  {
    hide JsAssemble, ToUint32;
    AssembleIsBigEndian(block[t * 4], block[t * 4 + 1], block[t * 4 + 2], block[t * 4 + 3]);
  }

  lemma ScheduleStep(block: Bytes, t: nat)
    requires |block| == 64 && 16 <= t < 64
    ensures JsSchedule(Schedule(block, t - 15), Schedule(block, t - 16), Schedule(block, t - 2), Schedule(block, t - 7))
            == Schedule(block, t)
  {
    hide JsSchedule, SmallSigma0, SmallSigma1, Reduce;
    ScheduleReduces(Schedule(block, t - 15), Schedule(block, t - 16), Schedule(block, t - 2), Schedule(block, t - 7));
  }

  /** One pass of the round loop, on the eight working variables. */
  function JsRound(s: State, k: Word, w: Word): State
  {
    var s1 := JsBigSigma1(s.e);
    var ch := JsChoose(s.e, s.f, s.g);
    var t1 := ToUint32(s.h + s1 + ch + k + w);
    var s0 := JsBigSigma0(s.a);
    var maj := JsMajority(s.a, s.b, s.c);
    var t2 := ToUint32(s0 + maj);
    State(ToUint32(t1 + t2), s.a, s.b, s.c, ToUint32(s.d + t1), s.e, s.f, s.g)
  }

  lemma PairReduces(x: int, x': Word, y: int, y': Word)
    requires ToUint32(x) == x' && ToUint32(y) == y'
    ensures ToUint32(x + y) == Reduce(x' + y')
  {
    SumReduces(0, x, x', y, y', 0, 0);
  }

  lemma FirstTermReduces(s: State, k: Word, w: Word)
    ensures ToUint32(s.h + JsBigSigma1(s.e) + JsChoose(s.e, s.f, s.g) + k + w)
            == Reduce(s.h + BigSigma1(s.e) + Ch(s.e, s.f, s.g) + k + w)
  {
    hide JsBigSigma1, JsChoose, BigSigma1, Ch, Reduce, ToUint32;
    SigmasReduce(s.e);
    ChooseReduces(s.e, s.f, s.g);
    SumReduces(s.h, JsBigSigma1(s.e), BigSigma1(s.e), JsChoose(s.e, s.f, s.g), Ch(s.e, s.f, s.g), k, w);
  }

  lemma SecondTermReduces(s: State)
    ensures ToUint32(JsBigSigma0(s.a) + JsMajority(s.a, s.b, s.c)) == Reduce(BigSigma0(s.a) + Maj(s.a, s.b, s.c))
  {
    hide JsBigSigma0, JsMajority, BigSigma0, Maj, Reduce, ToUint32;
    SigmasReduce(s.a);
    MajorityReduces(s.a, s.b, s.c);
    PairReduces(JsBigSigma0(s.a), BigSigma0(s.a), JsMajority(s.a, s.b, s.c), Maj(s.a, s.b, s.c));
  }

  /** The signed intermediates of a JavaScript round reduce to the standard's round. */
  lemma RoundReduces(s: State, k: Word, w: Word)
    ensures JsRound(s, k, w) == Round(s, k, w)
  {
    hide JsBigSigma0, JsBigSigma1, JsChoose, JsMajority, BigSigma0, BigSigma1, Ch, Maj, Reduce;
    FirstTermReduces(s, k, w);
    SecondTermReduces(s);
  }

  // ------------------------------------------------------------ the class

  /** `(v>>>(i*8))&255` */
  function JsByte(v: int, i: nat): int
    requires i < 4
  {
    JsAnd(JsUshr(v, i * 8), 255)
  }

  lemma JsByteIsDigit(v: int, i: nat)
    requires i < 4
    ensures JsByte(v, i) == BigEndian(ToUint32(v), 4)[3 - i]
  {
    var w := ToUint32(v);
    ShrBytes(w);
    BigEndianWord(w);
    LowByte(Shr(w, i * 8));
  }

  lemma LowByte(x: Word)
    ensures JsAnd(x, 255) == x % 256
  {
    hide And;
    Unsigned(x);
    Unsigned(255);
    AndByte(x);
  }

  function StateOf(h: seq<Word>): State
    requires |h| == 8
  {
    State(h[0], h[1], h[2], h[3], h[4], h[5], h[6], h[7])
  }

  class SHA256 {
    const h: array<Word>
    const b: array<Byte>
    var n: nat
    var p: nat
    /** The whole blocks compressed so far. */
    ghost var hashed: Bytes

    /** Everything passed to `Update` so far: the whole blocks, then the buffer. */
    ghost function Message(): Bytes
      reads this, b
      requires p <= b.Length
    {
      hashed + b[..p]
    }

    ghost predicate Valid()
      reads this, h, b
    {
      && h.Length == 8 && b.Length == 64 && p < 64
      && n == |hashed| + p && |hashed| % 64 == 0
      && StateOf(h[..]) == HashBlocks(H0, hashed)
    }

    constructor ()
      ensures Valid() && Message() == [] && fresh(h) && fresh(b)
    {
      h := new Word[] [H0.a, H0.b, H0.c, H0.d, H0.e, H0.f, H0.g, H0.h];
      b := new Byte[64](_ => 0);
      n, p, hashed := 0, 0, [];
      new;
      assert StateOf(h[..]) == H0;
      assert HashBlocks(H0, []) == H0;
    }

    /** The message schedule of `block`: 64 words from 64 bytes. */
    method Expand(x: array<Byte>) returns (w: array<Word>)
      requires x.Length == 64
      ensures fresh(w) && w.Length == 64
      ensures forall t :: 0 <= t < 64 ==> w[t] == Schedule(x[..], t)
    {
      hide Schedule, JsSchedule, JsAssemble, ToUint32;
      w := new Word[64](_ => 0);
      var i := 0;
      while i < 16
        invariant 0 <= i <= 16
        invariant forall t :: 0 <= t < i ==> w[t] == Schedule(x[..], t)
      {
        ScheduleStart(x[..], i);
        w[i] := ToUint32(JsAssemble(x[i * 4], x[i * 4 + 1], x[i * 4 + 2], x[i * 4 + 3]));
        i := i + 1;
      }
      while i < 64
        invariant 16 <= i <= 64
        invariant forall t :: 0 <= t < i ==> w[t] == Schedule(x[..], t)
      {
        ScheduleStep(x[..], i);
        w[i] := JsSchedule(w[i - 15], w[i - 16], w[i - 2], w[i - 7]);
        i := i + 1;
      }
    }

    /** `block`: one application of the compression function to `this.h`. */
    method Block(x: array<Byte>)
      requires x.Length == 64 && h.Length == 8
      modifies h
      ensures StateOf(h[..]) == Compress(StateOf(old(h[..])), x[..])
    {
      hide Schedule, Round, JsRound;
      var w := Expand(x);
      ghost var start := StateOf(h[..]);
      var s := State(h[0], h[1], h[2], h[3], h[4], h[5], h[6], h[7]);
      var i := 0;
      while i < 64
        modifies {}
        invariant 0 <= i <= 64
        invariant s == Rounds(start, x[..], i)
      {
        RoundReduces(s, K[i], w[i]);
        s := JsRound(s, K[i], w[i]);
        i := i + 1;
      }
      Chain([s.a, s.b, s.c, s.d, s.e, s.f, s.g, s.h]);
    }

    /** The feed-forward that ends `block`; `Uint32Array` reduces each sum mod 2^32. */
    method Chain(q: seq<Word>)
      requires h.Length == |q| == 8
      modifies h
      ensures StateOf(h[..]) ==
              Add(StateOf(old(h[..])), State(q[0], q[1], q[2], q[3], q[4], q[5], q[6], q[7]))
    {
      var i := 0;
      while i < 8
        invariant 0 <= i <= 8
        invariant forall j :: 0 <= j < i ==> h[j] == Reduce(old(h[j]) as int + q[j] as int)
        invariant forall j :: i <= j < 8 ==> h[j] == old(h[j])
      {
        h[i] := ToUint32(h[i] as int + q[i] as int);
        i := i + 1;
      }
    }

    /** One pass of the loop in `update`. */
    method Absorb(v: Byte)
      requires h.Length == 8 && b.Length == 64 && p < 64 && |hashed| % 64 == 0
      requires StateOf(h[..]) == HashBlocks(H0, hashed)
      modifies `p, `hashed, h, b
      ensures p < 64 && |hashed| % 64 == 0 && StateOf(h[..]) == HashBlocks(H0, hashed)
      ensures Message() == old(Message()) + [v]
    {
      hide HashBlocks, Compress;
      ghost var before := b[..p];
      b[p] := v;
      p := p + 1;
      assert b[..p] == before + [v];
      assert hashed + (before + [v]) == hashed + before + [v];
      if p == 64 {
        HashOneMore(H0, hashed, b[..]);
        Block(b);
        assert b[..64] == b[..];
        hashed := hashed + b[..];
        p := 0;
        assert Message() == hashed;
      }
    }

    method Update(x: Bytes)
      requires Valid()
      modifies this, h, b
      ensures Valid() && Message() == old(Message()) + x
    {
      hide HashBlocks, StateOf;
      n := n + |x|;
      var i := 0;
      while i < |x|
        invariant 0 <= i <= |x| && n == old(n) + |x|
        invariant h.Length == 8 && b.Length == 64 && p < 64 && |hashed| % 64 == 0
        invariant Message() == old(Message()) + x[..i]
        invariant StateOf(h[..]) == HashBlocks(H0, hashed)
      {
        assert x[..i + 1] == x[..i] + [x[i]];
        Absorb(x[i]);
        i := i + 1;
      }
      assert |Message()| == |old(Message())| + |x|;
    }

    /** `for (i=3..0) b[p++]=(v>>>(i*8))&255` */
    method AppendWord(v: int)
      requires b.Length == 64 && p + 4 <= 64
      modifies `p, b
      ensures p == old(p) + 4 && b[..p] == old(b[..p]) + BigEndian(ToUint32(v), 4)
    {
      hide JsByte, ToUint32, BigEndian;
      ghost var digits := BigEndian(ToUint32(v), 4);
      var i := 3;
      while i >= 0
        invariant -1 <= i <= 3 && p == old(p) + (3 - i)
        invariant b[..p] == old(b[..p]) + digits[..3 - i]
      {
        JsByteIsDigit(v, i);
        ghost var before := b[..p];
        b[p] := JsByte(v, i);
        p := p + 1;
        assert b[..p] == before + [digits[3 - i]];
        assert digits[..4 - i] == digits[..3 - i] + [digits[3 - i]];
        i := i - 1;
      }
      assert digits[..4] == digits;
    }

    method AppendZeros(limit: nat, ghost prefix: Bytes, ghost count: nat) returns (ghost total: nat)
      requires b.Length == 64 && p <= limit <= 64
      requires hashed + b[..p] == prefix + Zeros(count)
      modifies `p, b
      ensures p == limit && total == count + limit - old(p)
      ensures hashed + b[..p] == prefix + Zeros(total)
    {
      total := count;
      while p < limit
        invariant p <= limit && total == count + p - old(p)
        invariant hashed + b[..p] == prefix + Zeros(total)
      {
        ghost var before := b[..p];
        b[p] := 0;
        p := p + 1;
        assert b[..p] == before + [0];
        assert hashed + (before + [0]) == hashed + before + [0];
        assert prefix + Zeros(total) + [0] == prefix + Zeros(total + 1);
        total := total + 1;
      }
    }

    /** The 0x80 marker, and the extra block when no room is left for the length. */
    method Mark() returns (ghost zeros: nat)
      requires Valid()
      modifies this, h, b
      ensures b.Length == 64 && p <= 56 && |hashed| % 64 == 0 && n == old(n)
      ensures hashed + b[..p] == old(Message()) + [0x80] + Zeros(zeros) && zeros + 56 - p < 64
      ensures StateOf(h[..]) == HashBlocks(H0, hashed)
    {
      hide HashBlocks, Compress, Zeros;
      ghost var prefix := Message() + [0x80];
      ghost var before := b[..p];
      b[p] := 0x80;
      p := p + 1;
      assert b[..p] == before + [0x80];
      assert hashed + (before + [0x80]) == prefix;
      zeros := 0;
      NoZeros(prefix);
      if p > 56 {
        zeros := AppendZeros(64, prefix, zeros);
        Flush();
        assert hashed + b[..p] == hashed;
      }
    }

    method Flush()
      requires h.Length == 8 && b.Length == 64 && p == 64 && |hashed| % 64 == 0
      requires StateOf(h[..]) == HashBlocks(H0, hashed)
      modifies this, h
      ensures n == old(n) && p == 0 && hashed == old(hashed) + b[..64] && |hashed| % 64 == 0
      ensures StateOf(h[..]) == HashBlocks(H0, hashed)
    {
      hide HashBlocks, Compress;
      assert b[..64] == b[..];
      HashOneMore(H0, hashed, b[..]);
      Block(b);
      hashed := hashed + b[..];
      p := 0;
    }

    /** The padding of `hex`, up to and including the last compression. */
    method Finish()
      requires Valid()
      modifies this, h, b
      ensures StateOf(h[..]) == Final(old(Message()))
    {
      hide HashBlocks, Compress, BigEndian, Zeros, ZeroCount;
      ghost var message := Message();
      var bits := n * 8;
      ghost var zeros := Mark();
      zeros := AppendZeros(56, message + [0x80], zeros);
      ghost var front := b[..p];
      var hi, lo := bits / TWO32, ToUint32(bits);
      AppendWord(hi);
      AppendWord(lo);
      PaddingComplete(message, hashed, front, zeros);
      Unsigned(lo);
      assert b[..64] == front + (BigEndian(ToUint32(hi), 4) + BigEndian(ToUint32(lo), 4));
      Flush();
    }

    /** `hex`: finish, then print the eight words. */
    method Hex() returns (text: string)
      requires Valid()
      modifies this, h, b
      ensures text == Encode(Digest(old(Message())))
    {
      hide Final, Encode, Serialize;
      Finish();
      WordsOfState(h[..]);
      text := Print(h[..]);
    }
  }

  lemma WordsOfState(words: seq<Word>)
    requires |words| == 8
    ensures Words(StateOf(words)) == words
  {
  }

  /** `[...h].map(v => v.toString(16).padStart(8, "0")).join("").toUpperCase()` */
  method Print(words: seq<Word>) returns (text: string)
    ensures text == Encode(Serialize(words))
  {
    hide Encode, BigEndian, ToString16, PadStart, ToUpper, Serialize;
    text := "";
    EmptyText();
    var i := 0;
    while i < |words|
      invariant 0 <= i <= |words|
      invariant ToUpper(text) == Encode(Serialize(words[..i]))
    {
      ToUpperAppend(text, PadStart(ToString16(words[i]), 8));
      SerializeSnoc(words[..i], words[i]);
      EncodeAppend(Serialize(words[..i]), BigEndian(words[i], 4));
      PrintedWord(words[i]);
      assert words[..i + 1] == words[..i] + [words[i]];
      text := text + PadStart(ToString16(words[i]), 8);
      i := i + 1;
    }
    assert words[..|words|] == words;
    text := ToUpper(text);
  }

  lemma EmptyText()
    ensures Encode(Serialize([])) == "" && ToUpper("") == ""
  {
  }

  const SLICE: nat := 4 * 1024 * 1024

  /**
   * `hashFile`: `selectionAt(i)` is the value of the page's `selection` when slice i is
   * about to be read. The hash is delivered exactly when the selection never changed.
   */
  method HashFile(file: Bytes, generation: int, selectionAt: nat -> int) returns (r: Result<string, string>)
    ensures r.Ok? <==> forall i: nat :: i * SLICE < |file| ==> selectionAt(i) == generation
    ensures r.Ok? ==> r.value == Encode(Digest(file))
  {
    hide HashBlocks, Digest, Encode, StateOf;
    var s := new SHA256();
    var o, i: nat := 0, 0;
    while o < |file|
      invariant s.Valid() && fresh(s) && fresh(s.h) && fresh(s.b)
      invariant o == i * SLICE
      invariant s.Message() == file[..if o < |file| then o else |file|]
      invariant forall j: nat :: j < i ==> selectionAt(j) == generation
      decreases |file| - o
    {
      if generation != selectionAt(i) {
        return Err("selection changed");
      }
      var end := if o + SLICE < |file| then o + SLICE else |file|;
      s.Update(file[o..end]);
      assert file[..o] + file[o..end] == file[..end];
      assert forall j: nat :: j * SLICE < |file| && j < i + 1 ==> selectionAt(j) == generation;
      o, i := o + SLICE, i + 1;
    }
    assert file[..|file|] == file;
    var text := s.Hex();
    r := Ok(text);
  }

  function Joined(pieces: seq<Bytes>): Bytes
  {
    if pieces == [] then [] else Joined(pieces[..|pieces| - 1]) + pieces[|pieces| - 1]
  }

  /** However the bytes are cut into `update` calls, one `hex` prints the digest of the whole. */
  method HashPieces(pieces: seq<Bytes>) returns (text: string)
    ensures text == Encode(Digest(Joined(pieces)))
  {
    hide HashBlocks, Digest, Encode, StateOf;
    var s := new SHA256();
    var i := 0;
    while i < |pieces|
      invariant 0 <= i <= |pieces|
      invariant s.Valid() && fresh(s) && fresh(s.h) && fresh(s.b)
      invariant s.Message() == Joined(pieces[..i])
    {
      s.Update(pieces[i]);
      assert pieces[..i + 1][..i] == pieces[..i];
      i := i + 1;
    }
    assert pieces[..|pieces|] == pieces;
    text := s.Hex();
  }

  lemma PaddingComplete(message: Bytes, hashed: Bytes, front: Bytes, zeros: nat)
    requires |front| == 56 && |hashed| % 64 == 0 && zeros < 64
    requires hashed + front == message + [0x80] + Zeros(zeros)
    ensures var bits := 8 * |message|;
            hashed + (front + (BigEndian(Reduce(bits / TWO32), 4) + BigEndian(Reduce(bits), 4))) == Pad(message)
  {
    hide BigEndian;
    UniqueZeroCount(|message|, zeros);
    BigEndianSplit(8 * |message|);
  }

  lemma NoZeros(prefix: Bytes)
    ensures prefix == prefix + Zeros(0)
  {
  }
}
