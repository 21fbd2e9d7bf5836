/**
 * SHA-256 on machine words, and that it computes what `Sha256Spec` specifies: one step keeps
 * the eight working variables and the next sixteen words of the schedule.
 */
module NativeSha256 {
  import opened Bits32
  import opened Sha256Spec
  import opened NativeWords

  function Sigma0(x: bv32): bv32
  {
    Xor32(Xor32(Or32(Right2(x), Left30(x)), Or32(Right13(x), Left19(x))), Or32(Right22(x), Left10(x)))
  }

  function Sigma1(x: bv32): bv32
  {
    Xor32(Xor32(Or32(Right6(x), Left26(x)), Or32(Right11(x), Left21(x))), Or32(Right25(x), Left7(x)))
  }

  function Extend0(x: bv32): bv32 { Xor32(Xor32(Or32(Right7(x), Left25(x)), Or32(Right18(x), Left14(x))), Right3(x)) }
  function Extend1(x: bv32): bv32 { Xor32(Xor32(Or32(Right17(x), Left15(x)), Or32(Right19(x), Left13(x))), Right10(x)) }
  function Choose(x: bv32, y: bv32, z: bv32): bv32 { Xor32(And32(x, y), And32(Inverted(x), z)) }
  function Majority(x: bv32, y: bv32, z: bv32): bv32 { Xor32(Xor32(And32(x, y), And32(x, z)), And32(y, z)) }

  // ------------------------------------------------------------ shifts by more than one bit

  function Right1(x: bv32): bv32 { x >> 1 }
  function Right2(x: bv32): bv32 { x >> 2 }
  function Right3(x: bv32): bv32 { x >> 3 }
  function Right6(x: bv32): bv32 { x >> 6 }
  function Right7(x: bv32): bv32 { x >> 7 }
  function Right10(x: bv32): bv32 { x >> 10 }
  function Right11(x: bv32): bv32 { x >> 11 }
  function Right13(x: bv32): bv32 { x >> 13 }
  function Right17(x: bv32): bv32 { x >> 17 }
  function Right18(x: bv32): bv32 { x >> 18 }
  function Right19(x: bv32): bv32 { x >> 19 }
  function Right22(x: bv32): bv32 { x >> 22 }
  function Right25(x: bv32): bv32 { x >> 25 }

  lemma RightThen(x: bv32, a: nat, b: nat)
    ensures ShiftRight(x, a + b) == ShiftRight(ShiftRight(x, a), b)
    decreases b
  {
    hide Half;
    if b > 0 {
      RightThen(x, a, b - 1);
    }
  }

  lemma RightBy1(x: bv32)
    ensures ShiftRight(x, 1) == Right1(x)
  {
    assert ShiftRight(x, 0) == x;
  }

  lemma RightBy2(x: bv32)
    ensures ShiftRight(x, 2) == Right2(x)
  {
    assert Right1(Right1(x)) == Right2(x);
    hide *;
    RightThen(x, 1, 1);
    RightBy1(x);
    RightBy1(Right1(x));
  }

  lemma RightBy3(x: bv32)
    ensures ShiftRight(x, 3) == Right3(x)
  {
    assert Right1(Right2(x)) == Right3(x);
    hide *;
    RightThen(x, 2, 1);
    RightBy2(x);
    RightBy1(Right2(x));
  }

  lemma RightBy6(x: bv32)
    ensures ShiftRight(x, 6) == Right6(x)
  {
    assert Right3(Right3(x)) == Right6(x);
    hide *;
    RightThen(x, 3, 3);
    RightBy3(x);
    RightBy3(Right3(x));
  }

  lemma RightBy7(x: bv32)
    ensures ShiftRight(x, 7) == Right7(x)
  {
    assert Right1(Right6(x)) == Right7(x);
    hide *;
    RightThen(x, 6, 1);
    RightBy6(x);
    RightBy1(Right6(x));
  }

  lemma RightBy10(x: bv32)
    ensures ShiftRight(x, 10) == Right10(x)
  {
    assert Right3(Right7(x)) == Right10(x);
    hide *;
    RightThen(x, 7, 3);
    RightBy7(x);
    RightBy3(Right7(x));
  }

  lemma RightBy11(x: bv32)
    ensures ShiftRight(x, 11) == Right11(x)
  {
    assert Right1(Right10(x)) == Right11(x);
    hide *;
    RightThen(x, 10, 1);
    RightBy10(x);
    RightBy1(Right10(x));
  }

  lemma RightBy13(x: bv32)
    ensures ShiftRight(x, 13) == Right13(x)
  {
    assert Right6(Right7(x)) == Right13(x);
    hide *;
    RightThen(x, 7, 6);
    RightBy7(x);
    RightBy6(Right7(x));
  }

  lemma RightBy17(x: bv32)
    ensures ShiftRight(x, 17) == Right17(x)
  {
    assert Right7(Right10(x)) == Right17(x);
    hide *;
    RightThen(x, 10, 7);
    RightBy10(x);
    RightBy7(Right10(x));
  }

  lemma RightBy18(x: bv32)
    ensures ShiftRight(x, 18) == Right18(x)
  {
    assert Right7(Right11(x)) == Right18(x);
    hide *;
    RightThen(x, 11, 7);
    RightBy11(x);
    RightBy7(Right11(x));
  }

  lemma RightBy19(x: bv32)
    ensures ShiftRight(x, 19) == Right19(x)
  {
    assert Right6(Right13(x)) == Right19(x);
    hide *;
    RightThen(x, 13, 6);
    RightBy13(x);
    RightBy6(Right13(x));
  }

  lemma RightBy22(x: bv32)
    ensures ShiftRight(x, 22) == Right22(x)
  {
    assert Right11(Right11(x)) == Right22(x);
    hide *;
    RightThen(x, 11, 11);
    RightBy11(x);
    RightBy11(Right11(x));
  }

  lemma RightBy25(x: bv32)
    ensures ShiftRight(x, 25) == Right25(x)
  {
    assert Right7(Right18(x)) == Right25(x);
    hide *;
    RightThen(x, 18, 7);
    RightBy18(x);
    RightBy7(Right18(x));
  }

  function Left1(x: bv32): bv32 { x << 1 }
  function Left2(x: bv32): bv32 { x << 2 }
  function Left3(x: bv32): bv32 { x << 3 }
  function Left6(x: bv32): bv32 { x << 6 }
  function Left7(x: bv32): bv32 { x << 7 }
  function Left10(x: bv32): bv32 { x << 10 }
  function Left13(x: bv32): bv32 { x << 13 }
  function Left14(x: bv32): bv32 { x << 14 }
  function Left15(x: bv32): bv32 { x << 15 }
  function Left19(x: bv32): bv32 { x << 19 }
  function Left21(x: bv32): bv32 { x << 21 }
  function Left25(x: bv32): bv32 { x << 25 }
  function Left26(x: bv32): bv32 { x << 26 }
  function Left30(x: bv32): bv32 { x << 30 }

  lemma LeftThen(x: bv32, a: nat, b: nat)
    ensures ShiftLeft(x, a + b) == ShiftLeft(ShiftLeft(x, a), b)
    decreases b
  {
    hide Twice;
    if b > 0 {
      LeftThen(x, a, b - 1);
    }
  }

  lemma LeftBy1(x: bv32)
    ensures ShiftLeft(x, 1) == Left1(x)
  {
    assert ShiftLeft(x, 0) == x;
  }

  lemma LeftBy2(x: bv32)
    ensures ShiftLeft(x, 2) == Left2(x)
  {
    assert Left1(Left1(x)) == Left2(x);
    hide *;
    LeftThen(x, 1, 1);
    LeftBy1(x);
    LeftBy1(Left1(x));
  }

  lemma LeftBy3(x: bv32)
    ensures ShiftLeft(x, 3) == Left3(x)
  {
    assert Left1(Left2(x)) == Left3(x);
    hide *;
    LeftThen(x, 2, 1);
    LeftBy2(x);
    LeftBy1(Left2(x));
  }

  lemma LeftBy6(x: bv32)
    ensures ShiftLeft(x, 6) == Left6(x)
  {
    assert Left3(Left3(x)) == Left6(x);
    hide *;
    LeftThen(x, 3, 3);
    LeftBy3(x);
    LeftBy3(Left3(x));
  }

  lemma LeftBy7(x: bv32)
    ensures ShiftLeft(x, 7) == Left7(x)
  {
    assert Left1(Left6(x)) == Left7(x);
    hide *;
    LeftThen(x, 6, 1);
    LeftBy6(x);
    LeftBy1(Left6(x));
  }

  lemma LeftBy10(x: bv32)
    ensures ShiftLeft(x, 10) == Left10(x)
  {
    assert Left3(Left7(x)) == Left10(x);
    hide *;
    LeftThen(x, 7, 3);
    LeftBy7(x);
    LeftBy3(Left7(x));
  }

  lemma LeftBy13(x: bv32)
    ensures ShiftLeft(x, 13) == Left13(x)
  {
    assert Left6(Left7(x)) == Left13(x);
    hide *;
    LeftThen(x, 7, 6);
    LeftBy7(x);
    LeftBy6(Left7(x));
  }

  lemma LeftBy14(x: bv32)
    ensures ShiftLeft(x, 14) == Left14(x)
  {
    assert Left7(Left7(x)) == Left14(x);
    hide *;
    LeftThen(x, 7, 7);
    LeftBy7(x);
    LeftBy7(Left7(x));
  }

  lemma LeftBy15(x: bv32)
    ensures ShiftLeft(x, 15) == Left15(x)
  {
    assert Left1(Left14(x)) == Left15(x);
    hide *;
    LeftThen(x, 14, 1);
    LeftBy14(x);
    LeftBy1(Left14(x));
  }

  lemma LeftBy19(x: bv32)
    ensures ShiftLeft(x, 19) == Left19(x)
  {
    assert Left6(Left13(x)) == Left19(x);
    hide *;
    LeftThen(x, 13, 6);
    LeftBy13(x);
    LeftBy6(Left13(x));
  }

  lemma LeftBy21(x: bv32)
    ensures ShiftLeft(x, 21) == Left21(x)
  {
    assert Left6(Left15(x)) == Left21(x);
    hide *;
    LeftThen(x, 15, 6);
    LeftBy15(x);
    LeftBy6(Left15(x));
  }

  lemma LeftBy25(x: bv32)
    ensures ShiftLeft(x, 25) == Left25(x)
  {
    assert Left6(Left19(x)) == Left25(x);
    hide *;
    LeftThen(x, 19, 6);
    LeftBy19(x);
    LeftBy6(Left19(x));
  }

  lemma LeftBy26(x: bv32)
    ensures ShiftLeft(x, 26) == Left26(x)
  {
    assert Left7(Left19(x)) == Left26(x);
    hide *;
    LeftThen(x, 19, 7);
    LeftBy19(x);
    LeftBy7(Left19(x));
  }

  lemma LeftBy30(x: bv32)
    ensures ShiftLeft(x, 30) == Left30(x)
  {
    assert Left15(Left15(x)) == Left30(x);
    hide *;
    LeftThen(x, 15, 15);
    LeftBy15(x);
    LeftBy15(Left15(x));
  }

  // ------------------------------------------------------------ the functions of section 4.1.2

  /** A rotation, as the specification puts it together. */
  function Rotated(x: bv32, n: nat): bv32
    requires n < 32
  {
    Or32(ShiftRight(x, n), ShiftLeft(x, 32 - n))
  }

  lemma RotrIs(x: bv32, n: nat)
    requires 0 < n < 32
    ensures Rotr(Value(x), n) == Value(Rotated(x, n))
  {
    hide Shr, Shl, Bitwise, Word32, Or32, Value;
    NativeShr(x, n);
    var m := 32 - n;
    forall i | 0 <= i < m ensures LeftValues(x, m)[i + 1] == 2 * LeftValues(x, m)[i] % TWO32 {
      LeftDoubles(x, m, i);
    }
    Doubled(LeftValues(x, m), m);
    assert ShiftLeft(x, 0) == x;
    NativeOp(OR, ShiftRight(x, n), ShiftLeft(x, 32 - n));
  }

  lemma Xor3Is(x: bv32, y: bv32, z: bv32)
    ensures Xor3(Value(x), Value(y), Value(z)) == Value(Xor32(Xor32(x, y), z))
  {
    hide Value, Bitwise, Word32, Xor32;
    NativeOp(XOR, x, y);
    NativeOp(XOR, Xor32(x, y), z);
  }

  lemma SigmaParts(x: bv32)
    ensures Sigma0(x) == Xor32(Xor32(Rotated(x, 2), Rotated(x, 13)), Rotated(x, 22))
    ensures Sigma1(x) == Xor32(Xor32(Rotated(x, 6), Rotated(x, 11)), Rotated(x, 25))
    ensures Extend0(x) == Xor32(Xor32(Rotated(x, 7), Rotated(x, 18)), ShiftRight(x, 3))
    ensures Extend1(x) == Xor32(Xor32(Rotated(x, 17), Rotated(x, 19)), ShiftRight(x, 10))
  {
    hide ShiftRight, ShiftLeft, Xor32, Or32;
    hide Right2, Right3, Right6, Right7, Right10, Right11, Right13, Right17, Right18, Right19, Right22, Right25;
    hide Left7, Left10, Left13, Left14, Left15, Left19, Left21, Left25, Left26, Left30;
    RightBy2(x); RightBy3(x); RightBy6(x); RightBy7(x); RightBy10(x); RightBy11(x);
    RightBy13(x); RightBy17(x); RightBy18(x); RightBy19(x); RightBy22(x); RightBy25(x);
    LeftBy7(x); LeftBy10(x); LeftBy13(x); LeftBy14(x); LeftBy15(x);
    LeftBy19(x); LeftBy21(x); LeftBy25(x); LeftBy26(x); LeftBy30(x);
  }

  lemma SigmasAre(x: bv32)
    ensures BigSigma0(Value(x)) == Value(Sigma0(x)) && BigSigma1(Value(x)) == Value(Sigma1(x))
    ensures SmallSigma0(Value(x)) == Value(Extend0(x)) && SmallSigma1(Value(x)) == Value(Extend1(x))
  {
    SigmaParts(x);
    hide Value, Rotr, Xor3, Shr, Rotated, ShiftRight, Xor32, Sigma0, Sigma1, Extend0, Extend1;
    RotrIs(x, 2); RotrIs(x, 13); RotrIs(x, 22);
    RotrIs(x, 6); RotrIs(x, 11); RotrIs(x, 25);
    RotrIs(x, 7); RotrIs(x, 18); RotrIs(x, 17); RotrIs(x, 19);
    NativeShr(x, 3);
    NativeShr(x, 10);
    Xor3Is(Rotated(x, 2), Rotated(x, 13), Rotated(x, 22));
    Xor3Is(Rotated(x, 6), Rotated(x, 11), Rotated(x, 25));
    Xor3Is(Rotated(x, 7), Rotated(x, 18), ShiftRight(x, 3));
    Xor3Is(Rotated(x, 17), Rotated(x, 19), ShiftRight(x, 10));
  }

  lemma ChoicesAre(x: bv32, y: bv32, z: bv32)
    ensures Ch(Value(x), Value(y), Value(z)) == Value(Choose(x, y, z))
    ensures Maj(Value(x), Value(y), Value(z)) == Value(Majority(x, y, z))
  {
    hide Value, Bitwise, Word32, Not, And32, Xor32, Inverted;
    NativeNot(x);
    NativeOp(AND, x, y);
    NativeOp(AND, Inverted(x), z);
    NativeOp(AND, x, z);
    NativeOp(AND, y, z);
    NativeOp(XOR, And32(x, y), And32(Inverted(x), z));
    NativeOp(XOR, And32(x, y), And32(x, z));
    NativeOp(XOR, Xor32(And32(x, y), And32(x, z)), And32(y, z));
  }

  // ------------------------------------------------------------ one step of section 6.2.2

  datatype Vars = Vars(a: bv32, b: bv32, c: bv32, d: bv32, e: bv32, f: bv32, g: bv32, h: bv32)

  function StateOf(v: Vars): State
  {
    State(Value(v.a), Value(v.b), Value(v.c), Value(v.d), Value(v.e), Value(v.f), Value(v.g), Value(v.h))
  }

  function NextVars(v: Vars, k: bv32, w: bv32): Vars
  {
    var t1 := Sum(Sum(Sum(Sum(v.h, Sigma1(v.e)), Choose(v.e, v.f, v.g)), k), w);
    var t2 := Sum(Sigma0(v.a), Majority(v.a, v.b, v.c));
    Vars(Sum(t1, t2), v.a, v.b, v.c, Sum(v.d, t1), v.e, v.f, v.g)
  }

  lemma SumIs(x: bv32, y: bv32)
    ensures Value(Sum(x, y)) == Reduce(Value(x) + Value(y))
  {
    hide Value, Sum;
    NativeAdd(x, y);
  }

  lemma ReduceTwice(x: nat, y: nat)
    ensures Reduce(Reduce(x) + y) == Reduce(x + y)
  {
    var q := x / TWO32;
    assert x + y == Reduce(x) + y + q * TWO32;
  }

  lemma FourSums(a: bv32, b: bv32, c: bv32, d: bv32)
    ensures Value(Sum(Sum(Sum(a, b), c), d)) == Reduce(Value(a) + Value(b) + Value(c) + Value(d))
  {
    hide Value, Sum, Reduce;
    SumIs(a, b);
    SumIs(Sum(a, b), c);
    SumIs(Sum(Sum(a, b), c), d);
    ReduceTwice(Value(a) + Value(b), Value(c));
    ReduceTwice(Value(a) + Value(b) + Value(c), Value(d));
  }

  lemma FiveSums(a: bv32, b: bv32, c: bv32, d: bv32, e: bv32)
    ensures Value(Sum(Sum(Sum(Sum(a, b), c), d), e)) == Reduce(Value(a) + Value(b) + Value(c) + Value(d) + Value(e))
  {
    hide Value, Sum, Reduce;
    FourSums(a, b, c, d);
    SumIs(Sum(Sum(Sum(a, b), c), d), e);
    ReduceTwice(Value(a) + Value(b) + Value(c) + Value(d), Value(e));
  }

  lemma RoundIs(v: Vars, k: bv32, w: bv32)
    ensures Round(StateOf(v), Value(k), Value(w)) == StateOf(NextVars(v, k, w))
  {
    SigmasAre(v.e);
    SigmasAre(v.a);
    ChoicesAre(v.e, v.f, v.g);
    ChoicesAre(v.a, v.b, v.c);
    hide Value, Sum, Reduce, BigSigma0, BigSigma1, SmallSigma0, SmallSigma1, Ch, Maj;
    hide Sigma0, Sigma1, Extend0, Extend1, Choose, Majority;
    var t1 := Sum(Sum(Sum(Sum(v.h, Sigma1(v.e)), Choose(v.e, v.f, v.g)), k), w);
    var t2 := Sum(Sigma0(v.a), Majority(v.a, v.b, v.c));
    FiveSums(v.h, Sigma1(v.e), Choose(v.e, v.f, v.g), k, w);
    SumIs(Sigma0(v.a), Majority(v.a, v.b, v.c));
    SumIs(t1, t2);
    SumIs(v.d, t1);
  }

  /** The next word of the schedule from four of the last sixteen. */
  function NextWord(w2: bv32, w7: bv32, w15: bv32, w16: bv32): bv32
  {
    Sum(Sum(Sum(Extend1(w2), w7), Extend0(w15)), w16)
  }

  lemma WordIs(w2: bv32, w7: bv32, w15: bv32, w16: bv32)
    ensures Value(NextWord(w2, w7, w15, w16))
            == Reduce(SmallSigma1(Value(w2)) + Value(w7) + SmallSigma0(Value(w15)) + Value(w16))
  {
    SigmasAre(w2);
    SigmasAre(w15);
    hide Value, Sum, Reduce, BigSigma0, BigSigma1, SmallSigma0, SmallSigma1, Sigma0, Sigma1, Extend0, Extend1;
    FourSums(Extend1(w2), w7, Extend0(w15), w16);
  }

  // ------------------------------------------------------------ following the specification round by round

  /** Word t of the schedule of a block. */
  predicate IsWord(block: Bytes, t: nat, w: bv32) { |block| == 64 && t < 64 && Schedule(block, t) == Value(w) }

  /** The constant of round t. */
  predicate IsConstant(t: nat, k: bv32) { t < 64 && K[t] == Value(k) }

  datatype Eight = Eight(x0: bv32, x1: bv32, x2: bv32, x3: bv32, x4: bv32, x5: bv32, x6: bv32, x7: bv32)

  /** Eight words of the schedule from t on. */
  predicate AreWords(block: Bytes, t: nat, w: Eight)
  {
    && IsWord(block, t, w.x0) && IsWord(block, t + 1, w.x1) && IsWord(block, t + 2, w.x2) && IsWord(block, t + 3, w.x3)
    && IsWord(block, t + 4, w.x4) && IsWord(block, t + 5, w.x5) && IsWord(block, t + 6, w.x6)
    && IsWord(block, t + 7, w.x7)
  }

  /** The constants of eight rounds from t on. */
  predicate AreConstants(t: nat, k: Eight)
  {
    && IsConstant(t, k.x0) && IsConstant(t + 1, k.x1) && IsConstant(t + 2, k.x2) && IsConstant(t + 3, k.x3)
    && IsConstant(t + 4, k.x4) && IsConstant(t + 5, k.x5) && IsConstant(t + 6, k.x6) && IsConstant(t + 7, k.x7)
  }

  /** The working variables before round t. */
  predicate AreVars(start: State, block: Bytes, t: nat, v: Vars)
  {
    |block| == 64 && t <= 64 && Rounds(start, block, t) == StateOf(v)
  }

  lemma NextRounds(start: State, block: Bytes, t: nat)
    requires |block| == 64 && t < 64
    ensures Rounds(start, block, t + 1) == Round(Rounds(start, block, t), K[t], Schedule(block, t))
  {
  }

  lemma {:induction false} VarsFollow(start: State, block: Bytes, t: nat, v: Vars, k: bv32, w: bv32)
    requires AreVars(start, block, t, v) && IsConstant(t, k) && IsWord(block, t, w)
    ensures AreVars(start, block, t + 1, NextVars(v, k, w))
  {
    hide Schedule, Rounds, Round, Value, NextVars, StateOf;
    RoundIs(v, k, w);
    NextRounds(start, block, t);
  }

  /** A round whose two new variables are a and e. */
  lemma {:induction false} RoundStep(
    start: State, block: Bytes, t: nat, v: Vars, k: bv32, w: bv32, a: bv32, e: bv32)
    requires AreVars(start, block, t, v) && IsConstant(t, k) && IsWord(block, t, w)
    requires NextVars(v, k, w) == Vars(a, v.a, v.b, v.c, e, v.e, v.f, v.g)
    ensures AreVars(start, block, t + 1, Vars(a, v.a, v.b, v.c, e, v.e, v.f, v.g))
  {
    hide *;
    VarsFollow(start, block, t, v, k, w);
  }

  lemma NextSchedule(block: Bytes, t: nat)
    requires |block| == 64 && 16 <= t < 64
    ensures Schedule(block, t) == Reduce(SmallSigma1(Schedule(block, t - 2)) + Schedule(block, t - 7)
                                         + SmallSigma0(Schedule(block, t - 15)) + Schedule(block, t - 16))
  {
  }

  /** A word of the schedule after the sixteenth. */
  lemma {:induction false} WordStep(block: Bytes, t: nat, w2: bv32, w7: bv32, w15: bv32, w16: bv32, w: bv32)
    requires 16 <= t < 64 && IsWord(block, t - 2, w2) && IsWord(block, t - 7, w7)
    requires IsWord(block, t - 15, w15) && IsWord(block, t - 16, w16) && NextWord(w2, w7, w15, w16) == w
    ensures IsWord(block, t, w)
  {
    hide Schedule, Value, NextWord, SmallSigma0, SmallSigma1, Reduce;
    NextSchedule(block, t);
    WordIs(w2, w7, w15, w16);
  }
}
