/** FIPS 180-4 SHA-256 over byte strings. Section numbers refer to that standard. */
module Sha256Spec {
  import opened Bits32

  // Section 4.1.2: functions on words; ROTR and SHR are those of section 3.2.

  function Rotr(x: Word, n: nat): Word
    requires 0 < n < 32
  {
    Or(Shr(x, n), Shl(x, 32 - n))
  }

  function Xor3(x: Word, y: Word, z: Word): Word { Xor(Xor(x, y), z) }
  function Ch(x: Word, y: Word, z: Word): Word { Xor(And(x, y), And(Not(x), z)) }
  function Maj(x: Word, y: Word, z: Word): Word { Xor3(And(x, y), And(x, z), And(y, z)) }
  function BigSigma0(x: Word): Word { Xor3(Rotr(x, 2), Rotr(x, 13), Rotr(x, 22)) }
  function BigSigma1(x: Word): Word { Xor3(Rotr(x, 6), Rotr(x, 11), Rotr(x, 25)) }
  function SmallSigma0(x: Word): Word { Xor3(Rotr(x, 7), Rotr(x, 18), Shr(x, 3)) }
  function SmallSigma1(x: Word): Word { Xor3(Rotr(x, 17), Rotr(x, 19), Shr(x, 10)) }

  // Sections 4.2.2 and 5.3.3.

  const K0: seq<Word> := [
    0x428a2f98, 0x71374491, 0xb5c0fbcf, 0xe9b5dba5, 0x3956c25b, 0x59f111f1, 0x923f82a4, 0xab1c5ed5]
  const K1: seq<Word> := [
    0xd807aa98, 0x12835b01, 0x243185be, 0x550c7dc3, 0x72be5d74, 0x80deb1fe, 0x9bdc06a7, 0xc19bf174]
  const K2: seq<Word> := [
    0xe49b69c1, 0xefbe4786, 0x0fc19dc6, 0x240ca1cc, 0x2de92c6f, 0x4a7484aa, 0x5cb0a9dc, 0x76f988da]
  const K3: seq<Word> := [
    0x983e5152, 0xa831c66d, 0xb00327c8, 0xbf597fc7, 0xc6e00bf3, 0xd5a79147, 0x06ca6351, 0x14292967]
  const K4: seq<Word> := [
    0x27b70a85, 0x2e1b2138, 0x4d2c6dfc, 0x53380d13, 0x650a7354, 0x766a0abb, 0x81c2c92e, 0x92722c85]
  const K5: seq<Word> := [
    0xa2bfe8a1, 0xa81a664b, 0xc24b8b70, 0xc76c51a3, 0xd192e819, 0xd6990624, 0xf40e3585, 0x106aa070]
  const K6: seq<Word> := [
    0x19a4c116, 0x1e376c08, 0x2748774c, 0x34b0bcb5, 0x391c0cb3, 0x4ed8aa4a, 0x5b9cca4f, 0x682e6ff3]
  const K7: seq<Word> := [
    0x748f82ee, 0x78a5636f, 0x84c87814, 0x8cc70208, 0x90befffa, 0xa4506ceb, 0xbef9a3f7, 0xc67178f2]

  /** The round constants, eight to a row. */
  const K: seq<Word> := K0 + K1 + K2 + K3 + K4 + K5 + K6 + K7

  datatype State = State(a: Word, b: Word, c: Word, d: Word, e: Word, f: Word, g: Word, h: Word)

  const H0 := State(0x6a09e667, 0xbb67ae85, 0x3c6ef372, 0xa54ff53a, 0x510e527f, 0x9b05688c, 0x1f83d9ab, 0x5be0cd19)

  // Section 5.1.1: append 1, then k zero bits with l + 1 + k = 448 mod 512, then l in 64 bits.

  function Zeros(n: nat): (z: Bytes)
    ensures |z| == n && forall b <- z :: b == 0
  {
    seq(n, _ => 0 as Byte)
  }

  /** The least number of zero bytes that leaves room for the length field. */
  function ZeroCount(length: nat): (z: nat)
    ensures (length + 1 + z) % 64 == 56 && z < 64
  {
    (55 - length) % 64
  }

  /** `value` in `n` big-endian bytes, reduced mod 256^n. */
  function BigEndian(value: nat, n: nat): (r: Bytes)
    ensures |r| == n
    decreases n, value
  {
    if n == 0 then [] else BigEndian(value / 256, n - 1) + [value % 256]
  }

  function Pad(message: Bytes): (r: Bytes)
    ensures |r| == |message| + 1 + ZeroCount(|message|) + 8
  {
    message + [0x80] + Zeros(ZeroCount(|message|)) + BigEndian(8 * |message|, 8)
  }

  // Section 5.2.1: a block is sixteen 32-bit words; section 6.2.2 steps 1 to 4.

  function BlockWord(block: Bytes, t: nat): Word
    requires |block| == 64 && t < 16
  {
    var b0: nat, b1: nat, b2: nat, b3: nat := block[4 * t], block[4 * t + 1], block[4 * t + 2], block[4 * t + 3];
    b0 * 0x100_0000 + b1 * 0x1_0000 + b2 * 0x100 + b3
  }

  function Schedule(block: Bytes, t: nat): Word
    requires |block| == 64 && t < 64
    decreases t, |block|
  {
    if t < 16 then BlockWord(block, t)
    else Reduce(SmallSigma1(Schedule(block, t - 2)) + Schedule(block, t - 7)
                + SmallSigma0(Schedule(block, t - 15)) + Schedule(block, t - 16))
  }

  function Round(s: State, k: Word, w: Word): State
  {
    var t1 := Reduce(s.h + BigSigma1(s.e) + Ch(s.e, s.f, s.g) + k + w);
    var t2 := Reduce(BigSigma0(s.a) + Maj(s.a, s.b, s.c));
    State(Reduce(t1 + t2), s.a, s.b, s.c, Reduce(s.d + t1), s.e, s.f, s.g)
  }

  function Rounds(s: State, block: Bytes, t: nat): State
    requires |block| == 64 && t <= 64
    decreases t, s
  {
    if t == 0 then s else Round(Rounds(s, block, t - 1), K[t - 1], Schedule(block, t - 1))
  }

  function Add(s: State, q: State): State
  {
    State(Reduce(s.a + q.a), Reduce(s.b + q.b), Reduce(s.c + q.c), Reduce(s.d + q.d),
          Reduce(s.e + q.e), Reduce(s.f + q.f), Reduce(s.g + q.g), Reduce(s.h + q.h))
  }

  function Compress(s: State, block: Bytes): State
    requires |block| == 64
  {
    Add(s, Rounds(s, block, |block|))
  }

  /** Feed `data` to `step` in 64-byte blocks; a short rest is ignored. */
  function FoldBlocks(step: (State, Bytes) -> State, s: State, data: Bytes): State
    decreases |data|
  {
    if |data| < 64 then s else FoldBlocks(step, step(s, data[..64]), data[64..])
  }

  const STEP: (State, Bytes) -> State := (s, block) => if |block| == 64 then Compress(s, block) else s

  function HashBlocks(s: State, data: Bytes): State { FoldBlocks(STEP, s, data) }

  function Words(s: State): seq<Word> { [s.a, s.b, s.c, s.d, s.e, s.f, s.g, s.h] }

  function Final(message: Bytes): State { HashBlocks(H0, Pad(message)) }

  /** The digest: the eight final words, each in big-endian bytes. */
  function Digest(message: Bytes): (r: Bytes)
    ensures |r| == 32
  {
    Serialize(Words(Final(message)))
  }

  function Serialize(words: seq<Word>): (r: Bytes)
    ensures |r| == 4 * |words|
  {
    if words == [] then [] else BigEndian(words[0], 4) + Serialize(words[1..])
  }

  // ------------------------------------------------------------ facts

  lemma {:induction false} FoldBlocksAppend(step: (State, Bytes) -> State, s: State, data: Bytes, tail: Bytes)
    requires |data| % 64 == 0
    ensures FoldBlocks(step, s, data + tail) == FoldBlocks(step, FoldBlocks(step, s, data), tail)
    decreases |data|
  {
    if data == [] {
      assert data + tail == tail;
    } else {
      assert (data + tail)[..64] == data[..64];
      assert (data + tail)[64..] == data[64..] + tail;
      FoldBlocksAppend(step, step(s, data[..64]), data[64..], tail);
    }
  }

  lemma FoldOneBlock(step: (State, Bytes) -> State, s: State, block: Bytes)
    requires |block| == 64
    ensures FoldBlocks(step, s, block) == step(s, block)
  {
    assert block[..64] == block;
    assert block[64..] == [];
  }

  /** Hashing one more block after whole blocks is one more compression. */
  lemma HashOneMore(s: State, data: Bytes, block: Bytes)
    requires |data| % 64 == 0 && |block| == 64
    ensures HashBlocks(s, data + block) == Compress(HashBlocks(s, data), block)
  {
    FoldBlocksAppend(STEP, s, data, block);
    FoldOneBlock(STEP, HashBlocks(s, data), block);
  }

  /** The padding is the shortest one the standard allows. */
  lemma PaddingIsMinimal(length: nat, z: nat)
    requires (length + 1 + z) % 64 == 56
    ensures ZeroCount(length) <= z
  {
  }

  lemma UniqueZeroCount(length: nat, z: nat)
    requires (length + 1 + z) % 64 == 56 && z < 64
    ensures z == ZeroCount(length)
  {
  }

  lemma BigEndianWord(v: nat)
    ensures BigEndian(v, 4) == [v / 0x100_0000 % 256, v / 0x1_0000 % 256, v / 0x100 % 256, v % 256]
  {
    var v1 := v / 256;
    var v2 := v1 / 256;
    var v3 := v2 / 256;
    assert BigEndian(v3, 1) == BigEndian(v3 / 256, 0) + [v3 % 256];
    assert BigEndian(v2, 2) == BigEndian(v3, 1) + [v2 % 256];
    assert BigEndian(v1, 3) == BigEndian(v2, 2) + [v1 % 256];
  }

  /** The 64-bit length field is its high word followed by its low word. */
  lemma BigEndianSplit(v: nat)
    ensures BigEndian(v, 8) == BigEndian(Reduce(v / TWO32), 4) + BigEndian(Reduce(v), 4)
  {
    var h := v / TWO32;
    BigEndianMod(h);
    BigEndianMod(v);
    var v1 := v / 256;
    var v2 := v1 / 256;
    var v3 := v2 / 256;
    DropWord(v);
    BigEndianWord(v);
    DropBytes(v);
    hide Reduce;
    assert BigEndian(v3, 5) == BigEndian(h, 4) + [v3 % 256];
    assert BigEndian(v2, 6) == BigEndian(v3, 5) + [v2 % 256];
    assert BigEndian(v1, 7) == BigEndian(v2, 6) + [v1 % 256];
  }

  lemma DropWord(v: nat)
    ensures v / 256 / 256 / 256 / 256 == v / TWO32
  {
  }

  lemma BigEndianMod(v: nat)
    ensures BigEndian(v, 4) == BigEndian(Reduce(v), 4)
  {
    var h, r: nat := v / TWO32, Reduce(v);
    BigEndianWord(v);
    BigEndianWord(r);
    ByteOfSum(h, r);
    assert v == h * TWO32 + r;
  }

  /** Dropping the last byte of a number whose high part is a multiple of 256. */
  lemma ByteDown(high: nat, low: nat)
    ensures (256 * high + low) / 256 == high + low / 256 && (256 * high + low) % 256 == low % 256
  {
  }

  lemma DropBytes(v: nat)
    ensures v / 256 / 256 == v / 0x1_0000 && v / 256 / 256 / 256 == v / 0x100_0000
  {
  }

  lemma ByteOfSum(h: nat, r: nat)
    ensures var v := h * TWO32 + r;
            && v / 0x100_0000 % 256 == r / 0x100_0000 % 256
            && v / 0x1_0000 % 256 == r / 0x1_0000 % 256
            && v / 0x100 % 256 == r / 0x100 % 256
            && v % 256 == r % 256
  {
    var v := h * TWO32 + r;
    ByteDown(h * 0x100_0000, r);
    ByteDown(h * 0x1_0000, r / 256);
    ByteDown(h * 0x100, r / 256 / 256);
    ByteDown(h, r / 256 / 256 / 256);
    DropBytes(v);
    DropBytes(r);
  }

  // ------------------------------------------------------------ where the constants come from

  const P0: seq<nat> := [2, 3, 5, 7, 11, 13, 17, 19]
  const P1: seq<nat> := [23, 29, 31, 37, 41, 43, 47, 53]
  const P2: seq<nat> := [59, 61, 67, 71, 73, 79, 83, 89]
  const P3: seq<nat> := [97, 101, 103, 107, 109, 113, 127, 131]
  const P4: seq<nat> := [137, 139, 149, 151, 157, 163, 167, 173]
  const P5: seq<nat> := [179, 181, 191, 193, 197, 199, 211, 223]
  const P6: seq<nat> := [227, 229, 233, 239, 241, 251, 257, 263]
  const P7: seq<nat> := [269, 271, 277, 281, 283, 293, 307, 311]

  /** The first 64 primes. */
  const PRIMES: seq<nat> := P0 + P1 + P2 + P3 + P4 + P5 + P6 + P7

  const TWO96: nat := 0x1_0000_0000_0000_0000_0000_0000

  /** `root` is the cube root of `n` in fixed point with 32 fractional bits, rounded down. */
  predicate IsCubeRoot(n: nat, root: nat)
  {
    root * root * root <= n * TWO96 < (root + 1) * (root + 1) * (root + 1)
  }

  /** `word` is the first 32 bits of the fractional part of the cube root of `n`. */
  ghost predicate IsCubeRootWord(n: nat, word: Word)
  {
    exists root: nat :: IsCubeRoot(n, root) && root % TWO32 == word
  }

  ghost predicate AreCubeRootWords(numbers: seq<nat>, words: seq<Word>)
  {
    |numbers| == |words| && forall i :: 0 <= i < |words| ==> IsCubeRootWord(numbers[i], words[i])
  }

  lemma RowsTogether(m: seq<nat>, n: seq<nat>, v: seq<Word>, w: seq<Word>)
    requires AreCubeRootWords(m, v) && AreCubeRootWords(n, w)
    ensures AreCubeRootWords(m + n, v + w)
  {
    hide IsCubeRootWord;
  }

  lemma RootWord(n: nat, root: nat, word: Word)
    requires IsCubeRoot(n, root) && root % TWO32 == word
    ensures IsCubeRootWord(n, word)
  {
  }

  lemma Row0()
    ensures AreCubeRootWords(P0, K0)
  {
    hide IsCubeRootWord;
    RootWord(2, 0x1_428a2f98, 0x428a2f98);
    RootWord(3, 0x1_71374491, 0x71374491);
    RootWord(5, 0x1_b5c0fbcf, 0xb5c0fbcf);
    RootWord(7, 0x1_e9b5dba5, 0xe9b5dba5);
    RootWord(11, 0x2_3956c25b, 0x3956c25b);
    RootWord(13, 0x2_59f111f1, 0x59f111f1);
    RootWord(17, 0x2_923f82a4, 0x923f82a4);
    RootWord(19, 0x2_ab1c5ed5, 0xab1c5ed5);
  }

  lemma Row1()
    ensures AreCubeRootWords(P1, K1)
  {
    hide IsCubeRootWord;
    RootWord(23, 0x2_d807aa98, 0xd807aa98);
    RootWord(29, 0x3_12835b01, 0x12835b01);
    RootWord(31, 0x3_243185be, 0x243185be);
    RootWord(37, 0x3_550c7dc3, 0x550c7dc3);
    RootWord(41, 0x3_72be5d74, 0x72be5d74);
    RootWord(43, 0x3_80deb1fe, 0x80deb1fe);
    RootWord(47, 0x3_9bdc06a7, 0x9bdc06a7);
    RootWord(53, 0x3_c19bf174, 0xc19bf174);
  }

  lemma Row2()
    ensures AreCubeRootWords(P2, K2)
  {
    hide IsCubeRootWord;
    RootWord(59, 0x3_e49b69c1, 0xe49b69c1);
    RootWord(61, 0x3_efbe4786, 0xefbe4786);
    RootWord(67, 0x4_0fc19dc6, 0x0fc19dc6);
    RootWord(71, 0x4_240ca1cc, 0x240ca1cc);
    RootWord(73, 0x4_2de92c6f, 0x2de92c6f);
    RootWord(79, 0x4_4a7484aa, 0x4a7484aa);
    RootWord(83, 0x4_5cb0a9dc, 0x5cb0a9dc);
    RootWord(89, 0x4_76f988da, 0x76f988da);
  }

  lemma Row3()
    ensures AreCubeRootWords(P3, K3)
  {
    hide IsCubeRootWord;
    RootWord(97, 0x4_983e5152, 0x983e5152);
    RootWord(101, 0x4_a831c66d, 0xa831c66d);
    RootWord(103, 0x4_b00327c8, 0xb00327c8);
    RootWord(107, 0x4_bf597fc7, 0xbf597fc7);
    RootWord(109, 0x4_c6e00bf3, 0xc6e00bf3);
    RootWord(113, 0x4_d5a79147, 0xd5a79147);
    RootWord(127, 0x5_06ca6351, 0x06ca6351);
    RootWord(131, 0x5_14292967, 0x14292967);
  }

  lemma Row4()
    ensures AreCubeRootWords(P4, K4)
  {
    hide IsCubeRootWord;
    RootWord(137, 0x5_27b70a85, 0x27b70a85);
    RootWord(139, 0x5_2e1b2138, 0x2e1b2138);
    RootWord(149, 0x5_4d2c6dfc, 0x4d2c6dfc);
    RootWord(151, 0x5_53380d13, 0x53380d13);
    RootWord(157, 0x5_650a7354, 0x650a7354);
    RootWord(163, 0x5_766a0abb, 0x766a0abb);
    RootWord(167, 0x5_81c2c92e, 0x81c2c92e);
    RootWord(173, 0x5_92722c85, 0x92722c85);
  }

  lemma Row5()
    ensures AreCubeRootWords(P5, K5)
  {
    hide IsCubeRootWord;
    RootWord(179, 0x5_a2bfe8a1, 0xa2bfe8a1);
    RootWord(181, 0x5_a81a664b, 0xa81a664b);
    RootWord(191, 0x5_c24b8b70, 0xc24b8b70);
    RootWord(193, 0x5_c76c51a3, 0xc76c51a3);
    RootWord(197, 0x5_d192e819, 0xd192e819);
    RootWord(199, 0x5_d6990624, 0xd6990624);
    RootWord(211, 0x5_f40e3585, 0xf40e3585);
    RootWord(223, 0x6_106aa070, 0x106aa070);
  }

  lemma Row6()
    ensures AreCubeRootWords(P6, K6)
  {
    hide IsCubeRootWord;
    RootWord(227, 0x6_19a4c116, 0x19a4c116);
    RootWord(229, 0x6_1e376c08, 0x1e376c08);
    RootWord(233, 0x6_2748774c, 0x2748774c);
    RootWord(239, 0x6_34b0bcb5, 0x34b0bcb5);
    RootWord(241, 0x6_391c0cb3, 0x391c0cb3);
    RootWord(251, 0x6_4ed8aa4a, 0x4ed8aa4a);
    RootWord(257, 0x6_5b9cca4f, 0x5b9cca4f);
    RootWord(263, 0x6_682e6ff3, 0x682e6ff3);
  }

  lemma Row7()
    ensures AreCubeRootWords(P7, K7)
  {
    hide IsCubeRootWord;
    RootWord(269, 0x6_748f82ee, 0x748f82ee);
    RootWord(271, 0x6_78a5636f, 0x78a5636f);
    RootWord(277, 0x6_84c87814, 0x84c87814);
    RootWord(281, 0x6_8cc70208, 0x8cc70208);
    RootWord(283, 0x6_90befffa, 0x90befffa);
    RootWord(293, 0x6_a4506ceb, 0xa4506ceb);
    RootWord(307, 0x6_bef9a3f7, 0xbef9a3f7);
    RootWord(311, 0x6_c67178f2, 0xc67178f2);
  }

  /** The 64 round constants are those of FIPS 180-4 section 4.2.2. */
  lemma ConstantsAreCubeRoots()
    ensures |K| == 64 && AreCubeRootWords(PRIMES, K)
  {
    hide AreCubeRootWords;
    Row0();
    Row1();
    Row2();
    Row3();
    Row4();
    Row5();
    Row6();
    Row7();
    RowsTogether(P0, P1, K0, K1);
    RowsTogether(P0 + P1, P2, K0 + K1, K2);
    RowsTogether(P0 + P1 + P2, P3, K0 + K1 + K2, K3);
    RowsTogether(P0 + P1 + P2 + P3, P4, K0 + K1 + K2 + K3, K4);
    RowsTogether(P0 + P1 + P2 + P3 + P4, P5, K0 + K1 + K2 + K3 + K4, K5);
    RowsTogether(P0 + P1 + P2 + P3 + P4 + P5, P6, K0 + K1 + K2 + K3 + K4 + K5, K6);
    RowsTogether(P0 + P1 + P2 + P3 + P4 + P5 + P6, P7, K0 + K1 + K2 + K3 + K4 + K5 + K6, K7);
  }

  // ------------------------------------------------------------ the initial state

  /** `root` is the square root of `n` in fixed point with 32 fractional bits, rounded down. */
  predicate IsSquareRoot(n: nat, root: nat)
  {
    root * root <= n * 0x1_0000_0000_0000_0000 < (root + 1) * (root + 1)
  }

  /** `word` is the first 32 bits of the fractional part of the square root of `n`. */
  ghost predicate IsSquareRootWord(n: nat, word: Word)
  {
    exists root: nat :: IsSquareRoot(n, root) && root % TWO32 == word
  }

  lemma SquareRootWord(n: nat, root: nat, word: Word)
    requires IsSquareRoot(n, root) && root % TWO32 == word
    ensures IsSquareRootWord(n, word)
  {
  }

  /** Section 5.3.3: the initial state comes from the square roots of the first eight primes. */
  lemma InitialStateIsSquareRoots()
    ensures forall i :: 0 <= i < 8 ==> IsSquareRootWord(P0[i], Words(H0)[i])
  {
    hide IsSquareRootWord;
    SquareRootWord(2, 0x1_6a09e667, H0.a);
    SquareRootWord(3, 0x1_bb67ae85, H0.b);
    SquareRootWord(5, 0x2_3c6ef372, H0.c);
    SquareRootWord(7, 0x2_a54ff53a, H0.d);
    SquareRootWord(11, 0x3_510e527f, H0.e);
    SquareRootWord(13, 0x3_9b05688c, H0.f);
    SquareRootWord(17, 0x4_1f83d9ab, H0.g);
    SquareRootWord(19, 0x4_5be0cd19, H0.h);
  }
}
