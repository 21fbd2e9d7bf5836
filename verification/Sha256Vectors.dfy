/**
 * Known answers: the two SHA-256 examples published with FIPS 180-4, one message of one block
 * and one of two, worked round by round on machine words.
 */
module Sha256Vectors {
  import opened Bits32
  import opened Sha256Spec
  import opened NativeWords
  import opened NativeSha256
  import Hex

  // ------------------------------------------------------------ constants

  lemma Constants0Low()
    ensures IsConstant(0, 0x428a2f98) && IsConstant(1, 0x71374491)
    ensures IsConstant(2, 0xb5c0fbcf) && IsConstant(3, 0xe9b5dba5)
  {
  }

  lemma Constants0High()
    ensures IsConstant(4, 0x3956c25b) && IsConstant(5, 0x59f111f1)
    ensures IsConstant(6, 0x923f82a4) && IsConstant(7, 0xab1c5ed5)
  {
  }

  lemma Constants0()
    ensures AreConstants(0, Eight(0x428a2f98, 0x71374491, 0xb5c0fbcf, 0xe9b5dba5,
                                  0x3956c25b, 0x59f111f1, 0x923f82a4, 0xab1c5ed5))
  {
    hide IsConstant;
    Constants0Low();
    Constants0High();
  }

  lemma Constants1Low()
    ensures IsConstant(8, 0xd807aa98) && IsConstant(9, 0x12835b01)
    ensures IsConstant(10, 0x243185be) && IsConstant(11, 0x550c7dc3)
  {
  }

  lemma Constants1High()
    ensures IsConstant(12, 0x72be5d74) && IsConstant(13, 0x80deb1fe)
    ensures IsConstant(14, 0x9bdc06a7) && IsConstant(15, 0xc19bf174)
  {
  }

  lemma Constants1()
    ensures AreConstants(8, Eight(0xd807aa98, 0x12835b01, 0x243185be, 0x550c7dc3,
                                  0x72be5d74, 0x80deb1fe, 0x9bdc06a7, 0xc19bf174))
  {
    hide IsConstant;
    Constants1Low();
    Constants1High();
  }

  lemma Constants2Low()
    ensures IsConstant(16, 0xe49b69c1) && IsConstant(17, 0xefbe4786)
    ensures IsConstant(18, 0x0fc19dc6) && IsConstant(19, 0x240ca1cc)
  {
  }

  lemma Constants2High()
    ensures IsConstant(20, 0x2de92c6f) && IsConstant(21, 0x4a7484aa)
    ensures IsConstant(22, 0x5cb0a9dc) && IsConstant(23, 0x76f988da)
  {
  }

  lemma Constants2()
    ensures AreConstants(16, Eight(0xe49b69c1, 0xefbe4786, 0x0fc19dc6, 0x240ca1cc,
                                   0x2de92c6f, 0x4a7484aa, 0x5cb0a9dc, 0x76f988da))
  {
    hide IsConstant;
    Constants2Low();
    Constants2High();
  }

  lemma Constants3Low()
    ensures IsConstant(24, 0x983e5152) && IsConstant(25, 0xa831c66d)
    ensures IsConstant(26, 0xb00327c8) && IsConstant(27, 0xbf597fc7)
  {
  }

  lemma Constants3High()
    ensures IsConstant(28, 0xc6e00bf3) && IsConstant(29, 0xd5a79147)
    ensures IsConstant(30, 0x06ca6351) && IsConstant(31, 0x14292967)
  {
  }

  lemma Constants3()
    ensures AreConstants(24, Eight(0x983e5152, 0xa831c66d, 0xb00327c8, 0xbf597fc7,
                                   0xc6e00bf3, 0xd5a79147, 0x06ca6351, 0x14292967))
  {
    hide IsConstant;
    Constants3Low();
    Constants3High();
  }

  lemma Constants4Low()
    ensures IsConstant(32, 0x27b70a85) && IsConstant(33, 0x2e1b2138)
    ensures IsConstant(34, 0x4d2c6dfc) && IsConstant(35, 0x53380d13)
  {
  }

  lemma Constants4High()
    ensures IsConstant(36, 0x650a7354) && IsConstant(37, 0x766a0abb)
    ensures IsConstant(38, 0x81c2c92e) && IsConstant(39, 0x92722c85)
  {
  }

  lemma Constants4()
    ensures AreConstants(32, Eight(0x27b70a85, 0x2e1b2138, 0x4d2c6dfc, 0x53380d13,
                                   0x650a7354, 0x766a0abb, 0x81c2c92e, 0x92722c85))
  {
    hide IsConstant;
    Constants4Low();
    Constants4High();
  }

  lemma Constants5Low()
    ensures IsConstant(40, 0xa2bfe8a1) && IsConstant(41, 0xa81a664b)
    ensures IsConstant(42, 0xc24b8b70) && IsConstant(43, 0xc76c51a3)
  {
  }

  lemma Constants5High()
    ensures IsConstant(44, 0xd192e819) && IsConstant(45, 0xd6990624)
    ensures IsConstant(46, 0xf40e3585) && IsConstant(47, 0x106aa070)
  {
  }

  lemma Constants5()
    ensures AreConstants(40, Eight(0xa2bfe8a1, 0xa81a664b, 0xc24b8b70, 0xc76c51a3,
                                   0xd192e819, 0xd6990624, 0xf40e3585, 0x106aa070))
  {
    hide IsConstant;
    Constants5Low();
    Constants5High();
  }

  lemma Constants6Low()
    ensures IsConstant(48, 0x19a4c116) && IsConstant(49, 0x1e376c08)
    ensures IsConstant(50, 0x2748774c) && IsConstant(51, 0x34b0bcb5)
  {
  }

  lemma Constants6High()
    ensures IsConstant(52, 0x391c0cb3) && IsConstant(53, 0x4ed8aa4a)
    ensures IsConstant(54, 0x5b9cca4f) && IsConstant(55, 0x682e6ff3)
  {
  }

  lemma Constants6()
    ensures AreConstants(48, Eight(0x19a4c116, 0x1e376c08, 0x2748774c, 0x34b0bcb5,
                                   0x391c0cb3, 0x4ed8aa4a, 0x5b9cca4f, 0x682e6ff3))
  {
    hide IsConstant;
    Constants6Low();
    Constants6High();
  }

  lemma Constants7Low()
    ensures IsConstant(56, 0x748f82ee) && IsConstant(57, 0x78a5636f)
    ensures IsConstant(58, 0x84c87814) && IsConstant(59, 0x8cc70208)
  {
  }

  lemma Constants7High()
    ensures IsConstant(60, 0x90befffa) && IsConstant(61, 0xa4506ceb)
    ensures IsConstant(62, 0xbef9a3f7) && IsConstant(63, 0xc67178f2)
  {
  }

  lemma Constants7()
    ensures AreConstants(56, Eight(0x748f82ee, 0x78a5636f, 0x84c87814, 0x8cc70208,
                                   0x90befffa, 0xa4506ceb, 0xbef9a3f7, 0xc67178f2))
  {
    hide IsConstant;
    Constants7Low();
    Constants7High();
  }

  lemma StartIs()
    ensures H0 == StateOf(Vars(0x6a09e667, 0xbb67ae85, 0x3c6ef372, 0xa54ff53a,
                               0x510e527f, 0x9b05688c, 0x1f83d9ab, 0x5be0cd19))
  {
  }

  /** What a compression adds up to. */
  lemma Added(start: State, block: Bytes, from: Vars, end: Vars, sum: Vars)
    requires |block| == 64 && start == StateOf(from) && AreVars(start, block, 64, end)
    requires sum == Vars(Sum(from.a, end.a), Sum(from.b, end.b), Sum(from.c, end.c), Sum(from.d, end.d),
                         Sum(from.e, end.e), Sum(from.f, end.f), Sum(from.g, end.g), Sum(from.h, end.h))
    ensures Compress(start, block) == StateOf(sum)
  {
    hide Value, Sum, Rounds, Reduce;
    SumIs(from.a, end.a);
    SumIs(from.b, end.b);
    SumIs(from.c, end.c);
    SumIs(from.d, end.d);
    SumIs(from.e, end.e);
    SumIs(from.f, end.f);
    SumIs(from.g, end.g);
    SumIs(from.h, end.h);
  }

  lemma NoRounds(start: State, block: Bytes, v: Vars)
    requires |block| == 64 && StateOf(v) == start
    ensures AreVars(start, block, 0, v)
  {
  }

  // ------------------------------------------------------------ block Abc

  predicate AbcBlock(block: Bytes)
  {
    && IsWord(block, 0, 0x61626380) && IsWord(block, 1, 0x00000000) && IsWord(block, 2, 0x00000000)
    && IsWord(block, 3, 0x00000000) && IsWord(block, 4, 0x00000000) && IsWord(block, 5, 0x00000000)
    && IsWord(block, 6, 0x00000000) && IsWord(block, 7, 0x00000000) && IsWord(block, 8, 0x00000000)
    && IsWord(block, 9, 0x00000000) && IsWord(block, 10, 0x00000000) && IsWord(block, 11, 0x00000000)
    && IsWord(block, 12, 0x00000000) && IsWord(block, 13, 0x00000000) && IsWord(block, 14, 0x00000000)
    && IsWord(block, 15, 0x00000018)
  }

  lemma {:induction false} AbcSchedule2(block: Bytes)
    requires AbcBlock(block)
    ensures AreWords(block, 16, Eight(0x61626380, 0x000f0000, 0x7da86405, 0x600003c6,
                                      0x3e9d7b78, 0x0183fc00, 0x12dcbfdb, 0xe2e2c38e))
  {
    hide IsWord;
    WordStep(block, 16, 0x00000000, 0x00000000, 0x00000000, 0x61626380, 0x61626380);
    WordStep(block, 17, 0x00000018, 0x00000000, 0x00000000, 0x00000000, 0x000f0000);
    WordStep(block, 18, 0x61626380, 0x00000000, 0x00000000, 0x00000000, 0x7da86405);
    WordStep(block, 19, 0x000f0000, 0x00000000, 0x00000000, 0x00000000, 0x600003c6);
    WordStep(block, 20, 0x7da86405, 0x00000000, 0x00000000, 0x00000000, 0x3e9d7b78);
    WordStep(block, 21, 0x600003c6, 0x00000000, 0x00000000, 0x00000000, 0x0183fc00);
    WordStep(block, 22, 0x3e9d7b78, 0x00000018, 0x00000000, 0x00000000, 0x12dcbfdb);
    WordStep(block, 23, 0x0183fc00, 0x61626380, 0x00000000, 0x00000000, 0xe2e2c38e);
  }

  lemma {:induction false} AbcSchedule3(block: Bytes)
    requires AbcBlock(block)
    ensures AreWords(block, 24, Eight(0xc8215c1a, 0xb73679a2, 0xe5bc3909, 0x32663c5b,
                                      0x9d209d67, 0xec8726cb, 0x702138a4, 0xd3b7973b))
  {
    hide IsWord;
    AbcSchedule2(block);
    WordStep(block, 24, 0x12dcbfdb, 0x000f0000, 0x00000000, 0x00000000, 0xc8215c1a);
    WordStep(block, 25, 0xe2e2c38e, 0x7da86405, 0x00000000, 0x00000000, 0xb73679a2);
    WordStep(block, 26, 0xc8215c1a, 0x600003c6, 0x00000000, 0x00000000, 0xe5bc3909);
    WordStep(block, 27, 0xb73679a2, 0x3e9d7b78, 0x00000000, 0x00000000, 0x32663c5b);
    WordStep(block, 28, 0xe5bc3909, 0x0183fc00, 0x00000000, 0x00000000, 0x9d209d67);
    WordStep(block, 29, 0x32663c5b, 0x12dcbfdb, 0x00000000, 0x00000000, 0xec8726cb);
    WordStep(block, 30, 0x9d209d67, 0xe2e2c38e, 0x00000018, 0x00000000, 0x702138a4);
    WordStep(block, 31, 0xec8726cb, 0xc8215c1a, 0x61626380, 0x00000018, 0xd3b7973b);
  }

  lemma {:induction false} AbcSchedule4(block: Bytes)
    requires AbcBlock(block)
    ensures AreWords(block, 32, Eight(0x93f5997f, 0x3b68ba73, 0xaff4ffc1, 0xf10a5c62,
                                      0x0a8b3996, 0x72af830a, 0x9409e33e, 0x24641522))
  {
    hide IsWord;
    AbcSchedule3(block); AbcSchedule2(block);
    WordStep(block, 32, 0x702138a4, 0xb73679a2, 0x000f0000, 0x61626380, 0x93f5997f);
    WordStep(block, 33, 0xd3b7973b, 0xe5bc3909, 0x7da86405, 0x000f0000, 0x3b68ba73);
    WordStep(block, 34, 0x93f5997f, 0x32663c5b, 0x600003c6, 0x7da86405, 0xaff4ffc1);
    WordStep(block, 35, 0x3b68ba73, 0x9d209d67, 0x3e9d7b78, 0x600003c6, 0xf10a5c62);
    WordStep(block, 36, 0xaff4ffc1, 0xec8726cb, 0x0183fc00, 0x3e9d7b78, 0x0a8b3996);
    WordStep(block, 37, 0xf10a5c62, 0x702138a4, 0x12dcbfdb, 0x0183fc00, 0x72af830a);
    WordStep(block, 38, 0x0a8b3996, 0xd3b7973b, 0xe2e2c38e, 0x12dcbfdb, 0x9409e33e);
    WordStep(block, 39, 0x72af830a, 0x93f5997f, 0xc8215c1a, 0xe2e2c38e, 0x24641522);
  }

  lemma {:induction false} AbcSchedule5(block: Bytes)
    requires AbcBlock(block)
    ensures AreWords(block, 40, Eight(0x9f47bf94, 0xf0a64f5a, 0x3e246a79, 0x27333ba3,
                                      0x0c4763f2, 0x840abf27, 0x7a290d5d, 0x065c43da))
  {
    hide IsWord;
    AbcSchedule4(block); AbcSchedule3(block);
    WordStep(block, 40, 0x9409e33e, 0x3b68ba73, 0xb73679a2, 0xc8215c1a, 0x9f47bf94);
    WordStep(block, 41, 0x24641522, 0xaff4ffc1, 0xe5bc3909, 0xb73679a2, 0xf0a64f5a);
    WordStep(block, 42, 0x9f47bf94, 0xf10a5c62, 0x32663c5b, 0xe5bc3909, 0x3e246a79);
    WordStep(block, 43, 0xf0a64f5a, 0x0a8b3996, 0x9d209d67, 0x32663c5b, 0x27333ba3);
    WordStep(block, 44, 0x3e246a79, 0x72af830a, 0xec8726cb, 0x9d209d67, 0x0c4763f2);
    WordStep(block, 45, 0x27333ba3, 0x9409e33e, 0x702138a4, 0xec8726cb, 0x840abf27);
    WordStep(block, 46, 0x0c4763f2, 0x24641522, 0xd3b7973b, 0x702138a4, 0x7a290d5d);
    WordStep(block, 47, 0x840abf27, 0x9f47bf94, 0x93f5997f, 0xd3b7973b, 0x065c43da);
  }

  lemma {:induction false} AbcSchedule6(block: Bytes)
    requires AbcBlock(block)
    ensures AreWords(block, 48, Eight(0xfb3e89cb, 0xcc7617db, 0xb9e66c34, 0xa9993667,
                                      0x84badedd, 0xc21462bc, 0x1487472c, 0xb20f7a99))
  {
    hide IsWord;
    AbcSchedule5(block); AbcSchedule4(block);
    WordStep(block, 48, 0x7a290d5d, 0xf0a64f5a, 0x3b68ba73, 0x93f5997f, 0xfb3e89cb);
    WordStep(block, 49, 0x065c43da, 0x3e246a79, 0xaff4ffc1, 0x3b68ba73, 0xcc7617db);
    WordStep(block, 50, 0xfb3e89cb, 0x27333ba3, 0xf10a5c62, 0xaff4ffc1, 0xb9e66c34);
    WordStep(block, 51, 0xcc7617db, 0x0c4763f2, 0x0a8b3996, 0xf10a5c62, 0xa9993667);
    WordStep(block, 52, 0xb9e66c34, 0x840abf27, 0x72af830a, 0x0a8b3996, 0x84badedd);
    WordStep(block, 53, 0xa9993667, 0x7a290d5d, 0x9409e33e, 0x72af830a, 0xc21462bc);
    WordStep(block, 54, 0x84badedd, 0x065c43da, 0x24641522, 0x9409e33e, 0x1487472c);
    WordStep(block, 55, 0xc21462bc, 0xfb3e89cb, 0x9f47bf94, 0x24641522, 0xb20f7a99);
  }

  lemma {:induction false} AbcSchedule7(block: Bytes)
    requires AbcBlock(block)
    ensures AreWords(block, 56, Eight(0xef57b9cd, 0xebe6b238, 0x9fe3095e, 0x78bc8d4b,
                                      0xa43fcf15, 0x668b2ff8, 0xeeaba2cc, 0x12b1edeb))
  {
    hide IsWord;
    AbcSchedule6(block); AbcSchedule5(block);
    WordStep(block, 56, 0x1487472c, 0xcc7617db, 0xf0a64f5a, 0x9f47bf94, 0xef57b9cd);
    WordStep(block, 57, 0xb20f7a99, 0xb9e66c34, 0x3e246a79, 0xf0a64f5a, 0xebe6b238);
    WordStep(block, 58, 0xef57b9cd, 0xa9993667, 0x27333ba3, 0x3e246a79, 0x9fe3095e);
    WordStep(block, 59, 0xebe6b238, 0x84badedd, 0x0c4763f2, 0x27333ba3, 0x78bc8d4b);
    WordStep(block, 60, 0x9fe3095e, 0xc21462bc, 0x840abf27, 0x0c4763f2, 0xa43fcf15);
    WordStep(block, 61, 0x78bc8d4b, 0x1487472c, 0x7a290d5d, 0x840abf27, 0x668b2ff8);
    WordStep(block, 62, 0xa43fcf15, 0xb20f7a99, 0x065c43da, 0x7a290d5d, 0xeeaba2cc);
    WordStep(block, 63, 0x668b2ff8, 0xef57b9cd, 0xfb3e89cb, 0x065c43da, 0x12b1edeb);
  }

  lemma {:induction false} AbcRounds0(start: State, block: Bytes)
    requires AbcBlock(block)
    requires AreVars(start, block, 0,
                     Vars(0x6a09e667, 0xbb67ae85, 0x3c6ef372, 0xa54ff53a,
                          0x510e527f, 0x9b05688c, 0x1f83d9ab, 0x5be0cd19))
    ensures AreVars(start, block, 8,
                    Vars(0x85a07b5f, 0xe5030380, 0x2b4209f5, 0x04409a6a,
                         0x0c657a79, 0x9b27a401, 0x714260ad, 0x43ada245))
  {
    hide IsWord, AreVars, IsConstant;
    Constants0();
    RoundStep(start, block, 0, Vars(0x6a09e667, 0xbb67ae85, 0x3c6ef372, 0xa54ff53a, 0x510e527f, 0x9b05688c,
              0x1f83d9ab, 0x5be0cd19), 0x428a2f98, 0x61626380, 0x5d6aebcd, 0xfa2a4622);
    RoundStep(start, block, 1, Vars(0x5d6aebcd, 0x6a09e667, 0xbb67ae85, 0x3c6ef372, 0xfa2a4622, 0x510e527f,
              0x9b05688c, 0x1f83d9ab), 0x71374491, 0x00000000, 0x5a6ad9ad, 0x78ce7989);
    RoundStep(start, block, 2, Vars(0x5a6ad9ad, 0x5d6aebcd, 0x6a09e667, 0xbb67ae85, 0x78ce7989, 0xfa2a4622,
              0x510e527f, 0x9b05688c), 0xb5c0fbcf, 0x00000000, 0xc8c347a7, 0xf92939eb);
    RoundStep(start, block, 3, Vars(0xc8c347a7, 0x5a6ad9ad, 0x5d6aebcd, 0x6a09e667, 0xf92939eb, 0x78ce7989,
              0xfa2a4622, 0x510e527f), 0xe9b5dba5, 0x00000000, 0xd550f666, 0x24e00850);
    RoundStep(start, block, 4, Vars(0xd550f666, 0xc8c347a7, 0x5a6ad9ad, 0x5d6aebcd, 0x24e00850, 0xf92939eb,
              0x78ce7989, 0xfa2a4622), 0x3956c25b, 0x00000000, 0x04409a6a, 0x43ada245);
    RoundStep(start, block, 5, Vars(0x04409a6a, 0xd550f666, 0xc8c347a7, 0x5a6ad9ad, 0x43ada245, 0x24e00850,
              0xf92939eb, 0x78ce7989), 0x59f111f1, 0x00000000, 0x2b4209f5, 0x714260ad);
    RoundStep(start, block, 6, Vars(0x2b4209f5, 0x04409a6a, 0xd550f666, 0xc8c347a7, 0x714260ad, 0x43ada245,
              0x24e00850, 0xf92939eb), 0x923f82a4, 0x00000000, 0xe5030380, 0x9b27a401);
    RoundStep(start, block, 7, Vars(0xe5030380, 0x2b4209f5, 0x04409a6a, 0xd550f666, 0x9b27a401, 0x714260ad,
              0x43ada245, 0x24e00850), 0xab1c5ed5, 0x00000000, 0x85a07b5f, 0x0c657a79);
  }

  lemma {:induction false} AbcRounds1(start: State, block: Bytes)
    requires AbcBlock(block)
    requires AreVars(start, block, 8,
                     Vars(0x85a07b5f, 0xe5030380, 0x2b4209f5, 0x04409a6a,
                          0x0c657a79, 0x9b27a401, 0x714260ad, 0x43ada245))
    ensures AreVars(start, block, 16,
                    Vars(0xb0fa238e, 0xc0645fde, 0xd932eb16, 0x87912990,
                         0x07590dcd, 0x0b92f20c, 0x745a48de, 0x1e578218))
  {
    hide IsWord, AreVars, IsConstant;
    Constants1();
    RoundStep(start, block, 8, Vars(0x85a07b5f, 0xe5030380, 0x2b4209f5, 0x04409a6a, 0x0c657a79, 0x9b27a401,
              0x714260ad, 0x43ada245), 0xd807aa98, 0x00000000, 0x8e04ecb9, 0x32ca2d8c);
    RoundStep(start, block, 9, Vars(0x8e04ecb9, 0x85a07b5f, 0xe5030380, 0x2b4209f5, 0x32ca2d8c, 0x0c657a79,
              0x9b27a401, 0x714260ad), 0x12835b01, 0x00000000, 0x8c87346b, 0x1cc92596);
    RoundStep(start, block, 10, Vars(0x8c87346b, 0x8e04ecb9, 0x85a07b5f, 0xe5030380, 0x1cc92596, 0x32ca2d8c,
              0x0c657a79, 0x9b27a401), 0x243185be, 0x00000000, 0x4798a3f4, 0x436b23e8);
    RoundStep(start, block, 11, Vars(0x4798a3f4, 0x8c87346b, 0x8e04ecb9, 0x85a07b5f, 0x436b23e8, 0x1cc92596,
              0x32ca2d8c, 0x0c657a79), 0x550c7dc3, 0x00000000, 0xf71fc5a9, 0x816fd6e9);
    RoundStep(start, block, 12, Vars(0xf71fc5a9, 0x4798a3f4, 0x8c87346b, 0x8e04ecb9, 0x816fd6e9, 0x436b23e8,
              0x1cc92596, 0x32ca2d8c), 0x72be5d74, 0x00000000, 0x87912990, 0x1e578218);
    RoundStep(start, block, 13, Vars(0x87912990, 0xf71fc5a9, 0x4798a3f4, 0x8c87346b, 0x1e578218, 0x816fd6e9,
              0x436b23e8, 0x1cc92596), 0x80deb1fe, 0x00000000, 0xd932eb16, 0x745a48de);
    RoundStep(start, block, 14, Vars(0xd932eb16, 0x87912990, 0xf71fc5a9, 0x4798a3f4, 0x745a48de, 0x1e578218,
              0x816fd6e9, 0x436b23e8), 0x9bdc06a7, 0x00000000, 0xc0645fde, 0x0b92f20c);
    RoundStep(start, block, 15, Vars(0xc0645fde, 0xd932eb16, 0x87912990, 0xf71fc5a9, 0x0b92f20c, 0x745a48de,
              0x1e578218, 0x816fd6e9), 0xc19bf174, 0x00000018, 0xb0fa238e, 0x07590dcd);
  }

  lemma {:induction false} AbcRounds2(start: State, block: Bytes)
    requires AbcBlock(block)
    requires AreVars(start, block, 16,
                     Vars(0xb0fa238e, 0xc0645fde, 0xd932eb16, 0x87912990,
                          0x07590dcd, 0x0b92f20c, 0x745a48de, 0x1e578218))
    ensures AreVars(start, block, 24,
                    Vars(0xc5d53d8d, 0xa7a3623f, 0xc2606d6d, 0x9dc68b63,
                         0xaa47c347, 0x49f5114a, 0xe1257970, 0x8ada8930))
  {
    hide IsWord, AreVars, IsConstant;
    Constants2();
    AbcSchedule2(block);
    RoundStep(start, block, 16, Vars(0xb0fa238e, 0xc0645fde, 0xd932eb16, 0x87912990, 0x07590dcd, 0x0b92f20c,
              0x745a48de, 0x1e578218), 0xe49b69c1, 0x61626380, 0x21da9a9b, 0x8034229c);
    RoundStep(start, block, 17, Vars(0x21da9a9b, 0xb0fa238e, 0xc0645fde, 0xd932eb16, 0x8034229c, 0x07590dcd,
              0x0b92f20c, 0x745a48de), 0xefbe4786, 0x000f0000, 0xc2fbd9d1, 0x846ee454);
    RoundStep(start, block, 18, Vars(0xc2fbd9d1, 0x21da9a9b, 0xb0fa238e, 0xc0645fde, 0x846ee454, 0x8034229c,
              0x07590dcd, 0x0b92f20c), 0x0fc19dc6, 0x7da86405, 0xfe777bbf, 0xcc899961);
    RoundStep(start, block, 19, Vars(0xfe777bbf, 0xc2fbd9d1, 0x21da9a9b, 0xb0fa238e, 0xcc899961, 0x846ee454,
              0x8034229c, 0x07590dcd), 0x240ca1cc, 0x600003c6, 0xe1f20c33, 0xb0638179);
    RoundStep(start, block, 20, Vars(0xe1f20c33, 0xfe777bbf, 0xc2fbd9d1, 0x21da9a9b, 0xb0638179, 0xcc899961,
              0x846ee454, 0x8034229c), 0x2de92c6f, 0x3e9d7b78, 0x9dc68b63, 0x8ada8930);
    RoundStep(start, block, 21, Vars(0x9dc68b63, 0xe1f20c33, 0xfe777bbf, 0xc2fbd9d1, 0x8ada8930, 0xb0638179,
              0xcc899961, 0x846ee454), 0x4a7484aa, 0x0183fc00, 0xc2606d6d, 0xe1257970);
    RoundStep(start, block, 22, Vars(0xc2606d6d, 0x9dc68b63, 0xe1f20c33, 0xfe777bbf, 0xe1257970, 0x8ada8930,
              0xb0638179, 0xcc899961), 0x5cb0a9dc, 0x12dcbfdb, 0xa7a3623f, 0x49f5114a);
    RoundStep(start, block, 23, Vars(0xa7a3623f, 0xc2606d6d, 0x9dc68b63, 0xe1f20c33, 0x49f5114a, 0xe1257970,
              0x8ada8930, 0xb0638179), 0x76f988da, 0xe2e2c38e, 0xc5d53d8d, 0xaa47c347);
  }

  lemma {:induction false} AbcRounds3(start: State, block: Bytes)
    requires AbcBlock(block)
    requires AreVars(start, block, 24,
                     Vars(0xc5d53d8d, 0xa7a3623f, 0xc2606d6d, 0x9dc68b63,
                          0xaa47c347, 0x49f5114a, 0xe1257970, 0x8ada8930))
    ensures AreVars(start, block, 32,
                    Vars(0x73b33bf5, 0xea992a22, 0xa0060b30, 0x363482c9,
                         0xba591112, 0x0109ab3a, 0xade79437, 0x6112a3b7))
  {
    hide IsWord, AreVars, IsConstant;
    Constants3();
    AbcSchedule3(block);
    RoundStep(start, block, 24, Vars(0xc5d53d8d, 0xa7a3623f, 0xc2606d6d, 0x9dc68b63, 0xaa47c347, 0x49f5114a,
              0xe1257970, 0x8ada8930), 0x983e5152, 0xc8215c1a, 0x1c2c2838, 0x2823ef91);
    RoundStep(start, block, 25, Vars(0x1c2c2838, 0xc5d53d8d, 0xa7a3623f, 0xc2606d6d, 0x2823ef91, 0xaa47c347,
              0x49f5114a, 0xe1257970), 0xa831c66d, 0xb73679a2, 0xcde8037d, 0x14383d8e);
    RoundStep(start, block, 26, Vars(0xcde8037d, 0x1c2c2838, 0xc5d53d8d, 0xa7a3623f, 0x14383d8e, 0x2823ef91,
              0xaa47c347, 0x49f5114a), 0xb00327c8, 0xe5bc3909, 0xb62ec4bc, 0xc74c6516);
    RoundStep(start, block, 27, Vars(0xb62ec4bc, 0xcde8037d, 0x1c2c2838, 0xc5d53d8d, 0xc74c6516, 0x14383d8e,
              0x2823ef91, 0xaa47c347), 0xbf597fc7, 0x32663c5b, 0x77d37528, 0xedffbff8);
    RoundStep(start, block, 28, Vars(0x77d37528, 0xb62ec4bc, 0xcde8037d, 0x1c2c2838, 0xedffbff8, 0xc74c6516,
              0x14383d8e, 0x2823ef91), 0xc6e00bf3, 0x9d209d67, 0x363482c9, 0x6112a3b7);
    RoundStep(start, block, 29, Vars(0x363482c9, 0x77d37528, 0xb62ec4bc, 0xcde8037d, 0x6112a3b7, 0xedffbff8,
              0xc74c6516, 0x14383d8e), 0xd5a79147, 0xec8726cb, 0xa0060b30, 0xade79437);
    RoundStep(start, block, 30, Vars(0xa0060b30, 0x363482c9, 0x77d37528, 0xb62ec4bc, 0xade79437, 0x6112a3b7,
              0xedffbff8, 0xc74c6516), 0x06ca6351, 0x702138a4, 0xea992a22, 0x0109ab3a);
    RoundStep(start, block, 31, Vars(0xea992a22, 0xa0060b30, 0x363482c9, 0x77d37528, 0x0109ab3a, 0xade79437,
              0x6112a3b7, 0xedffbff8), 0x14292967, 0xd3b7973b, 0x73b33bf5, 0xba591112);
  }

  lemma {:induction false} AbcRounds4(start: State, block: Bytes)
    requires AbcBlock(block)
    requires AreVars(start, block, 32,
                     Vars(0x73b33bf5, 0xea992a22, 0xa0060b30, 0x363482c9,
                          0xba591112, 0x0109ab3a, 0xade79437, 0x6112a3b7))
    ensures AreVars(start, block, 40,
                    Vars(0x79ea687a, 0x6dc57a8a, 0x34df1604, 0x41a65cb1,
                         0x1efbc0a0, 0xf0781bc8, 0xa507a53d, 0x0772a26b))
  {
    hide IsWord, AreVars, IsConstant;
    Constants4();
    AbcSchedule4(block);
    RoundStep(start, block, 32, Vars(0x73b33bf5, 0xea992a22, 0xa0060b30, 0x363482c9, 0xba591112, 0x0109ab3a,
              0xade79437, 0x6112a3b7), 0x27b70a85, 0x93f5997f, 0x98e12507, 0x9cd9f5f6);
    RoundStep(start, block, 33, Vars(0x98e12507, 0x73b33bf5, 0xea992a22, 0xa0060b30, 0x9cd9f5f6, 0xba591112,
              0x0109ab3a, 0xade79437), 0x2e1b2138, 0x3b68ba73, 0xfe604df5, 0x59249dd3);
    RoundStep(start, block, 34, Vars(0xfe604df5, 0x98e12507, 0x73b33bf5, 0xea992a22, 0x59249dd3, 0x9cd9f5f6,
              0xba591112, 0x0109ab3a), 0x4d2c6dfc, 0xaff4ffc1, 0xa9a7738c, 0x085f3833);
    RoundStep(start, block, 35, Vars(0xa9a7738c, 0xfe604df5, 0x98e12507, 0x73b33bf5, 0x085f3833, 0x59249dd3,
              0x9cd9f5f6, 0xba591112), 0x53380d13, 0xf10a5c62, 0x65a0cfe4, 0xf4b002d6);
    RoundStep(start, block, 36, Vars(0x65a0cfe4, 0xa9a7738c, 0xfe604df5, 0x98e12507, 0xf4b002d6, 0x085f3833,
              0x59249dd3, 0x9cd9f5f6), 0x650a7354, 0x0a8b3996, 0x41a65cb1, 0x0772a26b);
    RoundStep(start, block, 37, Vars(0x41a65cb1, 0x65a0cfe4, 0xa9a7738c, 0xfe604df5, 0x0772a26b, 0xf4b002d6,
              0x085f3833, 0x59249dd3), 0x766a0abb, 0x72af830a, 0x34df1604, 0xa507a53d);
    RoundStep(start, block, 38, Vars(0x34df1604, 0x41a65cb1, 0x65a0cfe4, 0xa9a7738c, 0xa507a53d, 0x0772a26b,
              0xf4b002d6, 0x085f3833), 0x81c2c92e, 0x9409e33e, 0x6dc57a8a, 0xf0781bc8);
    RoundStep(start, block, 39, Vars(0x6dc57a8a, 0x34df1604, 0x41a65cb1, 0x65a0cfe4, 0xf0781bc8, 0xa507a53d,
              0x0772a26b, 0xf4b002d6), 0x92722c85, 0x24641522, 0x79ea687a, 0x1efbc0a0);
  }

  lemma {:induction false} AbcRounds5(start: State, block: Bytes)
    requires AbcBlock(block)
    requires AreVars(start, block, 40,
                     Vars(0x79ea687a, 0x6dc57a8a, 0x34df1604, 0x41a65cb1,
                          0x1efbc0a0, 0xf0781bc8, 0xa507a53d, 0x0772a26b))
    ensures AreVars(start, block, 48,
                    Vars(0x4172328d, 0xa14c14b0, 0x72ab4b91, 0x26628815,
                         0xfecf0bc6, 0xd57b94a9, 0xb7755da1, 0xa80f11f0))
  {
    hide IsWord, AreVars, IsConstant;
    Constants5();
    AbcSchedule5(block);
    RoundStep(start, block, 40, Vars(0x79ea687a, 0x6dc57a8a, 0x34df1604, 0x41a65cb1, 0x1efbc0a0, 0xf0781bc8,
              0xa507a53d, 0x0772a26b), 0xa2bfe8a1, 0x9f47bf94, 0xd6670766, 0x26352d63);
    RoundStep(start, block, 41, Vars(0xd6670766, 0x79ea687a, 0x6dc57a8a, 0x34df1604, 0x26352d63, 0x1efbc0a0,
              0xf0781bc8, 0xa507a53d), 0xa81a664b, 0xf0a64f5a, 0xdf46652f, 0x838b2711);
    RoundStep(start, block, 42, Vars(0xdf46652f, 0xd6670766, 0x79ea687a, 0x6dc57a8a, 0x838b2711, 0x26352d63,
              0x1efbc0a0, 0xf0781bc8), 0xc24b8b70, 0x3e246a79, 0x17aa0dfe, 0xdecd4715);
    RoundStep(start, block, 43, Vars(0x17aa0dfe, 0xdf46652f, 0xd6670766, 0x79ea687a, 0xdecd4715, 0x838b2711,
              0x26352d63, 0x1efbc0a0), 0xc76c51a3, 0x27333ba3, 0x9d4baf93, 0xfda24c2e);
    RoundStep(start, block, 44, Vars(0x9d4baf93, 0x17aa0dfe, 0xdf46652f, 0xd6670766, 0xfda24c2e, 0xdecd4715,
              0x838b2711, 0x26352d63), 0xd192e819, 0x0c4763f2, 0x26628815, 0xa80f11f0);
    RoundStep(start, block, 45, Vars(0x26628815, 0x9d4baf93, 0x17aa0dfe, 0xdf46652f, 0xa80f11f0, 0xfda24c2e,
              0xdecd4715, 0x838b2711), 0xd6990624, 0x840abf27, 0x72ab4b91, 0xb7755da1);
    RoundStep(start, block, 46, Vars(0x72ab4b91, 0x26628815, 0x9d4baf93, 0x17aa0dfe, 0xb7755da1, 0xa80f11f0,
              0xfda24c2e, 0xdecd4715), 0xf40e3585, 0x7a290d5d, 0xa14c14b0, 0xd57b94a9);
    RoundStep(start, block, 47, Vars(0xa14c14b0, 0x72ab4b91, 0x26628815, 0x9d4baf93, 0xd57b94a9, 0xb7755da1,
              0xa80f11f0, 0xfda24c2e), 0x106aa070, 0x065c43da, 0x4172328d, 0xfecf0bc6);
  }

  lemma {:induction false} AbcRounds6(start: State, block: Bytes)
    requires AbcBlock(block)
    requires AreVars(start, block, 48,
                     Vars(0x4172328d, 0xa14c14b0, 0x72ab4b91, 0x26628815,
                          0xfecf0bc6, 0xd57b94a9, 0xb7755da1, 0xa80f11f0))
    ensures AreVars(start, block, 56,
                    Vars(0x38cc9913, 0x3ec45cdb, 0xf5702fdb, 0x101fd28f,
                         0x54cb266b, 0xe50e1b4f, 0x9f4787c3, 0x529e7d00))
  {
    hide IsWord, AreVars, IsConstant;
    Constants6();
    AbcSchedule6(block);
    RoundStep(start, block, 48, Vars(0x4172328d, 0xa14c14b0, 0x72ab4b91, 0x26628815, 0xfecf0bc6, 0xd57b94a9,
              0xb7755da1, 0xa80f11f0), 0x19a4c116, 0xfb3e89cb, 0x05757ceb, 0xbd714038);
    RoundStep(start, block, 49, Vars(0x05757ceb, 0x4172328d, 0xa14c14b0, 0x72ab4b91, 0xbd714038, 0xfecf0bc6,
              0xd57b94a9, 0xb7755da1), 0x1e376c08, 0xcc7617db, 0xf11bfaa8, 0x6e5c390c);
    RoundStep(start, block, 50, Vars(0xf11bfaa8, 0x05757ceb, 0x4172328d, 0xa14c14b0, 0x6e5c390c, 0xbd714038,
              0xfecf0bc6, 0xd57b94a9), 0x2748774c, 0xb9e66c34, 0x7a0508a1, 0x52f1ccf7);
    RoundStep(start, block, 51, Vars(0x7a0508a1, 0xf11bfaa8, 0x05757ceb, 0x4172328d, 0x52f1ccf7, 0x6e5c390c,
              0xbd714038, 0xfecf0bc6), 0x34b0bcb5, 0xa9993667, 0x886e7a22, 0x49231c1e);
    RoundStep(start, block, 52, Vars(0x886e7a22, 0x7a0508a1, 0xf11bfaa8, 0x05757ceb, 0x49231c1e, 0x52f1ccf7,
              0x6e5c390c, 0xbd714038), 0x391c0cb3, 0x84badedd, 0x101fd28f, 0x529e7d00);
    RoundStep(start, block, 53, Vars(0x101fd28f, 0x886e7a22, 0x7a0508a1, 0xf11bfaa8, 0x529e7d00, 0x49231c1e,
              0x52f1ccf7, 0x6e5c390c), 0x4ed8aa4a, 0xc21462bc, 0xf5702fdb, 0x9f4787c3);
    RoundStep(start, block, 54, Vars(0xf5702fdb, 0x101fd28f, 0x886e7a22, 0x7a0508a1, 0x9f4787c3, 0x529e7d00,
              0x49231c1e, 0x52f1ccf7), 0x5b9cca4f, 0x1487472c, 0x3ec45cdb, 0xe50e1b4f);
    RoundStep(start, block, 55, Vars(0x3ec45cdb, 0xf5702fdb, 0x101fd28f, 0x886e7a22, 0xe50e1b4f, 0x9f4787c3,
              0x529e7d00, 0x49231c1e), 0x682e6ff3, 0xb20f7a99, 0x38cc9913, 0x54cb266b);
  }

  lemma {:induction false} AbcRounds7(start: State, block: Bytes)
    requires AbcBlock(block)
    requires AreVars(start, block, 56,
                     Vars(0x38cc9913, 0x3ec45cdb, 0xf5702fdb, 0x101fd28f,
                          0x54cb266b, 0xe50e1b4f, 0x9f4787c3, 0x529e7d00))
    ensures AreVars(start, block, 64,
                    Vars(0x506e3058, 0xd39a2165, 0x04d24d6c, 0xb85e2ce9,
                         0x5ef50f24, 0xfb121210, 0x948d25b6, 0x961f4894))
  {
    hide IsWord, AreVars, IsConstant;
    Constants7();
    AbcSchedule7(block);
    RoundStep(start, block, 56, Vars(0x38cc9913, 0x3ec45cdb, 0xf5702fdb, 0x101fd28f, 0x54cb266b, 0xe50e1b4f,
              0x9f4787c3, 0x529e7d00), 0x748f82ee, 0xef57b9cd, 0xfcd1887b, 0x9b5e906c);
    RoundStep(start, block, 57, Vars(0xfcd1887b, 0x38cc9913, 0x3ec45cdb, 0xf5702fdb, 0x9b5e906c, 0x54cb266b,
              0xe50e1b4f, 0x9f4787c3), 0x78a5636f, 0xebe6b238, 0xc062d46f, 0x7e44008e);
    RoundStep(start, block, 58, Vars(0xc062d46f, 0xfcd1887b, 0x38cc9913, 0x3ec45cdb, 0x7e44008e, 0x9b5e906c,
              0x54cb266b, 0xe50e1b4f), 0x84c87814, 0x9fe3095e, 0xffb70472, 0x6d83bfc6);
    RoundStep(start, block, 59, Vars(0xffb70472, 0xc062d46f, 0xfcd1887b, 0x38cc9913, 0x6d83bfc6, 0x7e44008e,
              0x9b5e906c, 0x54cb266b), 0x8cc70208, 0x78bc8d4b, 0xb6ae8fff, 0xb21bad3d);
    RoundStep(start, block, 60, Vars(0xb6ae8fff, 0xffb70472, 0xc062d46f, 0xfcd1887b, 0xb21bad3d, 0x6d83bfc6,
              0x7e44008e, 0x9b5e906c), 0x90befffa, 0xa43fcf15, 0xb85e2ce9, 0x961f4894);
    RoundStep(start, block, 61, Vars(0xb85e2ce9, 0xb6ae8fff, 0xffb70472, 0xc062d46f, 0x961f4894, 0xb21bad3d,
              0x6d83bfc6, 0x7e44008e), 0xa4506ceb, 0x668b2ff8, 0x04d24d6c, 0x948d25b6);
    RoundStep(start, block, 62, Vars(0x04d24d6c, 0xb85e2ce9, 0xb6ae8fff, 0xffb70472, 0x948d25b6, 0x961f4894,
              0xb21bad3d, 0x6d83bfc6), 0xbef9a3f7, 0xeeaba2cc, 0xd39a2165, 0xfb121210);
    RoundStep(start, block, 63, Vars(0xd39a2165, 0x04d24d6c, 0xb85e2ce9, 0xb6ae8fff, 0xfb121210, 0x948d25b6,
              0x961f4894, 0xb21bad3d), 0xc67178f2, 0x12b1edeb, 0x506e3058, 0x5ef50f24);
  }

  lemma AbcCompressed(start: State, block: Bytes)
    requires AbcBlock(block) && |block| == 64
    requires start == StateOf(Vars(0x6a09e667, 0xbb67ae85, 0x3c6ef372, 0xa54ff53a,
                                   0x510e527f, 0x9b05688c, 0x1f83d9ab, 0x5be0cd19))
    ensures Compress(start, block) == StateOf(Vars(0xba7816bf, 0x8f01cfea, 0x414140de, 0x5dae2223,
                                                   0xb00361a3, 0x96177a9c, 0xb410ff61, 0xf20015ad))
  {
    hide IsWord, AreVars, Compress;
    NoRounds(start, block, Vars(0x6a09e667, 0xbb67ae85, 0x3c6ef372, 0xa54ff53a,
                                0x510e527f, 0x9b05688c, 0x1f83d9ab, 0x5be0cd19));
    AbcRounds0(start, block);
    AbcRounds1(start, block);
    AbcRounds2(start, block);
    AbcRounds3(start, block);
    AbcRounds4(start, block);
    AbcRounds5(start, block);
    AbcRounds6(start, block);
    AbcRounds7(start, block);
    Added(start, block, Vars(0x6a09e667, 0xbb67ae85, 0x3c6ef372, 0xa54ff53a,
                             0x510e527f, 0x9b05688c, 0x1f83d9ab, 0x5be0cd19),
          Vars(0x506e3058, 0xd39a2165, 0x04d24d6c, 0xb85e2ce9, 0x5ef50f24, 0xfb121210, 0x948d25b6, 0x961f4894),
          Vars(0xba7816bf, 0x8f01cfea, 0x414140de, 0x5dae2223, 0xb00361a3, 0x96177a9c, 0xb410ff61, 0xf20015ad));
  }

  // ------------------------------------------------------------ block First

  predicate FirstBlock(block: Bytes)
  {
    && IsWord(block, 0, 0x61626364) && IsWord(block, 1, 0x62636465) && IsWord(block, 2, 0x63646566)
    && IsWord(block, 3, 0x64656667) && IsWord(block, 4, 0x65666768) && IsWord(block, 5, 0x66676869)
    && IsWord(block, 6, 0x6768696a) && IsWord(block, 7, 0x68696a6b) && IsWord(block, 8, 0x696a6b6c)
    && IsWord(block, 9, 0x6a6b6c6d) && IsWord(block, 10, 0x6b6c6d6e) && IsWord(block, 11, 0x6c6d6e6f)
    && IsWord(block, 12, 0x6d6e6f70) && IsWord(block, 13, 0x6e6f7071) && IsWord(block, 14, 0x80000000)
    && IsWord(block, 15, 0x00000000)
  }

  lemma {:induction false} FirstSchedule2(block: Bytes)
    requires FirstBlock(block)
    ensures AreWords(block, 16, Eight(0xeb8012ad, 0xa7c3ae92, 0x76e93ba2, 0xba42e743,
                                      0x92a92204, 0xd847e75e, 0x9e160036, 0xb280a7cb))
  {
    hide IsWord;
    WordStep(block, 16, 0x80000000, 0x6a6b6c6d, 0x62636465, 0x61626364, 0xeb8012ad);
    WordStep(block, 17, 0x00000000, 0x6b6c6d6e, 0x63646566, 0x62636465, 0xa7c3ae92);
    WordStep(block, 18, 0xeb8012ad, 0x6c6d6e6f, 0x64656667, 0x63646566, 0x76e93ba2);
    WordStep(block, 19, 0xa7c3ae92, 0x6d6e6f70, 0x65666768, 0x64656667, 0xba42e743);
    WordStep(block, 20, 0x76e93ba2, 0x6e6f7071, 0x66676869, 0x65666768, 0x92a92204);
    WordStep(block, 21, 0xba42e743, 0x80000000, 0x6768696a, 0x66676869, 0xd847e75e);
    WordStep(block, 22, 0x92a92204, 0x00000000, 0x68696a6b, 0x6768696a, 0x9e160036);
    WordStep(block, 23, 0xd847e75e, 0xeb8012ad, 0x696a6b6c, 0x68696a6b, 0xb280a7cb);
  }

  lemma {:induction false} FirstSchedule3(block: Bytes)
    requires FirstBlock(block)
    ensures AreWords(block, 24, Eight(0xddeb1516, 0xf36586f4, 0x969cd048, 0xe959d99d,
                                      0x6accc0ec, 0xf54cb098, 0x2af1b2da, 0xee59c4c9))
  {
    hide IsWord;
    FirstSchedule2(block);
    WordStep(block, 24, 0x9e160036, 0xa7c3ae92, 0x6a6b6c6d, 0x696a6b6c, 0xddeb1516);
    WordStep(block, 25, 0xb280a7cb, 0x76e93ba2, 0x6b6c6d6e, 0x6a6b6c6d, 0xf36586f4);
    WordStep(block, 26, 0xddeb1516, 0xba42e743, 0x6c6d6e6f, 0x6b6c6d6e, 0x969cd048);
    WordStep(block, 27, 0xf36586f4, 0x92a92204, 0x6d6e6f70, 0x6c6d6e6f, 0xe959d99d);
    WordStep(block, 28, 0x969cd048, 0xd847e75e, 0x6e6f7071, 0x6d6e6f70, 0x6accc0ec);
    WordStep(block, 29, 0xe959d99d, 0x9e160036, 0x80000000, 0x6e6f7071, 0xf54cb098);
    WordStep(block, 30, 0x6accc0ec, 0xb280a7cb, 0x00000000, 0x80000000, 0x2af1b2da);
    WordStep(block, 31, 0xf54cb098, 0xddeb1516, 0xeb8012ad, 0x00000000, 0xee59c4c9);
  }

  lemma {:induction false} FirstSchedule4(block: Bytes)
    requires FirstBlock(block)
    ensures AreWords(block, 32, Eight(0xa835e16a, 0x1dff4429, 0xd6e15959, 0xc397cd6e,
                                      0x6f1801ca, 0x21574205, 0x35ff7a84, 0x9743ee78))
  {
    hide IsWord;
    FirstSchedule3(block); FirstSchedule2(block);
    WordStep(block, 32, 0x2af1b2da, 0xf36586f4, 0xa7c3ae92, 0xeb8012ad, 0xa835e16a);
    WordStep(block, 33, 0xee59c4c9, 0x969cd048, 0x76e93ba2, 0xa7c3ae92, 0x1dff4429);
    WordStep(block, 34, 0xa835e16a, 0xe959d99d, 0xba42e743, 0x76e93ba2, 0xd6e15959);
    WordStep(block, 35, 0x1dff4429, 0x6accc0ec, 0x92a92204, 0xba42e743, 0xc397cd6e);
    WordStep(block, 36, 0xd6e15959, 0xf54cb098, 0xd847e75e, 0x92a92204, 0x6f1801ca);
    WordStep(block, 37, 0xc397cd6e, 0x2af1b2da, 0x9e160036, 0xd847e75e, 0x21574205);
    WordStep(block, 38, 0x6f1801ca, 0xee59c4c9, 0xb280a7cb, 0x9e160036, 0x35ff7a84);
    WordStep(block, 39, 0x21574205, 0xa835e16a, 0xddeb1516, 0xb280a7cb, 0x9743ee78);
  }

  lemma {:induction false} FirstSchedule5(block: Bytes)
    requires FirstBlock(block)
    ensures AreWords(block, 40, Eight(0xe44183e7, 0x0d09f00d, 0x9c89af54, 0x042d5bef,
                                      0x71f134d0, 0x0f94f463, 0x7e49dc63, 0x6f65c997))
  {
    hide IsWord;
    FirstSchedule4(block); FirstSchedule3(block);
    WordStep(block, 40, 0x35ff7a84, 0x1dff4429, 0xf36586f4, 0xddeb1516, 0xe44183e7);
    WordStep(block, 41, 0x9743ee78, 0xd6e15959, 0x969cd048, 0xf36586f4, 0x0d09f00d);
    WordStep(block, 42, 0xe44183e7, 0xc397cd6e, 0xe959d99d, 0x969cd048, 0x9c89af54);
    WordStep(block, 43, 0x0d09f00d, 0x6f1801ca, 0x6accc0ec, 0xe959d99d, 0x042d5bef);
    WordStep(block, 44, 0x9c89af54, 0x21574205, 0xf54cb098, 0x6accc0ec, 0x71f134d0);
    WordStep(block, 45, 0x042d5bef, 0x35ff7a84, 0x2af1b2da, 0xf54cb098, 0x0f94f463);
    WordStep(block, 46, 0x71f134d0, 0x9743ee78, 0xee59c4c9, 0x2af1b2da, 0x7e49dc63);
    WordStep(block, 47, 0x0f94f463, 0xe44183e7, 0xa835e16a, 0xee59c4c9, 0x6f65c997);
  }

  lemma {:induction false} FirstSchedule6(block: Bytes)
    requires FirstBlock(block)
    ensures AreWords(block, 48, Eight(0x0b706583, 0x179312ca, 0x503054e9, 0xba125c39,
                                      0x7e9392c9, 0xd5cbaa1e, 0x78e0585d, 0xf6e7611c))
  {
    hide IsWord;
    FirstSchedule5(block); FirstSchedule4(block);
    WordStep(block, 48, 0x7e49dc63, 0x0d09f00d, 0x1dff4429, 0xa835e16a, 0x0b706583);
    WordStep(block, 49, 0x6f65c997, 0x9c89af54, 0xd6e15959, 0x1dff4429, 0x179312ca);
    WordStep(block, 50, 0x0b706583, 0x042d5bef, 0xc397cd6e, 0xd6e15959, 0x503054e9);
    WordStep(block, 51, 0x179312ca, 0x71f134d0, 0x6f1801ca, 0xc397cd6e, 0xba125c39);
    WordStep(block, 52, 0x503054e9, 0x0f94f463, 0x21574205, 0x6f1801ca, 0x7e9392c9);
    WordStep(block, 53, 0xba125c39, 0x7e49dc63, 0x35ff7a84, 0x21574205, 0xd5cbaa1e);
    WordStep(block, 54, 0x7e9392c9, 0x6f65c997, 0x9743ee78, 0x35ff7a84, 0x78e0585d);
    WordStep(block, 55, 0xd5cbaa1e, 0x0b706583, 0xe44183e7, 0x9743ee78, 0xf6e7611c);
  }

  lemma {:induction false} FirstSchedule7(block: Bytes)
    requires FirstBlock(block)
    ensures AreWords(block, 56, Eight(0x8ac830ce, 0x8b47a303, 0xfd6e627f, 0x8c6e2c6a,
                                      0x4001adf1, 0x1a3dd097, 0xa9df6f62, 0x6aa60a39))
  {
    hide IsWord;
    FirstSchedule6(block); FirstSchedule5(block);
    WordStep(block, 56, 0x78e0585d, 0x179312ca, 0x0d09f00d, 0xe44183e7, 0x8ac830ce);
    WordStep(block, 57, 0xf6e7611c, 0x503054e9, 0x9c89af54, 0x0d09f00d, 0x8b47a303);
    WordStep(block, 58, 0x8ac830ce, 0xba125c39, 0x042d5bef, 0x9c89af54, 0xfd6e627f);
    WordStep(block, 59, 0x8b47a303, 0x7e9392c9, 0x71f134d0, 0x042d5bef, 0x8c6e2c6a);
    WordStep(block, 60, 0xfd6e627f, 0xd5cbaa1e, 0x0f94f463, 0x71f134d0, 0x4001adf1);
    WordStep(block, 61, 0x8c6e2c6a, 0x78e0585d, 0x7e49dc63, 0x0f94f463, 0x1a3dd097);
    WordStep(block, 62, 0x4001adf1, 0xf6e7611c, 0x6f65c997, 0x7e49dc63, 0xa9df6f62);
    WordStep(block, 63, 0x1a3dd097, 0x8ac830ce, 0x0b706583, 0x6f65c997, 0x6aa60a39);
  }

  lemma {:induction false} FirstRounds0(start: State, block: Bytes)
    requires FirstBlock(block)
    requires AreVars(start, block, 0,
                     Vars(0x6a09e667, 0xbb67ae85, 0x3c6ef372, 0xa54ff53a,
                          0x510e527f, 0x9b05688c, 0x1f83d9ab, 0x5be0cd19))
    ensures AreVars(start, block, 8,
                    Vars(0xd237e6db, 0x485835b7, 0x55c8ef48, 0xf921c212,
                         0xa401d211, 0x39a5b2ca, 0x7ff91c94, 0x05c4f88a))
  {
    hide IsWord, AreVars, IsConstant;
    Constants0();
    RoundStep(start, block, 0, Vars(0x6a09e667, 0xbb67ae85, 0x3c6ef372, 0xa54ff53a, 0x510e527f, 0x9b05688c,
              0x1f83d9ab, 0x5be0cd19), 0x428a2f98, 0x61626364, 0x5d6aebb1, 0xfa2a4606);
    RoundStep(start, block, 1, Vars(0x5d6aebb1, 0x6a09e667, 0xbb67ae85, 0x3c6ef372, 0xfa2a4606, 0x510e527f,
              0x9b05688c, 0x1f83d9ab), 0x71374491, 0x62636465, 0x2f2d5fcf, 0x4eb1cfce);
    RoundStep(start, block, 2, Vars(0x2f2d5fcf, 0x5d6aebb1, 0x6a09e667, 0xbb67ae85, 0x4eb1cfce, 0xfa2a4606,
              0x510e527f, 0x9b05688c), 0xb5c0fbcf, 0x63646566, 0x97651825, 0x62d5c49e);
    RoundStep(start, block, 3, Vars(0x97651825, 0x2f2d5fcf, 0x5d6aebb1, 0x6a09e667, 0x62d5c49e, 0x4eb1cfce,
              0xfa2a4606, 0x510e527f), 0xe9b5dba5, 0x64656667, 0x4a8d64d5, 0x6494841b);
    RoundStep(start, block, 4, Vars(0x4a8d64d5, 0x97651825, 0x2f2d5fcf, 0x5d6aebb1, 0x6494841b, 0x62d5c49e,
              0x4eb1cfce, 0xfa2a4606), 0x3956c25b, 0x65666768, 0xf921c212, 0x05c4f88a);
    RoundStep(start, block, 5, Vars(0xf921c212, 0x4a8d64d5, 0x97651825, 0x2f2d5fcf, 0x05c4f88a, 0x6494841b,
              0x62d5c49e, 0x4eb1cfce), 0x59f111f1, 0x66676869, 0x55c8ef48, 0x7ff91c94);
    RoundStep(start, block, 6, Vars(0x55c8ef48, 0xf921c212, 0x4a8d64d5, 0x97651825, 0x7ff91c94, 0x05c4f88a,
              0x6494841b, 0x62d5c49e), 0x923f82a4, 0x6768696a, 0x485835b7, 0x39a5b2ca);
    RoundStep(start, block, 7, Vars(0x485835b7, 0x55c8ef48, 0xf921c212, 0x4a8d64d5, 0x39a5b2ca, 0x7ff91c94,
              0x05c4f88a, 0x6494841b), 0xab1c5ed5, 0x68696a6b, 0xd237e6db, 0xa401d211);
  }

  lemma {:induction false} FirstRounds1(start: State, block: Bytes)
    requires FirstBlock(block)
    requires AreVars(start, block, 8,
                     Vars(0xd237e6db, 0x485835b7, 0x55c8ef48, 0xf921c212,
                          0xa401d211, 0x39a5b2ca, 0x7ff91c94, 0x05c4f88a))
    ensures AreVars(start, block, 16,
                    Vars(0xc3486194, 0xdd16cbb3, 0xd68e6457, 0x101a4861,
                         0x1496a54f, 0x9162aded, 0x9243f8af, 0x839a0fc9))
  {
    hide IsWord, AreVars, IsConstant;
    Constants1();
    RoundStep(start, block, 8, Vars(0xd237e6db, 0x485835b7, 0x55c8ef48, 0xf921c212, 0xa401d211, 0x39a5b2ca,
              0x7ff91c94, 0x05c4f88a), 0xd807aa98, 0x696a6b6c, 0x359f2bce, 0xc09ffec4);
    RoundStep(start, block, 9, Vars(0x359f2bce, 0xd237e6db, 0x485835b7, 0x55c8ef48, 0xc09ffec4, 0xa401d211,
              0x39a5b2ca, 0x7ff91c94), 0x12835b01, 0x6a6b6c6d, 0x3a474b2b, 0x9037b3b8);
    RoundStep(start, block, 10, Vars(0x3a474b2b, 0x359f2bce, 0xd237e6db, 0x485835b7, 0x9037b3b8, 0xc09ffec4,
              0xa401d211, 0x39a5b2ca), 0x243185be, 0x6b6c6d6e, 0xb8e2b4cb, 0x443ed29e);
    RoundStep(start, block, 11, Vars(0xb8e2b4cb, 0x3a474b2b, 0x359f2bce, 0xd237e6db, 0x443ed29e, 0x9037b3b8,
              0xc09ffec4, 0xa401d211), 0x550c7dc3, 0x6c6d6e6f, 0x1762215c, 0xee1c97a8);
    RoundStep(start, block, 12, Vars(0x1762215c, 0xb8e2b4cb, 0x3a474b2b, 0x359f2bce, 0xee1c97a8, 0x443ed29e,
              0x9037b3b8, 0xc09ffec4), 0x72be5d74, 0x6d6e6f70, 0x101a4861, 0x839a0fc9);
    RoundStep(start, block, 13, Vars(0x101a4861, 0x1762215c, 0xb8e2b4cb, 0x3a474b2b, 0x839a0fc9, 0xee1c97a8,
              0x443ed29e, 0x9037b3b8), 0x80deb1fe, 0x6e6f7071, 0xd68e6457, 0x9243f8af);
    RoundStep(start, block, 14, Vars(0xd68e6457, 0x101a4861, 0x1762215c, 0xb8e2b4cb, 0x9243f8af, 0x839a0fc9,
              0xee1c97a8, 0x443ed29e), 0x9bdc06a7, 0x80000000, 0xdd16cbb3, 0x9162aded);
    RoundStep(start, block, 15, Vars(0xdd16cbb3, 0xd68e6457, 0x101a4861, 0x1762215c, 0x9162aded, 0x9243f8af,
              0x839a0fc9, 0xee1c97a8), 0xc19bf174, 0x00000000, 0xc3486194, 0x1496a54f);
  }

  lemma {:induction false} FirstRounds2(start: State, block: Bytes)
    requires FirstBlock(block)
    requires AreVars(start, block, 16,
                     Vars(0xc3486194, 0xdd16cbb3, 0xd68e6457, 0x101a4861,
                          0x1496a54f, 0x9162aded, 0x9243f8af, 0x839a0fc9))
    ensures AreVars(start, block, 24,
                    Vars(0x59fce6b9, 0xae2e2d4f, 0x1b2b66b8, 0xd70ac17d,
                         0xa2c7d51d, 0xf074fc95, 0xd560b028, 0x7cc6b262))
  {
    hide IsWord, AreVars, IsConstant;
    Constants2();
    FirstSchedule2(block);
    RoundStep(start, block, 16, Vars(0xc3486194, 0xdd16cbb3, 0xd68e6457, 0x101a4861, 0x1496a54f, 0x9162aded,
              0x9243f8af, 0x839a0fc9), 0xe49b69c1, 0xeb8012ad, 0xb9dcacb1, 0xd4f64250);
    RoundStep(start, block, 17, Vars(0xb9dcacb1, 0xc3486194, 0xdd16cbb3, 0xd68e6457, 0xd4f64250, 0x1496a54f,
              0x9162aded, 0x9243f8af), 0xefbe4786, 0xa7c3ae92, 0x046a193e, 0x885370b6);
    RoundStep(start, block, 18, Vars(0x046a193e, 0xb9dcacb1, 0xc3486194, 0xdd16cbb3, 0x885370b6, 0xd4f64250,
              0x1496a54f, 0x9162aded), 0x0fc19dc6, 0x76e93ba2, 0xf402f058, 0x6f433549);
    RoundStep(start, block, 19, Vars(0xf402f058, 0x046a193e, 0xb9dcacb1, 0xc3486194, 0x6f433549, 0x885370b6,
              0xd4f64250, 0x1496a54f), 0x240ca1cc, 0xba42e743, 0x2139187b, 0x7c304206);
    RoundStep(start, block, 20, Vars(0x2139187b, 0xf402f058, 0x046a193e, 0xb9dcacb1, 0x7c304206, 0x6f433549,
              0x885370b6, 0xd4f64250), 0x2de92c6f, 0x92a92204, 0xd70ac17d, 0x7cc6b262);
    RoundStep(start, block, 21, Vars(0xd70ac17d, 0x2139187b, 0xf402f058, 0x046a193e, 0x7cc6b262, 0x7c304206,
              0x6f433549, 0x885370b6), 0x4a7484aa, 0xd847e75e, 0x1b2b66b8, 0xd560b028);
    RoundStep(start, block, 22, Vars(0x1b2b66b8, 0xd70ac17d, 0x2139187b, 0xf402f058, 0xd560b028, 0x7cc6b262,
              0x7c304206, 0x6f433549), 0x5cb0a9dc, 0x9e160036, 0xae2e2d4f, 0xf074fc95);
    RoundStep(start, block, 23, Vars(0xae2e2d4f, 0x1b2b66b8, 0xd70ac17d, 0x2139187b, 0xf074fc95, 0xd560b028,
              0x7cc6b262, 0x7c304206), 0x76f988da, 0xb280a7cb, 0x59fce6b9, 0xa2c7d51d);
  }

  lemma {:induction false} FirstRounds3(start: State, block: Bytes)
    requires FirstBlock(block)
    requires AreVars(start, block, 24,
                     Vars(0x59fce6b9, 0xae2e2d4f, 0x1b2b66b8, 0xd70ac17d,
                          0xa2c7d51d, 0xf074fc95, 0xd560b028, 0x7cc6b262))
    ensures AreVars(start, block, 32,
                    Vars(0x5581ab07, 0xeb43f3ed, 0xdf7151a0, 0x74bcf468,
                         0xdf980085, 0x0635d880, 0x7629c961, 0x72abaecd))
  {
    hide IsWord, AreVars, IsConstant;
    Constants3();
    FirstSchedule3(block);
    RoundStep(start, block, 24, Vars(0x59fce6b9, 0xae2e2d4f, 0x1b2b66b8, 0xd70ac17d, 0xa2c7d51d, 0xf074fc95,
              0xd560b028, 0x7cc6b262), 0x983e5152, 0xddeb1516, 0x4a885065, 0x763597fb);
    RoundStep(start, block, 25, Vars(0x4a885065, 0x59fce6b9, 0xae2e2d4f, 0x1b2b66b8, 0x763597fb, 0xa2c7d51d,
              0xf074fc95, 0xd560b028), 0xa831c66d, 0xf36586f4, 0x573221da, 0x36e74eb4);
    RoundStep(start, block, 26, Vars(0x573221da, 0x4a885065, 0x59fce6b9, 0xae2e2d4f, 0x36e74eb4, 0x763597fb,
              0xa2c7d51d, 0xf074fc95), 0xb00327c8, 0x969cd048, 0x128661da, 0x1162d575);
    RoundStep(start, block, 27, Vars(0x128661da, 0x573221da, 0x4a885065, 0x59fce6b9, 0x1162d575, 0x36e74eb4,
              0x763597fb, 0xa2c7d51d), 0xbf597fc7, 0xe959d99d, 0x73f858af, 0xe77c797f);
    RoundStep(start, block, 28, Vars(0x73f858af, 0x128661da, 0x573221da, 0x4a885065, 0xe77c797f, 0x1162d575,
              0x36e74eb4, 0x763597fb), 0xc6e00bf3, 0x6accc0ec, 0x74bcf468, 0x72abaecd);
    RoundStep(start, block, 29, Vars(0x74bcf468, 0x73f858af, 0x128661da, 0x573221da, 0x72abaecd, 0xe77c797f,
              0x1162d575, 0x36e74eb4), 0xd5a79147, 0xf54cb098, 0xdf7151a0, 0x7629c961);
    RoundStep(start, block, 30, Vars(0xdf7151a0, 0x74bcf468, 0x73f858af, 0x128661da, 0x7629c961, 0x72abaecd,
              0xe77c797f, 0x1162d575), 0x06ca6351, 0x2af1b2da, 0xeb43f3ed, 0x0635d880);
    RoundStep(start, block, 31, Vars(0xeb43f3ed, 0xdf7151a0, 0x74bcf468, 0x73f858af, 0x0635d880, 0x7629c961,
              0x72abaecd, 0xe77c797f), 0x14292967, 0xee59c4c9, 0x5581ab07, 0xdf980085);
  }

  lemma {:induction false} FirstRounds4(start: State, block: Bytes)
    requires FirstBlock(block)
    requires AreVars(start, block, 32,
                     Vars(0x5581ab07, 0xeb43f3ed, 0xdf7151a0, 0x74bcf468,
                          0xdf980085, 0x0635d880, 0x7629c961, 0x72abaecd))
    ensures AreVars(start, block, 40,
                    Vars(0x7e4d30b8, 0x91ac9d5d, 0xa985b4be, 0x2c55d3a6,
                         0x9f5b9b6d, 0x68d8d590, 0xf72bf353, 0xb067c1af))
  {
    hide IsWord, AreVars, IsConstant;
    Constants4();
    FirstSchedule4(block);
    RoundStep(start, block, 32, Vars(0x5581ab07, 0xeb43f3ed, 0xdf7151a0, 0x74bcf468, 0xdf980085, 0x0635d880,
              0x7629c961, 0x72abaecd), 0x27b70a85, 0xa835e16a, 0x9fc905c8, 0xa94d2af1);
    RoundStep(start, block, 33, Vars(0x9fc905c8, 0x5581ab07, 0xeb43f3ed, 0xdf7151a0, 0xa94d2af1, 0xdf980085,
              0x0635d880, 0x7629c961), 0x2e1b2138, 0x1dff4429, 0x9ce5a62f, 0x6ef3b6bd);
    RoundStep(start, block, 34, Vars(0x9ce5a62f, 0x9fc905c8, 0x5581ab07, 0xeb43f3ed, 0x6ef3b6bd, 0xa94d2af1,
              0xdf980085, 0x0635d880), 0x4d2c6dfc, 0xd6e15959, 0x1df8e885, 0x2a9e048e);
    RoundStep(start, block, 35, Vars(0x1df8e885, 0x9ce5a62f, 0x9fc905c8, 0x5581ab07, 0x2a9e048e, 0x6ef3b6bd,
              0xa94d2af1, 0xdf980085), 0x53380d13, 0xc397cd6e, 0x0786dce8, 0xde2a21d1);
    RoundStep(start, block, 36, Vars(0x0786dce8, 0x1df8e885, 0x9ce5a62f, 0x9fc905c8, 0xde2a21d1, 0x2a9e048e,
              0x6ef3b6bd, 0xa94d2af1), 0x650a7354, 0x6f1801ca, 0x2c55d3a6, 0xb067c1af);
    RoundStep(start, block, 37, Vars(0x2c55d3a6, 0x0786dce8, 0x1df8e885, 0x9ce5a62f, 0xb067c1af, 0xde2a21d1,
              0x2a9e048e, 0x6ef3b6bd), 0x766a0abb, 0x21574205, 0xa985b4be, 0xf72bf353);
    RoundStep(start, block, 38, Vars(0xa985b4be, 0x2c55d3a6, 0x0786dce8, 0x1df8e885, 0xf72bf353, 0xb067c1af,
              0xde2a21d1, 0x2a9e048e), 0x81c2c92e, 0x35ff7a84, 0x91ac9d5d, 0x68d8d590);
    RoundStep(start, block, 39, Vars(0x91ac9d5d, 0xa985b4be, 0x2c55d3a6, 0x0786dce8, 0x68d8d590, 0xf72bf353,
              0xb067c1af, 0xde2a21d1), 0x92722c85, 0x9743ee78, 0x7e4d30b8, 0x9f5b9b6d);
  }

  lemma {:induction false} FirstRounds5(start: State, block: Bytes)
    requires FirstBlock(block)
    requires AreVars(start, block, 40,
                     Vars(0x7e4d30b8, 0x91ac9d5d, 0xa985b4be, 0x2c55d3a6,
                          0x9f5b9b6d, 0x68d8d590, 0xf72bf353, 0xb067c1af))
    ensures AreVars(start, block, 48,
                    Vars(0x13d82741, 0x165be9cd, 0x18f0d19d, 0xde71e2f2,
                         0xa7802a4d, 0xa483f080, 0x6b88472c, 0xff61c636))
  {
    hide IsWord, AreVars, IsConstant;
    Constants5();
    FirstSchedule5(block);
    RoundStep(start, block, 40, Vars(0x7e4d30b8, 0x91ac9d5d, 0xa985b4be, 0x2c55d3a6, 0x9f5b9b6d, 0x68d8d590,
              0xf72bf353, 0xb067c1af), 0xa2bfe8a1, 0xe44183e7, 0x7e056794, 0x423b26c0);
    RoundStep(start, block, 41, Vars(0x7e056794, 0x7e4d30b8, 0x91ac9d5d, 0xa985b4be, 0x423b26c0, 0x9f5b9b6d,
              0x68d8d590, 0xf72bf353), 0xa81a664b, 0x0d09f00d, 0x508a16ab, 0x45459d97);
    RoundStep(start, block, 42, Vars(0x508a16ab, 0x7e056794, 0x7e4d30b8, 0x91ac9d5d, 0x45459d97, 0x423b26c0,
              0x9f5b9b6d, 0x68d8d590), 0xc24b8b70, 0x9c89af54, 0xb62c7013, 0x80a92a00);
    RoundStep(start, block, 43, Vars(0xb62c7013, 0x508a16ab, 0x7e056794, 0x7e4d30b8, 0x80a92a00, 0x45459d97,
              0x423b26c0, 0x9f5b9b6d), 0xc76c51a3, 0x042d5bef, 0x167361de, 0x41dd3844);
    RoundStep(start, block, 44, Vars(0x167361de, 0xb62c7013, 0x508a16ab, 0x7e056794, 0x41dd3844, 0x80a92a00,
              0x45459d97, 0x423b26c0), 0xd192e819, 0x71f134d0, 0xde71e2f2, 0xff61c636);
    RoundStep(start, block, 45, Vars(0xde71e2f2, 0x167361de, 0xb62c7013, 0x508a16ab, 0xff61c636, 0x41dd3844,
              0x80a92a00, 0x45459d97), 0xd6990624, 0x0f94f463, 0x18f0d19d, 0x6b88472c);
    RoundStep(start, block, 46, Vars(0x18f0d19d, 0xde71e2f2, 0x167361de, 0xb62c7013, 0x6b88472c, 0xff61c636,
              0x41dd3844, 0x80a92a00), 0xf40e3585, 0x7e49dc63, 0x165be9cd, 0xa483f080);
    RoundStep(start, block, 47, Vars(0x165be9cd, 0x18f0d19d, 0xde71e2f2, 0x167361de, 0xa483f080, 0x6b88472c,
              0xff61c636, 0x41dd3844), 0x106aa070, 0x6f65c997, 0x13d82741, 0xa7802a4d);
  }

  lemma {:induction false} FirstRounds6(start: State, block: Bytes)
    requires FirstBlock(block)
    requires AreVars(start, block, 48,
                     Vars(0x13d82741, 0x165be9cd, 0x18f0d19d, 0xde71e2f2,
                          0xa7802a4d, 0xa483f080, 0x6b88472c, 0xff61c636))
    ensures AreVars(start, block, 56,
                    Vars(0x9e57c4a0, 0xf907b313, 0x1d6de87a, 0xb8d55619,
                         0xeec13548, 0x61a41711, 0x3443bed4, 0x1c806a61))
  {
    hide IsWord, AreVars, IsConstant;
    Constants6();
    FirstSchedule6(block);
    RoundStep(start, block, 48, Vars(0x13d82741, 0x165be9cd, 0x18f0d19d, 0xde71e2f2, 0xa7802a4d, 0xa483f080,
              0x6b88472c, 0xff61c636), 0x19a4c116, 0x0b706583, 0x017b9d99, 0xaeb10b60);
    RoundStep(start, block, 49, Vars(0x017b9d99, 0x13d82741, 0x165be9cd, 0x18f0d19d, 0xaeb10b60, 0xa7802a4d,
              0xa483f080, 0x6b88472c), 0x1e376c08, 0x179312ca, 0x543c99a1, 0x16f134b6);
    RoundStep(start, block, 50, Vars(0x543c99a1, 0x017b9d99, 0x13d82741, 0x165be9cd, 0x16f134b6, 0xaeb10b60,
              0xa7802a4d, 0xa483f080), 0x2748774c, 0x503054e9, 0x758ca97a, 0x100cf2ea);
    RoundStep(start, block, 51, Vars(0x758ca97a, 0x543c99a1, 0x017b9d99, 0x13d82741, 0x100cf2ea, 0x16f134b6,
              0xaeb10b60, 0xa7802a4d), 0x34b0bcb5, 0xba125c39, 0x81c1cde0, 0x5c47eb7b);
    RoundStep(start, block, 52, Vars(0x81c1cde0, 0x758ca97a, 0x543c99a1, 0x017b9d99, 0x5c47eb7b, 0x100cf2ea,
              0x16f134b6, 0xaeb10b60), 0x391c0cb3, 0x7e9392c9, 0xb8d55619, 0x1c806a61);
    RoundStep(start, block, 53, Vars(0xb8d55619, 0x81c1cde0, 0x758ca97a, 0x543c99a1, 0x1c806a61, 0x5c47eb7b,
              0x100cf2ea, 0x16f134b6), 0x4ed8aa4a, 0xd5cbaa1e, 0x1d6de87a, 0x3443bed4);
    RoundStep(start, block, 54, Vars(0x1d6de87a, 0xb8d55619, 0x81c1cde0, 0x758ca97a, 0x3443bed4, 0x1c806a61,
              0x5c47eb7b, 0x100cf2ea), 0x5b9cca4f, 0x78e0585d, 0xf907b313, 0x61a41711);
    RoundStep(start, block, 55, Vars(0xf907b313, 0x1d6de87a, 0xb8d55619, 0x81c1cde0, 0x61a41711, 0x3443bed4,
              0x1c806a61, 0x5c47eb7b), 0x682e6ff3, 0xf6e7611c, 0x9e57c4a0, 0xeec13548);
  }

  lemma {:induction false} FirstRounds7(start: State, block: Bytes)
    requires FirstBlock(block)
    requires AreVars(start, block, 56,
                     Vars(0x9e57c4a0, 0xf907b313, 0x1d6de87a, 0xb8d55619,
                          0xeec13548, 0x61a41711, 0x3443bed4, 0x1c806a61))
    ensures AreVars(start, block, 64,
                    Vars(0x1bdc6f6f, 0x86126910, 0xf6f443f8, 0xbcfce922,
                         0x25d2430a, 0x2fc08f85, 0xacc75916, 0x962d8621))
  {
    hide IsWord, AreVars, IsConstant;
    Constants7();
    FirstSchedule7(block);
    RoundStep(start, block, 56, Vars(0x9e57c4a0, 0xf907b313, 0x1d6de87a, 0xb8d55619, 0xeec13548, 0x61a41711,
              0x3443bed4, 0x1c806a61), 0x748f82ee, 0x8ac830ce, 0x71629856, 0x2f6c8c4e);
    RoundStep(start, block, 57, Vars(0x71629856, 0x9e57c4a0, 0xf907b313, 0x1d6de87a, 0x2f6c8c4e, 0xeec13548,
              0x61a41711, 0x3443bed4), 0x78a5636f, 0x8b47a303, 0x7c015a2c, 0xcb9d3dd0);
    RoundStep(start, block, 58, Vars(0x7c015a2c, 0x71629856, 0x9e57c4a0, 0xf907b313, 0xcb9d3dd0, 0x2f6c8c4e,
              0xeec13548, 0x61a41711), 0x84c87814, 0xfd6e627f, 0x921fccb6, 0x43d8a034);
    RoundStep(start, block, 59, Vars(0x921fccb6, 0x7c015a2c, 0x71629856, 0x9e57c4a0, 0x43d8a034, 0xcb9d3dd0,
              0x2f6c8c4e, 0xeec13548), 0x8cc70208, 0x8c6e2c6a, 0xe18f259a, 0x51e15869);
    RoundStep(start, block, 60, Vars(0xe18f259a, 0x921fccb6, 0x7c015a2c, 0x71629856, 0x51e15869, 0x43d8a034,
              0xcb9d3dd0, 0x2f6c8c4e), 0x90befffa, 0x4001adf1, 0xbcfce922, 0x962d8621);
    RoundStep(start, block, 61, Vars(0xbcfce922, 0xe18f259a, 0x921fccb6, 0x7c015a2c, 0x962d8621, 0x51e15869,
              0x43d8a034, 0xcb9d3dd0), 0xa4506ceb, 0x1a3dd097, 0xf6f443f8, 0xacc75916);
    RoundStep(start, block, 62, Vars(0xf6f443f8, 0xbcfce922, 0xe18f259a, 0x921fccb6, 0xacc75916, 0x962d8621,
              0x51e15869, 0x43d8a034), 0xbef9a3f7, 0xa9df6f62, 0x86126910, 0x2fc08f85);
    RoundStep(start, block, 63, Vars(0x86126910, 0xf6f443f8, 0xbcfce922, 0xe18f259a, 0x2fc08f85, 0xacc75916,
              0x962d8621, 0x51e15869), 0xc67178f2, 0x6aa60a39, 0x1bdc6f6f, 0x25d2430a);
  }

  lemma FirstCompressed(start: State, block: Bytes)
    requires FirstBlock(block) && |block| == 64
    requires start == StateOf(Vars(0x6a09e667, 0xbb67ae85, 0x3c6ef372, 0xa54ff53a,
                                   0x510e527f, 0x9b05688c, 0x1f83d9ab, 0x5be0cd19))
    ensures Compress(start, block) == StateOf(Vars(0x85e655d6, 0x417a1795, 0x3363376a, 0x624cde5c,
                                                   0x76e09589, 0xcac5f811, 0xcc4b32c1, 0xf20e533a))
  {
    hide IsWord, AreVars, Compress;
    NoRounds(start, block, Vars(0x6a09e667, 0xbb67ae85, 0x3c6ef372, 0xa54ff53a,
                                0x510e527f, 0x9b05688c, 0x1f83d9ab, 0x5be0cd19));
    FirstRounds0(start, block);
    FirstRounds1(start, block);
    FirstRounds2(start, block);
    FirstRounds3(start, block);
    FirstRounds4(start, block);
    FirstRounds5(start, block);
    FirstRounds6(start, block);
    FirstRounds7(start, block);
    Added(start, block, Vars(0x6a09e667, 0xbb67ae85, 0x3c6ef372, 0xa54ff53a,
                             0x510e527f, 0x9b05688c, 0x1f83d9ab, 0x5be0cd19),
          Vars(0x1bdc6f6f, 0x86126910, 0xf6f443f8, 0xbcfce922, 0x25d2430a, 0x2fc08f85, 0xacc75916, 0x962d8621),
          Vars(0x85e655d6, 0x417a1795, 0x3363376a, 0x624cde5c, 0x76e09589, 0xcac5f811, 0xcc4b32c1, 0xf20e533a));
  }

  // ------------------------------------------------------------ block Second

  predicate SecondBlock(block: Bytes)
  {
    && IsWord(block, 0, 0x00000000) && IsWord(block, 1, 0x00000000) && IsWord(block, 2, 0x00000000)
    && IsWord(block, 3, 0x00000000) && IsWord(block, 4, 0x00000000) && IsWord(block, 5, 0x00000000)
    && IsWord(block, 6, 0x00000000) && IsWord(block, 7, 0x00000000) && IsWord(block, 8, 0x00000000)
    && IsWord(block, 9, 0x00000000) && IsWord(block, 10, 0x00000000) && IsWord(block, 11, 0x00000000)
    && IsWord(block, 12, 0x00000000) && IsWord(block, 13, 0x00000000) && IsWord(block, 14, 0x00000000)
    && IsWord(block, 15, 0x000001c0)
  }

  lemma {:induction false} SecondSchedule2(block: Bytes)
    requires SecondBlock(block)
    ensures AreWords(block, 16, Eight(0x00000000, 0x00d80000, 0x00000000, 0x00003677,
                                      0x00000000, 0x1df5600d, 0x000001c0, 0x1c00501c))
  {
    hide IsWord;
    WordStep(block, 16, 0x00000000, 0x00000000, 0x00000000, 0x00000000, 0x00000000);
    WordStep(block, 17, 0x000001c0, 0x00000000, 0x00000000, 0x00000000, 0x00d80000);
    WordStep(block, 18, 0x00000000, 0x00000000, 0x00000000, 0x00000000, 0x00000000);
    WordStep(block, 19, 0x00d80000, 0x00000000, 0x00000000, 0x00000000, 0x00003677);
    WordStep(block, 20, 0x00000000, 0x00000000, 0x00000000, 0x00000000, 0x00000000);
    WordStep(block, 21, 0x00003677, 0x00000000, 0x00000000, 0x00000000, 0x1df5600d);
    WordStep(block, 22, 0x00000000, 0x000001c0, 0x00000000, 0x00000000, 0x000001c0);
    WordStep(block, 23, 0x1df5600d, 0x00000000, 0x00000000, 0x00000000, 0x1c00501c);
  }

  lemma {:induction false} SecondSchedule3(block: Bytes)
    requires SecondBlock(block)
    ensures AreWords(block, 24, Eight(0x01b00000, 0x220a8d94, 0x0000a365, 0x177017e7,
                                      0x63d38035, 0x090ab713, 0x4c7539ca, 0x0f19a8c9))
  {
    hide IsWord;
    SecondSchedule2(block);
    WordStep(block, 24, 0x000001c0, 0x00d80000, 0x00000000, 0x00000000, 0x01b00000);
    WordStep(block, 25, 0x1c00501c, 0x00000000, 0x00000000, 0x00000000, 0x220a8d94);
    WordStep(block, 26, 0x01b00000, 0x00003677, 0x00000000, 0x00000000, 0x0000a365);
    WordStep(block, 27, 0x220a8d94, 0x00000000, 0x00000000, 0x00000000, 0x177017e7);
    WordStep(block, 28, 0x0000a365, 0x1df5600d, 0x00000000, 0x00000000, 0x63d38035);
    WordStep(block, 29, 0x177017e7, 0x000001c0, 0x00000000, 0x00000000, 0x090ab713);
    WordStep(block, 30, 0x63d38035, 0x1c00501c, 0x000001c0, 0x00000000, 0x4c7539ca);
    WordStep(block, 31, 0x090ab713, 0x01b00000, 0x00000000, 0x000001c0, 0x0f19a8c9);
  }

  lemma {:induction false} SecondSchedule4(block: Bytes)
    requires SecondBlock(block)
    ensures AreWords(block, 32, Eight(0x5df4b0c4, 0xe257036a, 0xc97bb6f1, 0xc5b46f4d,
                                      0xf8253c4e, 0xa558d189, 0x78696285, 0xed07117f))
  {
    hide IsWord;
    SecondSchedule3(block); SecondSchedule2(block);
    WordStep(block, 32, 0x4c7539ca, 0x220a8d94, 0x00d80000, 0x00000000, 0x5df4b0c4);
    WordStep(block, 33, 0x0f19a8c9, 0x0000a365, 0x00000000, 0x00d80000, 0xe257036a);
    WordStep(block, 34, 0x5df4b0c4, 0x177017e7, 0x00003677, 0x00000000, 0xc97bb6f1);
    WordStep(block, 35, 0xe257036a, 0x63d38035, 0x00000000, 0x00003677, 0xc5b46f4d);
    WordStep(block, 36, 0xc97bb6f1, 0x090ab713, 0x1df5600d, 0x00000000, 0xf8253c4e);
    WordStep(block, 37, 0xc5b46f4d, 0x4c7539ca, 0x000001c0, 0x1df5600d, 0xa558d189);
    WordStep(block, 38, 0xf8253c4e, 0x0f19a8c9, 0x1c00501c, 0x000001c0, 0x78696285);
    WordStep(block, 39, 0xa558d189, 0x5df4b0c4, 0x01b00000, 0x1c00501c, 0xed07117f);
  }

  lemma {:induction false} SecondSchedule5(block: Bytes)
    requires SecondBlock(block)
    ensures AreWords(block, 40, Eight(0x107358f6, 0x390ae496, 0x565010a2, 0xc51d7d44,
                                      0x9e74c972, 0x6614b561, 0x30fc129d, 0x9ac684a8))
  {
    hide IsWord;
    SecondSchedule4(block); SecondSchedule3(block);
    WordStep(block, 40, 0x78696285, 0xe257036a, 0x220a8d94, 0x01b00000, 0x107358f6);
    WordStep(block, 41, 0xed07117f, 0xc97bb6f1, 0x0000a365, 0x220a8d94, 0x390ae496);
    WordStep(block, 42, 0x107358f6, 0xc5b46f4d, 0x177017e7, 0x0000a365, 0x565010a2);
    WordStep(block, 43, 0x390ae496, 0xf8253c4e, 0x63d38035, 0x177017e7, 0xc51d7d44);
    WordStep(block, 44, 0x565010a2, 0xa558d189, 0x090ab713, 0x63d38035, 0x9e74c972);
    WordStep(block, 45, 0xc51d7d44, 0x78696285, 0x4c7539ca, 0x090ab713, 0x6614b561);
    WordStep(block, 46, 0x9e74c972, 0xed07117f, 0x0f19a8c9, 0x4c7539ca, 0x30fc129d);
    WordStep(block, 47, 0x6614b561, 0x107358f6, 0x5df4b0c4, 0x0f19a8c9, 0x9ac684a8);
  }

  lemma {:induction false} SecondSchedule6(block: Bytes)
    requires SecondBlock(block)
    ensures AreWords(block, 48, Eight(0x2b658dbd, 0xe290f793, 0x9eebb24c, 0x9713b5de,
                                      0x41061ab7, 0xe022e23b, 0x0772079e, 0x7de22d9c))
  {
    hide IsWord;
    SecondSchedule5(block); SecondSchedule4(block);
    WordStep(block, 48, 0x30fc129d, 0x390ae496, 0xe257036a, 0x5df4b0c4, 0x2b658dbd);
    WordStep(block, 49, 0x9ac684a8, 0x565010a2, 0xc97bb6f1, 0xe257036a, 0xe290f793);
    WordStep(block, 50, 0x2b658dbd, 0xc51d7d44, 0xc5b46f4d, 0xc97bb6f1, 0x9eebb24c);
    WordStep(block, 51, 0xe290f793, 0x9e74c972, 0xf8253c4e, 0xc5b46f4d, 0x9713b5de);
    WordStep(block, 52, 0x9eebb24c, 0x6614b561, 0xa558d189, 0xf8253c4e, 0x41061ab7);
    WordStep(block, 53, 0x9713b5de, 0x30fc129d, 0x78696285, 0xa558d189, 0xe022e23b);
    WordStep(block, 54, 0x41061ab7, 0x9ac684a8, 0xed07117f, 0x78696285, 0x0772079e);
    WordStep(block, 55, 0xe022e23b, 0x2b658dbd, 0x107358f6, 0xed07117f, 0x7de22d9c);
  }

  lemma {:induction false} SecondSchedule7(block: Bytes)
    requires SecondBlock(block)
    ensures AreWords(block, 56, Eight(0xc8b83778, 0x75a79849, 0xd93dbddb, 0x0a036c9d,
                                      0xcb4f6ac6, 0x823f97e2, 0xea2f2a7a, 0xb9018b52))
  {
    hide IsWord;
    SecondSchedule6(block); SecondSchedule5(block);
    WordStep(block, 56, 0x0772079e, 0xe290f793, 0x390ae496, 0x107358f6, 0xc8b83778);
    WordStep(block, 57, 0x7de22d9c, 0x9eebb24c, 0x565010a2, 0x390ae496, 0x75a79849);
    WordStep(block, 58, 0xc8b83778, 0x9713b5de, 0xc51d7d44, 0x565010a2, 0xd93dbddb);
    WordStep(block, 59, 0x75a79849, 0x41061ab7, 0x9e74c972, 0xc51d7d44, 0x0a036c9d);
    WordStep(block, 60, 0xd93dbddb, 0xe022e23b, 0x6614b561, 0x9e74c972, 0xcb4f6ac6);
    WordStep(block, 61, 0x0a036c9d, 0x0772079e, 0x30fc129d, 0x6614b561, 0x823f97e2);
    WordStep(block, 62, 0xcb4f6ac6, 0x7de22d9c, 0x9ac684a8, 0x30fc129d, 0xea2f2a7a);
    WordStep(block, 63, 0x823f97e2, 0xc8b83778, 0x2b658dbd, 0x9ac684a8, 0xb9018b52);
  }

  lemma {:induction false} SecondRounds0(start: State, block: Bytes)
    requires SecondBlock(block)
    requires AreVars(start, block, 0,
                     Vars(0x85e655d6, 0x417a1795, 0x3363376a, 0x624cde5c,
                          0x76e09589, 0xcac5f811, 0xcc4b32c1, 0xf20e533a))
    ensures AreVars(start, block, 8,
                    Vars(0xbf9a93a0, 0x89bba3f1, 0x3eeb6c06, 0x185a5d79,
                         0x059abdd1, 0x0a34df03, 0xfe20cda6, 0x8dff3001))
  {
    hide IsWord, AreVars, IsConstant;
    Constants0();
    RoundStep(start, block, 0, Vars(0x85e655d6, 0x417a1795, 0x3363376a, 0x624cde5c, 0x76e09589, 0xcac5f811,
              0xcc4b32c1, 0xf20e533a), 0x428a2f98, 0x00000000, 0x7c20c838, 0x4670ae6e);
    RoundStep(start, block, 1, Vars(0x7c20c838, 0x85e655d6, 0x417a1795, 0x3363376a, 0x4670ae6e, 0x76e09589,
              0xcac5f811, 0xcc4b32c1), 0x71374491, 0x00000000, 0x7c3c0f86, 0x8c51be64);
    RoundStep(start, block, 2, Vars(0x7c3c0f86, 0x7c20c838, 0x85e655d6, 0x417a1795, 0x8c51be64, 0x4670ae6e,
              0x76e09589, 0xcac5f811), 0xb5c0fbcf, 0x00000000, 0xfd1eebdc, 0xaf71b9ea);
    RoundStep(start, block, 3, Vars(0xfd1eebdc, 0x7c3c0f86, 0x7c20c838, 0x85e655d6, 0xaf71b9ea, 0x8c51be64,
              0x4670ae6e, 0x76e09589), 0xe9b5dba5, 0x00000000, 0xf268faa9, 0xe20362ef);
    RoundStep(start, block, 4, Vars(0xf268faa9, 0xfd1eebdc, 0x7c3c0f86, 0x7c20c838, 0xe20362ef, 0xaf71b9ea,
              0x8c51be64, 0x4670ae6e), 0x3956c25b, 0x00000000, 0x185a5d79, 0x8dff3001);
    RoundStep(start, block, 5, Vars(0x185a5d79, 0xf268faa9, 0xfd1eebdc, 0x7c3c0f86, 0x8dff3001, 0xe20362ef,
              0xaf71b9ea, 0x8c51be64), 0x59f111f1, 0x00000000, 0x3eeb6c06, 0xfe20cda6);
    RoundStep(start, block, 6, Vars(0x3eeb6c06, 0x185a5d79, 0xf268faa9, 0xfd1eebdc, 0xfe20cda6, 0x8dff3001,
              0xe20362ef, 0xaf71b9ea), 0x923f82a4, 0x00000000, 0x89bba3f1, 0x0a34df03);
    RoundStep(start, block, 7, Vars(0x89bba3f1, 0x3eeb6c06, 0x185a5d79, 0xf268faa9, 0x0a34df03, 0xfe20cda6,
              0x8dff3001, 0xe20362ef), 0xab1c5ed5, 0x00000000, 0xbf9a93a0, 0x059abdd1);
  }

  lemma {:induction false} SecondRounds1(start: State, block: Bytes)
    requires SecondBlock(block)
    requires AreVars(start, block, 8,
                     Vars(0xbf9a93a0, 0x89bba3f1, 0x3eeb6c06, 0x185a5d79,
                          0x059abdd1, 0x0a34df03, 0xfe20cda6, 0x8dff3001))
    ensures AreVars(start, block, 16,
                    Vars(0x16a8cc79, 0x0cea5cbc, 0xd74080fa, 0x35ee996d,
                         0x0fcb1f6f, 0x60356548, 0x68aa893f, 0x5c24e2a2))
  {
    hide IsWord, AreVars, IsConstant;
    Constants1();
    RoundStep(start, block, 8, Vars(0xbf9a93a0, 0x89bba3f1, 0x3eeb6c06, 0x185a5d79, 0x059abdd1, 0x0a34df03,
              0xfe20cda6, 0x8dff3001), 0xd807aa98, 0x00000000, 0x2c096744, 0xabfa465b);
    RoundStep(start, block, 9, Vars(0x2c096744, 0xbf9a93a0, 0x89bba3f1, 0x3eeb6c06, 0xabfa465b, 0x059abdd1,
              0x0a34df03, 0xfe20cda6), 0x12835b01, 0x00000000, 0x2d964e86, 0xaa27ed82);
    RoundStep(start, block, 10, Vars(0x2d964e86, 0x2c096744, 0xbf9a93a0, 0x89bba3f1, 0xaa27ed82, 0xabfa465b,
              0x059abdd1, 0x0a34df03), 0x243185be, 0x00000000, 0x5b35025b, 0x10e77723);
    RoundStep(start, block, 11, Vars(0x5b35025b, 0x2d964e86, 0x2c096744, 0xbf9a93a0, 0x10e77723, 0xaa27ed82,
              0xabfa465b, 0x059abdd1), 0x550c7dc3, 0x00000000, 0x5eb4ec40, 0xe11b4548);
    RoundStep(start, block, 12, Vars(0x5eb4ec40, 0x5b35025b, 0x2d964e86, 0x2c096744, 0xe11b4548, 0x10e77723,
              0xaa27ed82, 0xabfa465b), 0x72be5d74, 0x00000000, 0x35ee996d, 0x5c24e2a2);
    RoundStep(start, block, 13, Vars(0x35ee996d, 0x5eb4ec40, 0x5b35025b, 0x2d964e86, 0x5c24e2a2, 0xe11b4548,
              0x10e77723, 0xaa27ed82), 0x80deb1fe, 0x00000000, 0xd74080fa, 0x68aa893f);
    RoundStep(start, block, 14, Vars(0xd74080fa, 0x35ee996d, 0x5eb4ec40, 0x5b35025b, 0x68aa893f, 0x5c24e2a2,
              0xe11b4548, 0x10e77723), 0x9bdc06a7, 0x00000000, 0x0cea5cbc, 0x60356548);
    RoundStep(start, block, 15, Vars(0x0cea5cbc, 0xd74080fa, 0x35ee996d, 0x5eb4ec40, 0x60356548, 0x68aa893f,
              0x5c24e2a2, 0xe11b4548), 0xc19bf174, 0x000001c0, 0x16a8cc79, 0x0fcb1f6f);
  }

  lemma {:induction false} SecondRounds2(start: State, block: Bytes)
    requires SecondBlock(block)
    requires AreVars(start, block, 16,
                     Vars(0x16a8cc79, 0x0cea5cbc, 0xd74080fa, 0x35ee996d,
                          0x0fcb1f6f, 0x60356548, 0x68aa893f, 0x5c24e2a2))
    ensures AreVars(start, block, 24,
                    Vars(0xa4195b91, 0xf13ae55b, 0xd44dc81a, 0x20aad899,
                         0xeddbd6ed, 0x966aa287, 0x5bace62d, 0xcc4769f2))
  {
    hide IsWord, AreVars, IsConstant;
    Constants2();
    SecondSchedule2(block);
    RoundStep(start, block, 16, Vars(0x16a8cc79, 0x0cea5cbc, 0xd74080fa, 0x35ee996d, 0x0fcb1f6f, 0x60356548,
              0x68aa893f, 0x5c24e2a2), 0xe49b69c1, 0x00000000, 0xf16f634e, 0x8b21cdc1);
    RoundStep(start, block, 17, Vars(0xf16f634e, 0x16a8cc79, 0x0cea5cbc, 0xd74080fa, 0x8b21cdc1, 0x0fcb1f6f,
              0x60356548, 0x68aa893f), 0xefbe4786, 0x00d80000, 0x23dcb6c2, 0xca9182d3);
    RoundStep(start, block, 18, Vars(0x23dcb6c2, 0xf16f634e, 0x16a8cc79, 0x0cea5cbc, 0xca9182d3, 0x8b21cdc1,
              0x0fcb1f6f, 0x60356548), 0x0fc19dc6, 0x00000000, 0xdcff40fd, 0x69bf7b95);
    RoundStep(start, block, 19, Vars(0xdcff40fd, 0x23dcb6c2, 0xf16f634e, 0x16a8cc79, 0x69bf7b95, 0xca9182d3,
              0x8b21cdc1, 0x0fcb1f6f), 0x240ca1cc, 0x00003677, 0x76f1a2bc, 0x0dc84bb1);
    RoundStep(start, block, 20, Vars(0x76f1a2bc, 0xdcff40fd, 0x23dcb6c2, 0xf16f634e, 0x0dc84bb1, 0x69bf7b95,
              0xca9182d3, 0x8b21cdc1), 0x2de92c6f, 0x00000000, 0x20aad899, 0xcc4769f2);
    RoundStep(start, block, 21, Vars(0x20aad899, 0x76f1a2bc, 0xdcff40fd, 0x23dcb6c2, 0xcc4769f2, 0x0dc84bb1,
              0x69bf7b95, 0xca9182d3), 0x4a7484aa, 0x1df5600d, 0xd44dc81a, 0x5bace62d);
    RoundStep(start, block, 22, Vars(0xd44dc81a, 0x20aad899, 0x76f1a2bc, 0xdcff40fd, 0x5bace62d, 0xcc4769f2,
              0x0dc84bb1, 0x69bf7b95), 0x5cb0a9dc, 0x000001c0, 0xf13ae55b, 0x966aa287);
    RoundStep(start, block, 23, Vars(0xf13ae55b, 0xd44dc81a, 0x20aad899, 0x76f1a2bc, 0x966aa287, 0x5bace62d,
              0xcc4769f2, 0x0dc84bb1), 0x76f988da, 0x1c00501c, 0xa4195b91, 0xeddbd6ed);
  }

  lemma {:induction false} SecondRounds3(start: State, block: Bytes)
    requires SecondBlock(block)
    requires AreVars(start, block, 24,
                     Vars(0xa4195b91, 0xf13ae55b, 0xd44dc81a, 0x20aad899,
                          0xeddbd6ed, 0x966aa287, 0x5bace62d, 0xcc4769f2))
    ensures AreVars(start, block, 32,
                    Vars(0xb0eab1c5, 0x02ef3a5f, 0x1cfa5eb0, 0xd958b529,
                         0xf6d93952, 0x5da10665, 0x6c49db9f, 0xc2fa99b1))
  {
    hide IsWord, AreVars, IsConstant;
    Constants3();
    SecondSchedule3(block);
    RoundStep(start, block, 24, Vars(0xa4195b91, 0xf13ae55b, 0xd44dc81a, 0x20aad899, 0xeddbd6ed, 0x966aa287,
              0x5bace62d, 0xcc4769f2), 0x983e5152, 0x01b00000, 0x4984fa79, 0xa530d939);
    RoundStep(start, block, 25, Vars(0x4984fa79, 0xa4195b91, 0xf13ae55b, 0xd44dc81a, 0xa530d939, 0xeddbd6ed,
              0x966aa287, 0x5bace62d), 0xa831c66d, 0x220a8d94, 0xaa6cb982, 0x0b5eeea4);
    RoundStep(start, block, 26, Vars(0xaa6cb982, 0x4984fa79, 0xa4195b91, 0xf13ae55b, 0x0b5eeea4, 0xa530d939,
              0xeddbd6ed, 0x966aa287), 0xb00327c8, 0x0000a365, 0x9450fbbc, 0x09166dda);
    RoundStep(start, block, 27, Vars(0x9450fbbc, 0xaa6cb982, 0x4984fa79, 0xa4195b91, 0x09166dda, 0x0b5eeea4,
              0xa530d939, 0xeddbd6ed), 0xbf597fc7, 0x177017e7, 0x0d936bab, 0x6e495d4b);
    RoundStep(start, block, 28, Vars(0x0d936bab, 0x9450fbbc, 0xaa6cb982, 0x4984fa79, 0x6e495d4b, 0x09166dda,
              0x0b5eeea4, 0xa530d939), 0xc6e00bf3, 0x63d38035, 0xd958b529, 0xc2fa99b1);
    RoundStep(start, block, 29, Vars(0xd958b529, 0x0d936bab, 0x9450fbbc, 0xaa6cb982, 0xc2fa99b1, 0x6e495d4b,
              0x09166dda, 0x0b5eeea4), 0xd5a79147, 0x090ab713, 0x1cfa5eb0, 0x6c49db9f);
    RoundStep(start, block, 30, Vars(0x1cfa5eb0, 0xd958b529, 0x0d936bab, 0x9450fbbc, 0x6c49db9f, 0xc2fa99b1,
              0x6e495d4b, 0x09166dda), 0x06ca6351, 0x4c7539ca, 0x02ef3a5f, 0x5da10665);
    RoundStep(start, block, 31, Vars(0x02ef3a5f, 0x1cfa5eb0, 0xd958b529, 0x0d936bab, 0x5da10665, 0x6c49db9f,
              0xc2fa99b1, 0x6e495d4b), 0x14292967, 0x0f19a8c9, 0xb0eab1c5, 0xf6d93952);
  }

  lemma {:induction false} SecondRounds4(start: State, block: Bytes)
    requires SecondBlock(block)
    requires AreVars(start, block, 32,
                     Vars(0xb0eab1c5, 0x02ef3a5f, 0x1cfa5eb0, 0xd958b529,
                          0xf6d93952, 0x5da10665, 0x6c49db9f, 0xc2fa99b1))
    ensures AreVars(start, block, 40,
                    Vars(0x221b8a5a, 0xadca7a96, 0xd949682b, 0x2f11c939,
                         0x0b82c5eb, 0xc6cce4ff, 0x32d99008, 0xfed4ce1d))
  {
    hide IsWord, AreVars, IsConstant;
    Constants4();
    SecondSchedule4(block);
    RoundStep(start, block, 32, Vars(0xb0eab1c5, 0x02ef3a5f, 0x1cfa5eb0, 0xd958b529, 0xf6d93952, 0x5da10665,
              0x6c49db9f, 0xc2fa99b1), 0x27b70a85, 0x5df4b0c4, 0x0bfba73c, 0x8b99e3a9);
    RoundStep(start, block, 33, Vars(0x0bfba73c, 0xb0eab1c5, 0x02ef3a5f, 0x1cfa5eb0, 0x8b99e3a9, 0xf6d93952,
              0x5da10665, 0x6c49db9f), 0x2e1b2138, 0xe257036a, 0x4bd1df96, 0x905e44ac);
    RoundStep(start, block, 34, Vars(0x4bd1df96, 0x0bfba73c, 0xb0eab1c5, 0x02ef3a5f, 0x905e44ac, 0x8b99e3a9,
              0xf6d93952, 0x5da10665), 0x4d2c6dfc, 0xc97bb6f1, 0x9907f1b6, 0x66c3043d);
    RoundStep(start, block, 35, Vars(0x9907f1b6, 0x4bd1df96, 0x0bfba73c, 0xb0eab1c5, 0x66c3043d, 0x905e44ac,
              0x8b99e3a9, 0xf6d93952), 0x53380d13, 0xc5b46f4d, 0xecde4e0d, 0x5dc119e6);
    RoundStep(start, block, 36, Vars(0xecde4e0d, 0x9907f1b6, 0x4bd1df96, 0x0bfba73c, 0x5dc119e6, 0x66c3043d,
              0x905e44ac, 0x8b99e3a9), 0x650a7354, 0xf8253c4e, 0x2f11c939, 0xfed4ce1d);
    RoundStep(start, block, 37, Vars(0x2f11c939, 0xecde4e0d, 0x9907f1b6, 0x4bd1df96, 0xfed4ce1d, 0x5dc119e6,
              0x66c3043d, 0x905e44ac), 0x766a0abb, 0xa558d189, 0xd949682b, 0x32d99008);
    RoundStep(start, block, 38, Vars(0xd949682b, 0x2f11c939, 0xecde4e0d, 0x9907f1b6, 0x32d99008, 0xfed4ce1d,
              0x5dc119e6, 0x66c3043d), 0x81c2c92e, 0x78696285, 0xadca7a96, 0xc6cce4ff);
    RoundStep(start, block, 39, Vars(0xadca7a96, 0xd949682b, 0x2f11c939, 0xecde4e0d, 0xc6cce4ff, 0x32d99008,
              0xfed4ce1d, 0x5dc119e6), 0x92722c85, 0xed07117f, 0x221b8a5a, 0x0b82c5eb);
  }

  lemma {:induction false} SecondRounds5(start: State, block: Bytes)
    requires SecondBlock(block)
    requires AreVars(start, block, 40,
                     Vars(0x221b8a5a, 0xadca7a96, 0xd949682b, 0x2f11c939,
                          0x0b82c5eb, 0xc6cce4ff, 0x32d99008, 0xfed4ce1d))
    ensures AreVars(start, block, 48,
                    Vars(0xd7354d5b, 0x0b3303a7, 0x104a7db4, 0x0f154e11,
                         0xaad55b6b, 0xbbe1c39a, 0x5348e8f6, 0x6f9517cb))
  {
    hide IsWord, AreVars, IsConstant;
    Constants5();
    SecondSchedule5(block);
    RoundStep(start, block, 40, Vars(0x221b8a5a, 0xadca7a96, 0xd949682b, 0x2f11c939, 0x0b82c5eb, 0xc6cce4ff,
              0x32d99008, 0xfed4ce1d), 0xa2bfe8a1, 0x107358f6, 0x12d97845, 0xe4213ca2);
    RoundStep(start, block, 41, Vars(0x12d97845, 0x221b8a5a, 0xadca7a96, 0xd949682b, 0xe4213ca2, 0x0b82c5eb,
              0xc6cce4ff, 0x32d99008), 0xa81a664b, 0x390ae496, 0x2c794876, 0xff6759ba);
    RoundStep(start, block, 42, Vars(0x2c794876, 0x12d97845, 0x221b8a5a, 0xadca7a96, 0xff6759ba, 0xe4213ca2,
              0x0b82c5eb, 0xc6cce4ff), 0xc24b8b70, 0x565010a2, 0x8300fca2, 0xe0e3457c);
    RoundStep(start, block, 43, Vars(0x8300fca2, 0x2c794876, 0x12d97845, 0x221b8a5a, 0xe0e3457c, 0xff6759ba,
              0xe4213ca2, 0x0b82c5eb), 0xc76c51a3, 0xc51d7d44, 0xf2ad6322, 0xcc48c7f3);
    RoundStep(start, block, 44, Vars(0xf2ad6322, 0x8300fca2, 0x2c794876, 0x12d97845, 0xcc48c7f3, 0xe0e3457c,
              0xff6759ba, 0xe4213ca2), 0xd192e819, 0x9e74c972, 0x0f154e11, 0x6f9517cb);
    RoundStep(start, block, 45, Vars(0x0f154e11, 0xf2ad6322, 0x8300fca2, 0x2c794876, 0x6f9517cb, 0xcc48c7f3,
              0xe0e3457c, 0xff6759ba), 0xd6990624, 0x6614b561, 0x104a7db4, 0x5348e8f6);
    RoundStep(start, block, 46, Vars(0x104a7db4, 0x0f154e11, 0xf2ad6322, 0x8300fca2, 0x5348e8f6, 0x6f9517cb,
              0xcc48c7f3, 0xe0e3457c), 0xf40e3585, 0x30fc129d, 0x0b3303a7, 0xbbe1c39a);
    RoundStep(start, block, 47, Vars(0x0b3303a7, 0x104a7db4, 0x0f154e11, 0xf2ad6322, 0xbbe1c39a, 0x5348e8f6,
              0x6f9517cb, 0xcc48c7f3), 0x106aa070, 0x9ac684a8, 0xd7354d5b, 0xaad55b6b);
  }

  lemma {:induction false} SecondRounds6(start: State, block: Bytes)
    requires SecondBlock(block)
    requires AreVars(start, block, 48,
                     Vars(0xd7354d5b, 0x0b3303a7, 0x104a7db4, 0x0f154e11,
                          0xaad55b6b, 0xbbe1c39a, 0x5348e8f6, 0x6f9517cb))
    ensures AreVars(start, block, 56,
                    Vars(0x92952710, 0xd9f0c115, 0xec02560a, 0x4eca6fa0,
                         0x226806d6, 0x624150c4, 0x7151df8e, 0x989ed071))
  {
    hide IsWord, AreVars, IsConstant;
    Constants6();
    SecondSchedule6(block);
    RoundStep(start, block, 48, Vars(0xd7354d5b, 0x0b3303a7, 0x104a7db4, 0x0f154e11, 0xaad55b6b, 0xbbe1c39a,
              0x5348e8f6, 0x6f9517cb), 0x19a4c116, 0x2b658dbd, 0xb736d7a6, 0x68f25260);
    RoundStep(start, block, 49, Vars(0xb736d7a6, 0xd7354d5b, 0x0b3303a7, 0x104a7db4, 0x68f25260, 0xaad55b6b,
              0xbbe1c39a, 0x5348e8f6), 0x1e376c08, 0xe290f793, 0x2748e5ec, 0xd4b58576);
    RoundStep(start, block, 50, Vars(0x2748e5ec, 0xb736d7a6, 0xd7354d5b, 0x0b3303a7, 0xd4b58576, 0x68f25260,
              0xaad55b6b, 0xbbe1c39a), 0x2748774c, 0x9eebb24c, 0xd8aabcf9, 0x27844711);
    RoundStep(start, block, 51, Vars(0xd8aabcf9, 0x2748e5ec, 0xb736d7a6, 0xd7354d5b, 0x27844711, 0xd4b58576,
              0x68f25260, 0xaad55b6b), 0x34b0bcb5, 0x9713b5de, 0x1a6bcf6a, 0xff5e99d0);
    RoundStep(start, block, 52, Vars(0x1a6bcf6a, 0xd8aabcf9, 0x2748e5ec, 0xb736d7a6, 0xff5e99d0, 0x27844711,
              0xd4b58576, 0x68f25260), 0x391c0cb3, 0x41061ab7, 0x4eca6fa0, 0x989ed071);
    RoundStep(start, block, 53, Vars(0x4eca6fa0, 0x1a6bcf6a, 0xd8aabcf9, 0x2748e5ec, 0x989ed071, 0xff5e99d0,
              0x27844711, 0xd4b58576), 0x4ed8aa4a, 0xe022e23b, 0xec02560a, 0x7151df8e);
    RoundStep(start, block, 54, Vars(0xec02560a, 0x4eca6fa0, 0x1a6bcf6a, 0xd8aabcf9, 0x7151df8e, 0x989ed071,
              0xff5e99d0, 0x27844711), 0x5b9cca4f, 0x0772079e, 0xd9f0c115, 0x624150c4);
    RoundStep(start, block, 55, Vars(0xd9f0c115, 0xec02560a, 0x4eca6fa0, 0x1a6bcf6a, 0x624150c4, 0x7151df8e,
              0x989ed071, 0xff5e99d0), 0x682e6ff3, 0x7de22d9c, 0x92952710, 0x226806d6);
  }

  lemma {:induction false} SecondRounds7(start: State, block: Bytes)
    requires SecondBlock(block)
    requires AreVars(start, block, 56,
                     Vars(0x92952710, 0xd9f0c115, 0xec02560a, 0x4eca6fa0,
                          0x226806d6, 0x624150c4, 0x7151df8e, 0x989ed071))
    ensures AreVars(start, block, 64,
                    Vars(0x9ea7148b, 0x908c2123, 0xb25cef29, 0xa9f181dd,
                         0x2c5c4ed0, 0x9a392956, 0x2aa1bb13, 0x27ccb387))
  {
    hide IsWord, AreVars, IsConstant;
    Constants7();
    SecondSchedule7(block);
    RoundStep(start, block, 56, Vars(0x92952710, 0xd9f0c115, 0xec02560a, 0x4eca6fa0, 0x226806d6, 0x624150c4,
              0x7151df8e, 0x989ed071), 0x748f82ee, 0xc8b83778, 0x20d4d0e4, 0x4e515a4d);
    RoundStep(start, block, 57, Vars(0x20d4d0e4, 0x92952710, 0xd9f0c115, 0xec02560a, 0x4e515a4d, 0x226806d6,
              0x624150c4, 0x7151df8e), 0x78a5636f, 0x75a79849, 0x4348eb1f, 0xc21eddf9);
    RoundStep(start, block, 58, Vars(0x4348eb1f, 0x20d4d0e4, 0x92952710, 0xd9f0c115, 0xc21eddf9, 0x4e515a4d,
              0x226806d6, 0x624150c4), 0x84c87814, 0xd93dbddb, 0x286fe5f0, 0x54076664);
    RoundStep(start, block, 59, Vars(0x286fe5f0, 0x4348eb1f, 0x20d4d0e4, 0x92952710, 0x54076664, 0xc21eddf9,
              0x4e515a4d, 0x226806d6), 0x8cc70208, 0x0a036c9d, 0x1c4cddd9, 0xf487a853);
    RoundStep(start, block, 60, Vars(0x1c4cddd9, 0x286fe5f0, 0x4348eb1f, 0x20d4d0e4, 0xf487a853, 0x54076664,
              0xc21eddf9, 0x4e515a4d), 0x90befffa, 0xcb4f6ac6, 0xa9f181dd, 0x27ccb387);
    RoundStep(start, block, 61, Vars(0xa9f181dd, 0x1c4cddd9, 0x286fe5f0, 0x4348eb1f, 0x27ccb387, 0xf487a853,
              0x54076664, 0xc21eddf9), 0xa4506ceb, 0x823f97e2, 0xb25cef29, 0x2aa1bb13);
    RoundStep(start, block, 62, Vars(0xb25cef29, 0xa9f181dd, 0x1c4cddd9, 0x286fe5f0, 0x2aa1bb13, 0x27ccb387,
              0xf487a853, 0x54076664), 0xbef9a3f7, 0xea2f2a7a, 0x908c2123, 0x9a392956);
    RoundStep(start, block, 63, Vars(0x908c2123, 0xb25cef29, 0xa9f181dd, 0x1c4cddd9, 0x9a392956, 0x2aa1bb13,
              0x27ccb387, 0xf487a853), 0xc67178f2, 0xb9018b52, 0x9ea7148b, 0x2c5c4ed0);
  }

  lemma SecondCompressed(start: State, block: Bytes)
    requires SecondBlock(block) && |block| == 64
    requires start == StateOf(Vars(0x85e655d6, 0x417a1795, 0x3363376a, 0x624cde5c,
                                   0x76e09589, 0xcac5f811, 0xcc4b32c1, 0xf20e533a))
    ensures Compress(start, block) == StateOf(Vars(0x248d6a61, 0xd20638b8, 0xe5c02693, 0x0c3e6039,
                                                   0xa33ce459, 0x64ff2167, 0xf6ecedd4, 0x19db06c1))
  {
    hide IsWord, AreVars, Compress;
    NoRounds(start, block, Vars(0x85e655d6, 0x417a1795, 0x3363376a, 0x624cde5c,
                                0x76e09589, 0xcac5f811, 0xcc4b32c1, 0xf20e533a));
    SecondRounds0(start, block);
    SecondRounds1(start, block);
    SecondRounds2(start, block);
    SecondRounds3(start, block);
    SecondRounds4(start, block);
    SecondRounds5(start, block);
    SecondRounds6(start, block);
    SecondRounds7(start, block);
    Added(start, block, Vars(0x85e655d6, 0x417a1795, 0x3363376a, 0x624cde5c,
                             0x76e09589, 0xcac5f811, 0xcc4b32c1, 0xf20e533a),
          Vars(0x9ea7148b, 0x908c2123, 0xb25cef29, 0xa9f181dd, 0x2c5c4ed0, 0x9a392956, 0x2aa1bb13, 0x27ccb387),
          Vars(0x248d6a61, 0xd20638b8, 0xe5c02693, 0x0c3e6039, 0xa33ce459, 0x64ff2167, 0xf6ecedd4, 0x19db06c1));
  }

  // ------------------------------------------------------------ the padded messages

  lemma BlockWordIs(block: Bytes, t: nat, w: bv32)
    requires |block| == 64 && t < 16
    requires block[4 * t] == Of(B3(w)) && block[4 * t + 1] == Of(B2(w))
    requires block[4 * t + 2] == Of(B1(w)) && block[4 * t + 3] == Of(B0(w))
    ensures IsWord(block, t, w)
  {
    hide B0, B1, B2, B3, Of;
  }

  lemma SmallLength(v: nat)
    requires v < 0x1_0000
    ensures BigEndian(v, 8) == [0, 0, 0, 0, 0, 0, v / 256, v % 256]
  {
    BigEndianSplit(v);
    BigEndianWord(0);
    BigEndianWord(v);
    hide BigEndian;
    assert Reduce(v / TWO32) == 0 && Reduce(v) == v;
  }

  const ABC: Bytes := [0x61, 0x62, 0x63]

  lemma AbcPadded()
    ensures |Pad(ABC)| == 64 && AbcBlock(Pad(ABC))
  {
    var block := Pad(ABC);
    SmallLength(24);
    assert ZeroCount(3) == 52;
    assert block[0] == 0x61 && block[1] == 0x62 && block[2] == 0x63 && block[3] == 0x80 && block[63] == 24;
    assert forall i :: 4 <= i < 63 ==> block[i] == 0;
    hide Pad, IsWord, BigEndian, AbcBlock;
    OfAbc(block);
  }

  lemma OfAbc(block: Bytes)
    requires |block| == 64 && block[0] == 0x61 && block[1] == 0x62 && block[2] == 0x63 && block[3] == 0x80
    requires (forall i :: 4 <= i < 63 ==> block[i] == 0) && block[63] == 24
    ensures AbcBlock(block)
  {
    hide IsWord;
    BlockWordIs(block, 0, 0x61626380);
    BlockWordIs(block, 1, 0x00000000);
    BlockWordIs(block, 2, 0x00000000);
    BlockWordIs(block, 3, 0x00000000);
    BlockWordIs(block, 4, 0x00000000);
    BlockWordIs(block, 5, 0x00000000);
    BlockWordIs(block, 6, 0x00000000);
    BlockWordIs(block, 7, 0x00000000);
    BlockWordIs(block, 8, 0x00000000);
    BlockWordIs(block, 9, 0x00000000);
    BlockWordIs(block, 10, 0x00000000);
    BlockWordIs(block, 11, 0x00000000);
    BlockWordIs(block, 12, 0x00000000);
    BlockWordIs(block, 13, 0x00000000);
    BlockWordIs(block, 14, 0x00000000);
    BlockWordIs(block, 15, 0x00000018);
  }

  /** The two-block message "abcdbcdecdef...nopq": fourteen groups of four letters in a row. */
  function Letters(): Bytes { seq(56, i requires 0 <= i < 56 => 0x61 + i / 4 + i % 4) }

  lemma LettersPadded()
    ensures |Pad(Letters())| == 128
    ensures FirstBlock(Pad(Letters())[..64]) && SecondBlock(Pad(Letters())[64..])
  {
    var padded := Pad(Letters());
    SmallLength(448);
    assert ZeroCount(56) == 63;
    assert forall i :: 0 <= i < 56 ==> padded[i] == 0x61 + i / 4 + i % 4;
    assert padded[56] == 0x80 && padded[126] == 1 && padded[127] == 192;
    assert forall i :: 57 <= i < 126 ==> padded[i] == 0;
    hide Pad, IsWord, BigEndian, Letters;
    FirstOfLetters(padded);
    SecondOfLetters(padded);
  }

  lemma FirstOfLetters(padded: Bytes)
    requires |padded| == 128 && forall i :: 0 <= i < 56 ==> padded[i] == 0x61 + i / 4 + i % 4
    requires padded[56] == 0x80 && forall i :: 57 <= i < 126 ==> padded[i] == 0
    ensures FirstBlock(padded[..64])
  {
    hide IsWord;
    var block := padded[..64];
    BlockWordIs(block, 0, 0x61626364);
    BlockWordIs(block, 1, 0x62636465);
    BlockWordIs(block, 2, 0x63646566);
    BlockWordIs(block, 3, 0x64656667);
    BlockWordIs(block, 4, 0x65666768);
    BlockWordIs(block, 5, 0x66676869);
    BlockWordIs(block, 6, 0x6768696a);
    BlockWordIs(block, 7, 0x68696a6b);
    BlockWordIs(block, 8, 0x696a6b6c);
    BlockWordIs(block, 9, 0x6a6b6c6d);
    BlockWordIs(block, 10, 0x6b6c6d6e);
    BlockWordIs(block, 11, 0x6c6d6e6f);
    BlockWordIs(block, 12, 0x6d6e6f70);
    BlockWordIs(block, 13, 0x6e6f7071);
    BlockWordIs(block, 14, 0x80000000);
    BlockWordIs(block, 15, 0x00000000);
  }

  lemma SecondOfLetters(padded: Bytes)
    requires |padded| == 128 && (forall i :: 57 <= i < 126 ==> padded[i] == 0) && padded[126] == 1 && padded[127] == 192
    ensures SecondBlock(padded[64..])
  {
    hide IsWord;
    var block := padded[64..];
    BlockWordIs(block, 0, 0x00000000);
    BlockWordIs(block, 1, 0x00000000);
    BlockWordIs(block, 2, 0x00000000);
    BlockWordIs(block, 3, 0x00000000);
    BlockWordIs(block, 4, 0x00000000);
    BlockWordIs(block, 5, 0x00000000);
    BlockWordIs(block, 6, 0x00000000);
    BlockWordIs(block, 7, 0x00000000);
    BlockWordIs(block, 8, 0x00000000);
    BlockWordIs(block, 9, 0x00000000);
    BlockWordIs(block, 10, 0x00000000);
    BlockWordIs(block, 11, 0x00000000);
    BlockWordIs(block, 12, 0x00000000);
    BlockWordIs(block, 13, 0x00000000);
    BlockWordIs(block, 14, 0x00000000);
    BlockWordIs(block, 15, 0x000001c0);
  }

  // ------------------------------------------------------------ the digests

  /** Eight upper-case digits. */
  function Digits(x: bv32): string
  {
    var b3, b2, b1, b0 := Of(B3(x)), Of(B2(x)), Of(B1(x)), Of(B0(x));
    [Hex.UPPER[b3 / 16], Hex.UPPER[b3 % 16], Hex.UPPER[b2 / 16], Hex.UPPER[b2 % 16],
     Hex.UPPER[b1 / 16], Hex.UPPER[b1 % 16], Hex.UPPER[b0 / 16], Hex.UPPER[b0 % 16]]
  }

  lemma PushedBytes(high: nat, low: Byte, n: nat)
    ensures BigEndian(Push(high, low), n + 1) == BigEndian(high, n) + [low]
  {
    assert Push(high, low) / 256 == high && Push(high, low) % 256 == low as int;
  }

  lemma BytesOfNumber(b3: Byte, b2: Byte, b1: Byte, b0: Byte)
    ensures BigEndian(Number(b3, b2, b1, b0), 4) == [b3, b2, b1, b0]
  {
    NumberIsPushed(b3, b2, b1, b0);
    assert BigEndian(b3 as int, 1) == BigEndian(b3 as int / 256, 0) + [b3] == [b3];
    hide BigEndian, Number, Push;
    PushedBytes(b3 as int, b2, 1);
    PushedBytes(Push(b3 as int, b2), b1, 2);
    PushedBytes(Push(Push(b3 as int, b2), b1), b0, 3);
  }

  lemma FourBytes(b3: Byte, b2: Byte, b1: Byte, b0: Byte)
    ensures Hex.Encode([b3, b2, b1, b0])
            == [Hex.UPPER[b3 / 16], Hex.UPPER[b3 % 16], Hex.UPPER[b2 / 16], Hex.UPPER[b2 % 16],
                Hex.UPPER[b1 / 16], Hex.UPPER[b1 % 16], Hex.UPPER[b0 / 16], Hex.UPPER[b0 % 16]]
  {
    Hex.EncodeByte(b3);
    Hex.EncodeByte(b2);
    Hex.EncodeByte(b1);
    Hex.EncodeByte(b0);
    Hex.EncodeAppend([b3], [b2]);
    Hex.EncodeAppend([b1], [b0]);
    Hex.EncodeAppend([b3, b2], [b1, b0]);
    hide Hex.Encode;
    assert [b3] + [b2] == [b3, b2] && [b1] + [b0] == [b1, b0] && [b3, b2] + [b1, b0] == [b3, b2, b1, b0];
  }

  lemma PrintedWord(x: bv32)
    ensures Hex.Encode(BigEndian(Value(x), 4)) == Digits(x)
  {
    BytesOfNumber(Of(B3(x)), Of(B2(x)), Of(B1(x)), Of(B0(x)));
    FourBytes(Of(B3(x)), Of(B2(x)), Of(B1(x)), Of(B0(x)));
    hide BigEndian, Hex.Encode, Of, B0, B1, B2, B3, Number;
  }

  lemma SerializeOne(w: Word, rest: seq<Word>)
    ensures Serialize([w] + rest) == BigEndian(w, 4) + Serialize(rest)
  {
    assert ([w] + rest)[1..] == rest;
  }

  lemma SerializeState(s: State)
    ensures Serialize(Words(s))
            == BigEndian(s.a, 4) + (BigEndian(s.b, 4) + (BigEndian(s.c, 4) + (BigEndian(s.d, 4)
               + (BigEndian(s.e, 4) + (BigEndian(s.f, 4) + (BigEndian(s.g, 4) + (BigEndian(s.h, 4)
               + Serialize([]))))))))
  {
    hide BigEndian, Serialize;
    SerializeOne(s.h, []);
    SerializeOne(s.g, [s.h]);
    SerializeOne(s.f, [s.g, s.h]);
    SerializeOne(s.e, [s.f, s.g, s.h]);
    SerializeOne(s.d, [s.e, s.f, s.g, s.h]);
    SerializeOne(s.c, [s.d, s.e, s.f, s.g, s.h]);
    SerializeOne(s.b, [s.c, s.d, s.e, s.f, s.g, s.h]);
    SerializeOne(s.a, [s.b, s.c, s.d, s.e, s.f, s.g, s.h]);
    assert [s.h] + [] == [s.h] && [s.g] + [s.h] == [s.g, s.h] && [s.f] + [s.g, s.h] == [s.f, s.g, s.h];
    assert [s.e] + [s.f, s.g, s.h] == [s.e, s.f, s.g, s.h];
    assert [s.d] + [s.e, s.f, s.g, s.h] == [s.d, s.e, s.f, s.g, s.h];
    assert [s.c] + [s.d, s.e, s.f, s.g, s.h] == [s.c, s.d, s.e, s.f, s.g, s.h];
    assert [s.b] + [s.c, s.d, s.e, s.f, s.g, s.h] == [s.b, s.c, s.d, s.e, s.f, s.g, s.h];
    assert [s.a] + [s.b, s.c, s.d, s.e, s.f, s.g, s.h] == [s.a, s.b, s.c, s.d, s.e, s.f, s.g, s.h];
  }

  lemma PrintedFirst(x: bv32, rest: Bytes)
    ensures Hex.Encode(BigEndian(Value(x), 4) + rest) == Digits(x) + Hex.Encode(rest)
  {
    hide Hex.Encode, Digits, Value, BigEndian;
    PrintedWord(x);
    Hex.EncodeAppend(BigEndian(Value(x), 4), rest);
  }

  /** A digest of these words, printed. */
  lemma Printed(message: Bytes, v: Vars)
    requires Final(message) == StateOf(v)
    ensures Hex.Encode(Digest(message))
            == Digits(v.a) + (Digits(v.b) + (Digits(v.c) + (Digits(v.d)
               + (Digits(v.e) + (Digits(v.f) + (Digits(v.g) + (Digits(v.h) + "")))))))
  {
    SerializeState(StateOf(v));
    assert Hex.Encode(Serialize([])) == "";
    hide Final, Hex.Encode, Digits, Serialize, Value, BigEndian, Words;
    var r7 := BigEndian(Value(v.h), 4) + Serialize([]);
    var r6 := BigEndian(Value(v.g), 4) + r7;
    var r5 := BigEndian(Value(v.f), 4) + r6;
    var r4 := BigEndian(Value(v.e), 4) + r5;
    var r3 := BigEndian(Value(v.d), 4) + r4;
    var r2 := BigEndian(Value(v.c), 4) + r3;
    var r1 := BigEndian(Value(v.b), 4) + r2;
    PrintedFirst(v.h, Serialize([]));
    PrintedFirst(v.g, r7);
    PrintedFirst(v.f, r6);
    PrintedFirst(v.e, r5);
    PrintedFirst(v.d, r4);
    PrintedFirst(v.c, r3);
    PrintedFirst(v.b, r2);
    PrintedFirst(v.a, r1);
  }

  lemma AbcFinal()
    ensures Final(ABC) == StateOf(Vars(0xba7816bf, 0x8f01cfea, 0x414140de, 0x5dae2223,
                                       0xb00361a3, 0x96177a9c, 0xb410ff61, 0xf20015ad))
  {
    hide Compress, Pad, AbcBlock, StateOf;
    AbcPadded();
    StartIs();
    AbcCompressed(H0, Pad(ABC));
    OneBlock(Pad(ABC));
  }

  lemma OneBlock(block: Bytes)
    requires |block| == 64
    ensures HashBlocks(H0, block) == Compress(H0, block)
  {
    hide Compress;
    assert [] + block == block && HashBlocks(H0, []) == H0;
    HashOneMore(H0, [], block);
  }

  lemma TwoBlocks(padded: Bytes)
    requires |padded| == 128
    ensures HashBlocks(H0, padded) == Compress(Compress(H0, padded[..64]), padded[64..])
  {
    hide Compress;
    OneBlock(padded[..64]);
    assert padded[..64] + padded[64..] == padded;
    HashOneMore(H0, padded[..64], padded[64..]);
  }

  lemma LettersFinal()
    ensures Final(Letters())
            == StateOf(Vars(0x248d6a61, 0xd20638b8, 0xe5c02693, 0x0c3e6039,
                            0xa33ce459, 0x64ff2167, 0xf6ecedd4, 0x19db06c1))
  {
    hide Compress, Pad, FirstBlock, SecondBlock, StateOf, Letters;
    LettersPadded();
    StartIs();
    var padded := Pad(Letters());
    FirstCompressed(H0, padded[..64]);
    SecondCompressed(Compress(H0, padded[..64]), padded[64..]);
    TwoBlocks(padded);
  }

  lemma AbcDigits0()
    ensures Digits(0xba7816bf) == "BA7816BF"
  {
  }

  lemma AbcDigits1()
    ensures Digits(0x8f01cfea) == "8F01CFEA"
  {
  }

  lemma AbcDigits2()
    ensures Digits(0x414140de) == "414140DE"
  {
  }

  lemma AbcDigits3()
    ensures Digits(0x5dae2223) == "5DAE2223"
  {
  }

  lemma AbcDigits4()
    ensures Digits(0xb00361a3) == "B00361A3"
  {
  }

  lemma AbcDigits5()
    ensures Digits(0x96177a9c) == "96177A9C"
  {
  }

  lemma AbcDigits6()
    ensures Digits(0xb410ff61) == "B410FF61"
  {
  }

  lemma AbcDigits7()
    ensures Digits(0xf20015ad) == "F20015AD"
  {
  }

  /** The SHA-256 digest of "abc". */
  lemma AbcDigest()
    ensures Hex.Encode(Digest(ABC))
            == "BA7816BF" + ("8F01CFEA" + ("414140DE" + ("5DAE2223"
               + ("B00361A3" + ("96177A9C" + ("B410FF61" + "F20015AD"))))))
  {
    hide Final, Hex.Encode, Digits, StateOf, Digest;
    AbcFinal();
    AbcDigits0();
    AbcDigits1();
    AbcDigits2();
    AbcDigits3();
    AbcDigits4();
    AbcDigits5();
    AbcDigits6();
    AbcDigits7();
    Printed(ABC, Vars(0xba7816bf, 0x8f01cfea, 0x414140de, 0x5dae2223, 0xb00361a3, 0x96177a9c, 0xb410ff61, 0xf20015ad));
    assert "F20015AD" + "" == "F20015AD";
  }

  lemma LettersDigits0()
    ensures Digits(0x248d6a61) == "248D6A61"
  {
  }

  lemma LettersDigits1()
    ensures Digits(0xd20638b8) == "D20638B8"
  {
  }

  lemma LettersDigits2()
    ensures Digits(0xe5c02693) == "E5C02693"
  {
  }

  lemma LettersDigits3()
    ensures Digits(0x0c3e6039) == "0C3E6039"
  {
  }

  lemma LettersDigits4()
    ensures Digits(0xa33ce459) == "A33CE459"
  {
  }

  lemma LettersDigits5()
    ensures Digits(0x64ff2167) == "64FF2167"
  {
  }

  lemma LettersDigits6()
    ensures Digits(0xf6ecedd4) == "F6ECEDD4"
  {
  }

  lemma LettersDigits7()
    ensures Digits(0x19db06c1) == "19DB06C1"
  {
  }

  /** The SHA-256 digest of the published message of two blocks. */
  lemma LettersDigest()
    ensures Hex.Encode(Digest(Letters()))
            == "248D6A61" + ("D20638B8" + ("E5C02693" + ("0C3E6039"
               + ("A33CE459" + ("64FF2167" + ("F6ECEDD4" + "19DB06C1"))))))
  {
    hide Final, Hex.Encode, Digits, StateOf, Digest;
    LettersFinal();
    LettersDigits0();
    LettersDigits1();
    LettersDigits2();
    LettersDigits3();
    LettersDigits4();
    LettersDigits5();
    LettersDigits6();
    LettersDigits7();
    Printed(Letters(), Vars(0x248d6a61, 0xd20638b8, 0xe5c02693, 0x0c3e6039,
                            0xa33ce459, 0x64ff2167, 0xf6ecedd4, 0x19db06c1));
    assert "19DB06C1" + "" == "19DB06C1";
  }
}
