/** The example of FIPS 180-4 for SHA-256: the digest of "abc", worked out from the specification. It fixes the
    rotations, the functions and the constants of all rounds. */
module Sha256Example {
  import opened Blocks
  import opened Sha256Spec
  import opened Words

  const ABC: seq<bv8> := [0x61, 0x62, 0x63]

  /** The one block of the message after padding. */
  ghost const BLOCK: seq<bv8> := ABC + [0x80] + Zeros(52) + BigEndianBytes(24, 8)

  lemma PaddedAbc()
    ensures Padded(64, ABC, LengthField(ABC)) == BLOCK
  {
    hide Octet;
    GapShort(64, 3, 8);
  }

  // ---------------------------------------------------------------------------------------
  // The schedule
  // ---------------------------------------------------------------------------------------

  /** The words of the schedule. */
  ghost function Listed(): (words: seq<bv32>)
    ensures |words| == 64
  {
    seq(64, t requires 0 <= t => Schedule(BLOCK, t))
  }

  lemma NextWord(t: nat, w2: bv32, w7: bv32, w15: bv32, w16: bv32, w: bv32)
    requires 16 <= t < 64 && Listed()[t - 2] == w2 && Listed()[t - 7] == w7
    requires Listed()[t - 15] == w15 && Listed()[t - 16] == w16
    requires Add(Add(Add(Sigma1(w2), w7), Sigma0(w15)), w16) == w
    ensures Listed()[t] == w
  {
    hide Add, Sigma0, Sigma1;
  }

  lemma FirstWord()
    ensures Listed()[0] == 0x61626380
  {
    assert BlockWord(BLOCK, 0) == 0x61626380;
  }

  lemma ZeroBytes(i: nat)
    requires 4 <= i < 63
    ensures BLOCK[i] == 0
  {
    if i >= 56 {
      SmallOctet(24, 63 - i);
    }
  }

  lemma LastBytes()
    ensures BLOCK[63] == 24 && forall i: nat :: 4 <= i < 63 ==> BLOCK[i] == 0
  {
    SmallOctet(24, 0);
    forall i: nat | 4 <= i < 63 ensures BLOCK[i] == 0 {
      ZeroBytes(i);
    }
  }

  lemma ZeroWord(t: nat)
    requires 1 <= t < 15
    ensures Listed()[t] == 0
  {
    LastBytes();
    assert BlockWord(BLOCK, t) == 0;
  }

  lemma LastWord()
    ensures Listed()[15] == 24
  {
    LastBytes();
    assert BlockWord(BLOCK, 15) == 24;
  }

  lemma FirstWords()
    ensures Listed()[0] == 0x61626380 && Listed()[15] == 24
    ensures forall t: nat :: 1 <= t < 15 ==> Listed()[t] == 0
  {
    hide Listed;
    FirstWord();
    LastWord();
    forall t: nat | 1 <= t < 15 ensures Listed()[t] == 0 {
      ZeroWord(t);
    }
  }

  lemma WordsFrom0()
    ensures Listed()[0] == 0x61626380 && Listed()[1] == 0x00000000 && Listed()[2] == 0x00000000
    ensures Listed()[3] == 0x00000000 && Listed()[4] == 0x00000000 && Listed()[5] == 0x00000000
    ensures Listed()[6] == 0x00000000 && Listed()[7] == 0x00000000
  {
    hide Listed;
    FirstWords();
  }

  lemma WordsFrom8()
    ensures Listed()[8] == 0x00000000 && Listed()[9] == 0x00000000 && Listed()[10] == 0x00000000
    ensures Listed()[11] == 0x00000000 && Listed()[12] == 0x00000000 && Listed()[13] == 0x00000000
    ensures Listed()[14] == 0x00000000 && Listed()[15] == 0x00000018
  {
    hide Listed;
    FirstWords();
  }

  lemma WordsFrom16()
    ensures Listed()[16] == 0x61626380 && Listed()[17] == 0x000f0000 && Listed()[18] == 0x7da86405
    ensures Listed()[19] == 0x600003c6 && Listed()[20] == 0x3e9d7b78 && Listed()[21] == 0x0183fc00
    ensures Listed()[22] == 0x12dcbfdb && Listed()[23] == 0xe2e2c38e
  {
    hide Listed;
    FirstWords();
    NextWord(16, 0x00000000, 0x00000000, 0x00000000, 0x61626380, 0x61626380);
    NextWord(17, 0x00000018, 0x00000000, 0x00000000, 0x00000000, 0x000f0000);
    NextWord(18, 0x61626380, 0x00000000, 0x00000000, 0x00000000, 0x7da86405);
    NextWord(19, 0x000f0000, 0x00000000, 0x00000000, 0x00000000, 0x600003c6);
    NextWord(20, 0x7da86405, 0x00000000, 0x00000000, 0x00000000, 0x3e9d7b78);
    NextWord(21, 0x600003c6, 0x00000000, 0x00000000, 0x00000000, 0x0183fc00);
    NextWord(22, 0x3e9d7b78, 0x00000018, 0x00000000, 0x00000000, 0x12dcbfdb);
    NextWord(23, 0x0183fc00, 0x61626380, 0x00000000, 0x00000000, 0xe2e2c38e);
  }

  lemma WordsFrom24()
    ensures Listed()[24] == 0xc8215c1a && Listed()[25] == 0xb73679a2 && Listed()[26] == 0xe5bc3909
    ensures Listed()[27] == 0x32663c5b && Listed()[28] == 0x9d209d67 && Listed()[29] == 0xec8726cb
    ensures Listed()[30] == 0x702138a4 && Listed()[31] == 0xd3b7973b
  {
    hide Listed;
    FirstWords();
    WordsFrom16();
    NextWord(24, 0x12dcbfdb, 0x000f0000, 0x00000000, 0x00000000, 0xc8215c1a);
    NextWord(25, 0xe2e2c38e, 0x7da86405, 0x00000000, 0x00000000, 0xb73679a2);
    NextWord(26, 0xc8215c1a, 0x600003c6, 0x00000000, 0x00000000, 0xe5bc3909);
    NextWord(27, 0xb73679a2, 0x3e9d7b78, 0x00000000, 0x00000000, 0x32663c5b);
    NextWord(28, 0xe5bc3909, 0x0183fc00, 0x00000000, 0x00000000, 0x9d209d67);
    NextWord(29, 0x32663c5b, 0x12dcbfdb, 0x00000000, 0x00000000, 0xec8726cb);
    NextWord(30, 0x9d209d67, 0xe2e2c38e, 0x00000018, 0x00000000, 0x702138a4);
    NextWord(31, 0xec8726cb, 0xc8215c1a, 0x61626380, 0x00000018, 0xd3b7973b);
  }

  lemma WordsFrom32()
    ensures Listed()[32] == 0x93f5997f && Listed()[33] == 0x3b68ba73 && Listed()[34] == 0xaff4ffc1
    ensures Listed()[35] == 0xf10a5c62 && Listed()[36] == 0x0a8b3996 && Listed()[37] == 0x72af830a
    ensures Listed()[38] == 0x9409e33e && Listed()[39] == 0x24641522
  {
    hide Listed;
    WordsFrom16();
    WordsFrom24();
    NextWord(32, 0x702138a4, 0xb73679a2, 0x000f0000, 0x61626380, 0x93f5997f);
    NextWord(33, 0xd3b7973b, 0xe5bc3909, 0x7da86405, 0x000f0000, 0x3b68ba73);
    NextWord(34, 0x93f5997f, 0x32663c5b, 0x600003c6, 0x7da86405, 0xaff4ffc1);
    NextWord(35, 0x3b68ba73, 0x9d209d67, 0x3e9d7b78, 0x600003c6, 0xf10a5c62);
    NextWord(36, 0xaff4ffc1, 0xec8726cb, 0x0183fc00, 0x3e9d7b78, 0x0a8b3996);
    NextWord(37, 0xf10a5c62, 0x702138a4, 0x12dcbfdb, 0x0183fc00, 0x72af830a);
    NextWord(38, 0x0a8b3996, 0xd3b7973b, 0xe2e2c38e, 0x12dcbfdb, 0x9409e33e);
    NextWord(39, 0x72af830a, 0x93f5997f, 0xc8215c1a, 0xe2e2c38e, 0x24641522);
  }

  lemma WordsFrom40()
    ensures Listed()[40] == 0x9f47bf94 && Listed()[41] == 0xf0a64f5a && Listed()[42] == 0x3e246a79
    ensures Listed()[43] == 0x27333ba3 && Listed()[44] == 0x0c4763f2 && Listed()[45] == 0x840abf27
    ensures Listed()[46] == 0x7a290d5d && Listed()[47] == 0x065c43da
  {
    hide Listed;
    WordsFrom24();
    WordsFrom32();
    NextWord(40, 0x9409e33e, 0x3b68ba73, 0xb73679a2, 0xc8215c1a, 0x9f47bf94);
    NextWord(41, 0x24641522, 0xaff4ffc1, 0xe5bc3909, 0xb73679a2, 0xf0a64f5a);
    NextWord(42, 0x9f47bf94, 0xf10a5c62, 0x32663c5b, 0xe5bc3909, 0x3e246a79);
    NextWord(43, 0xf0a64f5a, 0x0a8b3996, 0x9d209d67, 0x32663c5b, 0x27333ba3);
    NextWord(44, 0x3e246a79, 0x72af830a, 0xec8726cb, 0x9d209d67, 0x0c4763f2);
    NextWord(45, 0x27333ba3, 0x9409e33e, 0x702138a4, 0xec8726cb, 0x840abf27);
    NextWord(46, 0x0c4763f2, 0x24641522, 0xd3b7973b, 0x702138a4, 0x7a290d5d);
    NextWord(47, 0x840abf27, 0x9f47bf94, 0x93f5997f, 0xd3b7973b, 0x065c43da);
  }

  lemma WordsFrom48()
    ensures Listed()[48] == 0xfb3e89cb && Listed()[49] == 0xcc7617db && Listed()[50] == 0xb9e66c34
    ensures Listed()[51] == 0xa9993667 && Listed()[52] == 0x84badedd && Listed()[53] == 0xc21462bc
    ensures Listed()[54] == 0x1487472c && Listed()[55] == 0xb20f7a99
  {
    hide Listed;
    WordsFrom32();
    WordsFrom40();
    NextWord(48, 0x7a290d5d, 0xf0a64f5a, 0x3b68ba73, 0x93f5997f, 0xfb3e89cb);
    NextWord(49, 0x065c43da, 0x3e246a79, 0xaff4ffc1, 0x3b68ba73, 0xcc7617db);
    NextWord(50, 0xfb3e89cb, 0x27333ba3, 0xf10a5c62, 0xaff4ffc1, 0xb9e66c34);
    NextWord(51, 0xcc7617db, 0x0c4763f2, 0x0a8b3996, 0xf10a5c62, 0xa9993667);
    NextWord(52, 0xb9e66c34, 0x840abf27, 0x72af830a, 0x0a8b3996, 0x84badedd);
    NextWord(53, 0xa9993667, 0x7a290d5d, 0x9409e33e, 0x72af830a, 0xc21462bc);
    NextWord(54, 0x84badedd, 0x065c43da, 0x24641522, 0x9409e33e, 0x1487472c);
    NextWord(55, 0xc21462bc, 0xfb3e89cb, 0x9f47bf94, 0x24641522, 0xb20f7a99);
  }

  lemma WordsFrom56()
    ensures Listed()[56] == 0xef57b9cd && Listed()[57] == 0xebe6b238 && Listed()[58] == 0x9fe3095e
    ensures Listed()[59] == 0x78bc8d4b && Listed()[60] == 0xa43fcf15 && Listed()[61] == 0x668b2ff8
    ensures Listed()[62] == 0xeeaba2cc && Listed()[63] == 0x12b1edeb
  {
    hide Listed;
    WordsFrom40();
    WordsFrom48();
    NextWord(56, 0x1487472c, 0xcc7617db, 0xf0a64f5a, 0x9f47bf94, 0xef57b9cd);
    NextWord(57, 0xb20f7a99, 0xb9e66c34, 0x3e246a79, 0xf0a64f5a, 0xebe6b238);
    NextWord(58, 0xef57b9cd, 0xa9993667, 0x27333ba3, 0x3e246a79, 0x9fe3095e);
    NextWord(59, 0xebe6b238, 0x84badedd, 0x0c4763f2, 0x27333ba3, 0x78bc8d4b);
    NextWord(60, 0x9fe3095e, 0xc21462bc, 0x840abf27, 0x0c4763f2, 0xa43fcf15);
    NextWord(61, 0x78bc8d4b, 0x1487472c, 0x7a290d5d, 0x840abf27, 0x668b2ff8);
    NextWord(62, 0xa43fcf15, 0xb20f7a99, 0x065c43da, 0x7a290d5d, 0xeeaba2cc);
    NextWord(63, 0x668b2ff8, 0xef57b9cd, 0xfb3e89cb, 0x065c43da, 0x12b1edeb);
  }

  // ---------------------------------------------------------------------------------------
  // The rounds
  // ---------------------------------------------------------------------------------------

  /** A round makes the first working variable `a1` and the fifth `e1`. */
  predicate Makes(a: bv32, b: bv32, c: bv32, d: bv32, e: bv32, f: bv32, g: bv32, h: bv32,
                  k: bv32, w: bv32, a1: bv32, e1: bv32)
  {
    var t1 := Add(Add(Add(Add(h, Sum1(e)), Ch(e, f, g)), k), w);
    a1 == Add(t1, Add(Sum0(a), Maj(a, b, c))) && e1 == Add(d, t1)
  }

  lemma Step(t: nat, a: bv32, b: bv32, c: bv32, d: bv32, e: bv32, f: bv32, g: bv32, h: bv32,
             k: bv32, w: bv32, a1: bv32, e1: bv32)
    requires t < 64 && Rounds(INITIAL, BLOCK, t) == Regs(a, b, c, d, e, f, g, h)
    requires K(t) == k && Listed()[t] == w && Makes(a, b, c, d, e, f, g, h, k, w, a1, e1)
    ensures Rounds(INITIAL, BLOCK, t + 1) == Regs(a1, a, b, c, e1, e, f, g)
  {
    hide K, Schedule, Add, Sum0, Sum1, Ch, Maj;
  }

  lemma RoundsTo0()
    ensures Rounds(INITIAL, BLOCK, 0) ==
      Regs(0x6a09e667, 0xbb67ae85, 0x3c6ef372, 0xa54ff53a, 0x510e527f, 0x9b05688c, 0x1f83d9ab, 0x5be0cd19)
  {
  }

  lemma ConstantsFrom0()
    ensures K(0) == 0x428a2f98 && K(1) == 0x71374491 && K(2) == 0xb5c0fbcf
    ensures K(3) == 0xe9b5dba5 && K(4) == 0x3956c25b && K(5) == 0x59f111f1
    ensures K(6) == 0x923f82a4 && K(7) == 0xab1c5ed5
  {
  }

  lemma RoundsTo8()
    ensures Rounds(INITIAL, BLOCK, 8) ==
      Regs(0x85a07b5f, 0xe5030380, 0x2b4209f5, 0x04409a6a, 0x0c657a79, 0x9b27a401, 0x714260ad, 0x43ada245)
  {
    hide Rounds, Listed, K;
    RoundsTo0();
    ConstantsFrom0();
    WordsFrom0();
    Step(0, 0x6a09e667, 0xbb67ae85, 0x3c6ef372, 0xa54ff53a, 0x510e527f, 0x9b05688c, 0x1f83d9ab, 0x5be0cd19, 0x428a2f98,
      0x61626380, 0x5d6aebcd, 0xfa2a4622);
    Step(1, 0x5d6aebcd, 0x6a09e667, 0xbb67ae85, 0x3c6ef372, 0xfa2a4622, 0x510e527f, 0x9b05688c, 0x1f83d9ab, 0x71374491,
      0x00000000, 0x5a6ad9ad, 0x78ce7989);
    Step(2, 0x5a6ad9ad, 0x5d6aebcd, 0x6a09e667, 0xbb67ae85, 0x78ce7989, 0xfa2a4622, 0x510e527f, 0x9b05688c, 0xb5c0fbcf,
      0x00000000, 0xc8c347a7, 0xf92939eb);
    Step(3, 0xc8c347a7, 0x5a6ad9ad, 0x5d6aebcd, 0x6a09e667, 0xf92939eb, 0x78ce7989, 0xfa2a4622, 0x510e527f, 0xe9b5dba5,
      0x00000000, 0xd550f666, 0x24e00850);
    Step(4, 0xd550f666, 0xc8c347a7, 0x5a6ad9ad, 0x5d6aebcd, 0x24e00850, 0xf92939eb, 0x78ce7989, 0xfa2a4622, 0x3956c25b,
      0x00000000, 0x04409a6a, 0x43ada245);
    Step(5, 0x04409a6a, 0xd550f666, 0xc8c347a7, 0x5a6ad9ad, 0x43ada245, 0x24e00850, 0xf92939eb, 0x78ce7989, 0x59f111f1,
      0x00000000, 0x2b4209f5, 0x714260ad);
    Step(6, 0x2b4209f5, 0x04409a6a, 0xd550f666, 0xc8c347a7, 0x714260ad, 0x43ada245, 0x24e00850, 0xf92939eb, 0x923f82a4,
      0x00000000, 0xe5030380, 0x9b27a401);
    Step(7, 0xe5030380, 0x2b4209f5, 0x04409a6a, 0xd550f666, 0x9b27a401, 0x714260ad, 0x43ada245, 0x24e00850, 0xab1c5ed5,
      0x00000000, 0x85a07b5f, 0x0c657a79);
  }

  lemma ConstantsFrom8()
    ensures K(8) == 0xd807aa98 && K(9) == 0x12835b01 && K(10) == 0x243185be
    ensures K(11) == 0x550c7dc3 && K(12) == 0x72be5d74 && K(13) == 0x80deb1fe
    ensures K(14) == 0x9bdc06a7 && K(15) == 0xc19bf174
  {
  }

  lemma RoundsTo16()
    ensures Rounds(INITIAL, BLOCK, 16) ==
      Regs(0xb0fa238e, 0xc0645fde, 0xd932eb16, 0x87912990, 0x07590dcd, 0x0b92f20c, 0x745a48de, 0x1e578218)
  {
    hide Rounds, Listed, K;
    RoundsTo8();
    ConstantsFrom8();
    WordsFrom8();
    Step(8, 0x85a07b5f, 0xe5030380, 0x2b4209f5, 0x04409a6a, 0x0c657a79, 0x9b27a401, 0x714260ad, 0x43ada245, 0xd807aa98,
      0x00000000, 0x8e04ecb9, 0x32ca2d8c);
    Step(9, 0x8e04ecb9, 0x85a07b5f, 0xe5030380, 0x2b4209f5, 0x32ca2d8c, 0x0c657a79, 0x9b27a401, 0x714260ad, 0x12835b01,
      0x00000000, 0x8c87346b, 0x1cc92596);
    Step(10, 0x8c87346b, 0x8e04ecb9, 0x85a07b5f, 0xe5030380, 0x1cc92596, 0x32ca2d8c, 0x0c657a79, 0x9b27a401,
      0x243185be, 0x00000000, 0x4798a3f4, 0x436b23e8);
    Step(11, 0x4798a3f4, 0x8c87346b, 0x8e04ecb9, 0x85a07b5f, 0x436b23e8, 0x1cc92596, 0x32ca2d8c, 0x0c657a79,
      0x550c7dc3, 0x00000000, 0xf71fc5a9, 0x816fd6e9);
    Step(12, 0xf71fc5a9, 0x4798a3f4, 0x8c87346b, 0x8e04ecb9, 0x816fd6e9, 0x436b23e8, 0x1cc92596, 0x32ca2d8c,
      0x72be5d74, 0x00000000, 0x87912990, 0x1e578218);
    Step(13, 0x87912990, 0xf71fc5a9, 0x4798a3f4, 0x8c87346b, 0x1e578218, 0x816fd6e9, 0x436b23e8, 0x1cc92596,
      0x80deb1fe, 0x00000000, 0xd932eb16, 0x745a48de);
    Step(14, 0xd932eb16, 0x87912990, 0xf71fc5a9, 0x4798a3f4, 0x745a48de, 0x1e578218, 0x816fd6e9, 0x436b23e8,
      0x9bdc06a7, 0x00000000, 0xc0645fde, 0x0b92f20c);
    Step(15, 0xc0645fde, 0xd932eb16, 0x87912990, 0xf71fc5a9, 0x0b92f20c, 0x745a48de, 0x1e578218, 0x816fd6e9,
      0xc19bf174, 0x00000018, 0xb0fa238e, 0x07590dcd);
  }

  lemma ConstantsFrom16()
    ensures K(16) == 0xe49b69c1 && K(17) == 0xefbe4786 && K(18) == 0x0fc19dc6
    ensures K(19) == 0x240ca1cc && K(20) == 0x2de92c6f && K(21) == 0x4a7484aa
    ensures K(22) == 0x5cb0a9dc && K(23) == 0x76f988da
  {
  }

  lemma RoundsTo24()
    ensures Rounds(INITIAL, BLOCK, 24) ==
      Regs(0xc5d53d8d, 0xa7a3623f, 0xc2606d6d, 0x9dc68b63, 0xaa47c347, 0x49f5114a, 0xe1257970, 0x8ada8930)
  {
    hide Rounds, Listed, K;
    RoundsTo16();
    ConstantsFrom16();
    WordsFrom16();
    Step(16, 0xb0fa238e, 0xc0645fde, 0xd932eb16, 0x87912990, 0x07590dcd, 0x0b92f20c, 0x745a48de, 0x1e578218,
      0xe49b69c1, 0x61626380, 0x21da9a9b, 0x8034229c);
    Step(17, 0x21da9a9b, 0xb0fa238e, 0xc0645fde, 0xd932eb16, 0x8034229c, 0x07590dcd, 0x0b92f20c, 0x745a48de,
      0xefbe4786, 0x000f0000, 0xc2fbd9d1, 0x846ee454);
    Step(18, 0xc2fbd9d1, 0x21da9a9b, 0xb0fa238e, 0xc0645fde, 0x846ee454, 0x8034229c, 0x07590dcd, 0x0b92f20c,
      0x0fc19dc6, 0x7da86405, 0xfe777bbf, 0xcc899961);
    Step(19, 0xfe777bbf, 0xc2fbd9d1, 0x21da9a9b, 0xb0fa238e, 0xcc899961, 0x846ee454, 0x8034229c, 0x07590dcd,
      0x240ca1cc, 0x600003c6, 0xe1f20c33, 0xb0638179);
    Step(20, 0xe1f20c33, 0xfe777bbf, 0xc2fbd9d1, 0x21da9a9b, 0xb0638179, 0xcc899961, 0x846ee454, 0x8034229c,
      0x2de92c6f, 0x3e9d7b78, 0x9dc68b63, 0x8ada8930);
    Step(21, 0x9dc68b63, 0xe1f20c33, 0xfe777bbf, 0xc2fbd9d1, 0x8ada8930, 0xb0638179, 0xcc899961, 0x846ee454,
      0x4a7484aa, 0x0183fc00, 0xc2606d6d, 0xe1257970);
    Step(22, 0xc2606d6d, 0x9dc68b63, 0xe1f20c33, 0xfe777bbf, 0xe1257970, 0x8ada8930, 0xb0638179, 0xcc899961,
      0x5cb0a9dc, 0x12dcbfdb, 0xa7a3623f, 0x49f5114a);
    Step(23, 0xa7a3623f, 0xc2606d6d, 0x9dc68b63, 0xe1f20c33, 0x49f5114a, 0xe1257970, 0x8ada8930, 0xb0638179,
      0x76f988da, 0xe2e2c38e, 0xc5d53d8d, 0xaa47c347);
  }

  lemma ConstantsFrom24()
    ensures K(24) == 0x983e5152 && K(25) == 0xa831c66d && K(26) == 0xb00327c8
    ensures K(27) == 0xbf597fc7 && K(28) == 0xc6e00bf3 && K(29) == 0xd5a79147
    ensures K(30) == 0x06ca6351 && K(31) == 0x14292967
  {
  }

  lemma RoundsTo32()
    ensures Rounds(INITIAL, BLOCK, 32) ==
      Regs(0x73b33bf5, 0xea992a22, 0xa0060b30, 0x363482c9, 0xba591112, 0x0109ab3a, 0xade79437, 0x6112a3b7)
  {
    hide Rounds, Listed, K;
    RoundsTo24();
    ConstantsFrom24();
    WordsFrom24();
    Step(24, 0xc5d53d8d, 0xa7a3623f, 0xc2606d6d, 0x9dc68b63, 0xaa47c347, 0x49f5114a, 0xe1257970, 0x8ada8930,
      0x983e5152, 0xc8215c1a, 0x1c2c2838, 0x2823ef91);
    Step(25, 0x1c2c2838, 0xc5d53d8d, 0xa7a3623f, 0xc2606d6d, 0x2823ef91, 0xaa47c347, 0x49f5114a, 0xe1257970,
      0xa831c66d, 0xb73679a2, 0xcde8037d, 0x14383d8e);
    Step(26, 0xcde8037d, 0x1c2c2838, 0xc5d53d8d, 0xa7a3623f, 0x14383d8e, 0x2823ef91, 0xaa47c347, 0x49f5114a,
      0xb00327c8, 0xe5bc3909, 0xb62ec4bc, 0xc74c6516);
    Step(27, 0xb62ec4bc, 0xcde8037d, 0x1c2c2838, 0xc5d53d8d, 0xc74c6516, 0x14383d8e, 0x2823ef91, 0xaa47c347,
      0xbf597fc7, 0x32663c5b, 0x77d37528, 0xedffbff8);
    Step(28, 0x77d37528, 0xb62ec4bc, 0xcde8037d, 0x1c2c2838, 0xedffbff8, 0xc74c6516, 0x14383d8e, 0x2823ef91,
      0xc6e00bf3, 0x9d209d67, 0x363482c9, 0x6112a3b7);
    Step(29, 0x363482c9, 0x77d37528, 0xb62ec4bc, 0xcde8037d, 0x6112a3b7, 0xedffbff8, 0xc74c6516, 0x14383d8e,
      0xd5a79147, 0xec8726cb, 0xa0060b30, 0xade79437);
    Step(30, 0xa0060b30, 0x363482c9, 0x77d37528, 0xb62ec4bc, 0xade79437, 0x6112a3b7, 0xedffbff8, 0xc74c6516,
      0x06ca6351, 0x702138a4, 0xea992a22, 0x0109ab3a);
    Step(31, 0xea992a22, 0xa0060b30, 0x363482c9, 0x77d37528, 0x0109ab3a, 0xade79437, 0x6112a3b7, 0xedffbff8,
      0x14292967, 0xd3b7973b, 0x73b33bf5, 0xba591112);
  }

  lemma ConstantsFrom32()
    ensures K(32) == 0x27b70a85 && K(33) == 0x2e1b2138 && K(34) == 0x4d2c6dfc
    ensures K(35) == 0x53380d13 && K(36) == 0x650a7354 && K(37) == 0x766a0abb
    ensures K(38) == 0x81c2c92e && K(39) == 0x92722c85
  {
  }

  lemma RoundsTo40()
    ensures Rounds(INITIAL, BLOCK, 40) ==
      Regs(0x79ea687a, 0x6dc57a8a, 0x34df1604, 0x41a65cb1, 0x1efbc0a0, 0xf0781bc8, 0xa507a53d, 0x0772a26b)
  {
    hide Rounds, Listed, K;
    RoundsTo32();
    ConstantsFrom32();
    WordsFrom32();
    Step(32, 0x73b33bf5, 0xea992a22, 0xa0060b30, 0x363482c9, 0xba591112, 0x0109ab3a, 0xade79437, 0x6112a3b7,
      0x27b70a85, 0x93f5997f, 0x98e12507, 0x9cd9f5f6);
    Step(33, 0x98e12507, 0x73b33bf5, 0xea992a22, 0xa0060b30, 0x9cd9f5f6, 0xba591112, 0x0109ab3a, 0xade79437,
      0x2e1b2138, 0x3b68ba73, 0xfe604df5, 0x59249dd3);
    Step(34, 0xfe604df5, 0x98e12507, 0x73b33bf5, 0xea992a22, 0x59249dd3, 0x9cd9f5f6, 0xba591112, 0x0109ab3a,
      0x4d2c6dfc, 0xaff4ffc1, 0xa9a7738c, 0x085f3833);
    Step(35, 0xa9a7738c, 0xfe604df5, 0x98e12507, 0x73b33bf5, 0x085f3833, 0x59249dd3, 0x9cd9f5f6, 0xba591112,
      0x53380d13, 0xf10a5c62, 0x65a0cfe4, 0xf4b002d6);
    Step(36, 0x65a0cfe4, 0xa9a7738c, 0xfe604df5, 0x98e12507, 0xf4b002d6, 0x085f3833, 0x59249dd3, 0x9cd9f5f6,
      0x650a7354, 0x0a8b3996, 0x41a65cb1, 0x0772a26b);
    Step(37, 0x41a65cb1, 0x65a0cfe4, 0xa9a7738c, 0xfe604df5, 0x0772a26b, 0xf4b002d6, 0x085f3833, 0x59249dd3,
      0x766a0abb, 0x72af830a, 0x34df1604, 0xa507a53d);
    Step(38, 0x34df1604, 0x41a65cb1, 0x65a0cfe4, 0xa9a7738c, 0xa507a53d, 0x0772a26b, 0xf4b002d6, 0x085f3833,
      0x81c2c92e, 0x9409e33e, 0x6dc57a8a, 0xf0781bc8);
    Step(39, 0x6dc57a8a, 0x34df1604, 0x41a65cb1, 0x65a0cfe4, 0xf0781bc8, 0xa507a53d, 0x0772a26b, 0xf4b002d6,
      0x92722c85, 0x24641522, 0x79ea687a, 0x1efbc0a0);
  }

  lemma ConstantsFrom40()
    ensures K(40) == 0xa2bfe8a1 && K(41) == 0xa81a664b && K(42) == 0xc24b8b70
    ensures K(43) == 0xc76c51a3 && K(44) == 0xd192e819 && K(45) == 0xd6990624
    ensures K(46) == 0xf40e3585 && K(47) == 0x106aa070
  {
  }

  lemma RoundsTo48()
    ensures Rounds(INITIAL, BLOCK, 48) ==
      Regs(0x4172328d, 0xa14c14b0, 0x72ab4b91, 0x26628815, 0xfecf0bc6, 0xd57b94a9, 0xb7755da1, 0xa80f11f0)
  {
    hide Rounds, Listed, K;
    RoundsTo40();
    ConstantsFrom40();
    WordsFrom40();
    Step(40, 0x79ea687a, 0x6dc57a8a, 0x34df1604, 0x41a65cb1, 0x1efbc0a0, 0xf0781bc8, 0xa507a53d, 0x0772a26b,
      0xa2bfe8a1, 0x9f47bf94, 0xd6670766, 0x26352d63);
    Step(41, 0xd6670766, 0x79ea687a, 0x6dc57a8a, 0x34df1604, 0x26352d63, 0x1efbc0a0, 0xf0781bc8, 0xa507a53d,
      0xa81a664b, 0xf0a64f5a, 0xdf46652f, 0x838b2711);
    Step(42, 0xdf46652f, 0xd6670766, 0x79ea687a, 0x6dc57a8a, 0x838b2711, 0x26352d63, 0x1efbc0a0, 0xf0781bc8,
      0xc24b8b70, 0x3e246a79, 0x17aa0dfe, 0xdecd4715);
    Step(43, 0x17aa0dfe, 0xdf46652f, 0xd6670766, 0x79ea687a, 0xdecd4715, 0x838b2711, 0x26352d63, 0x1efbc0a0,
      0xc76c51a3, 0x27333ba3, 0x9d4baf93, 0xfda24c2e);
    Step(44, 0x9d4baf93, 0x17aa0dfe, 0xdf46652f, 0xd6670766, 0xfda24c2e, 0xdecd4715, 0x838b2711, 0x26352d63,
      0xd192e819, 0x0c4763f2, 0x26628815, 0xa80f11f0);
    Step(45, 0x26628815, 0x9d4baf93, 0x17aa0dfe, 0xdf46652f, 0xa80f11f0, 0xfda24c2e, 0xdecd4715, 0x838b2711,
      0xd6990624, 0x840abf27, 0x72ab4b91, 0xb7755da1);
    Step(46, 0x72ab4b91, 0x26628815, 0x9d4baf93, 0x17aa0dfe, 0xb7755da1, 0xa80f11f0, 0xfda24c2e, 0xdecd4715,
      0xf40e3585, 0x7a290d5d, 0xa14c14b0, 0xd57b94a9);
    Step(47, 0xa14c14b0, 0x72ab4b91, 0x26628815, 0x9d4baf93, 0xd57b94a9, 0xb7755da1, 0xa80f11f0, 0xfda24c2e,
      0x106aa070, 0x065c43da, 0x4172328d, 0xfecf0bc6);
  }

  lemma ConstantsFrom48()
    ensures K(48) == 0x19a4c116 && K(49) == 0x1e376c08 && K(50) == 0x2748774c
    ensures K(51) == 0x34b0bcb5 && K(52) == 0x391c0cb3 && K(53) == 0x4ed8aa4a
    ensures K(54) == 0x5b9cca4f && K(55) == 0x682e6ff3
  {
  }

  lemma RoundsTo56()
    ensures Rounds(INITIAL, BLOCK, 56) ==
      Regs(0x38cc9913, 0x3ec45cdb, 0xf5702fdb, 0x101fd28f, 0x54cb266b, 0xe50e1b4f, 0x9f4787c3, 0x529e7d00)
  {
    hide Rounds, Listed, K;
    RoundsTo48();
    ConstantsFrom48();
    WordsFrom48();
    Step(48, 0x4172328d, 0xa14c14b0, 0x72ab4b91, 0x26628815, 0xfecf0bc6, 0xd57b94a9, 0xb7755da1, 0xa80f11f0,
      0x19a4c116, 0xfb3e89cb, 0x05757ceb, 0xbd714038);
    Step(49, 0x05757ceb, 0x4172328d, 0xa14c14b0, 0x72ab4b91, 0xbd714038, 0xfecf0bc6, 0xd57b94a9, 0xb7755da1,
      0x1e376c08, 0xcc7617db, 0xf11bfaa8, 0x6e5c390c);
    Step(50, 0xf11bfaa8, 0x05757ceb, 0x4172328d, 0xa14c14b0, 0x6e5c390c, 0xbd714038, 0xfecf0bc6, 0xd57b94a9,
      0x2748774c, 0xb9e66c34, 0x7a0508a1, 0x52f1ccf7);
    Step(51, 0x7a0508a1, 0xf11bfaa8, 0x05757ceb, 0x4172328d, 0x52f1ccf7, 0x6e5c390c, 0xbd714038, 0xfecf0bc6,
      0x34b0bcb5, 0xa9993667, 0x886e7a22, 0x49231c1e);
    Step(52, 0x886e7a22, 0x7a0508a1, 0xf11bfaa8, 0x05757ceb, 0x49231c1e, 0x52f1ccf7, 0x6e5c390c, 0xbd714038,
      0x391c0cb3, 0x84badedd, 0x101fd28f, 0x529e7d00);
    Step(53, 0x101fd28f, 0x886e7a22, 0x7a0508a1, 0xf11bfaa8, 0x529e7d00, 0x49231c1e, 0x52f1ccf7, 0x6e5c390c,
      0x4ed8aa4a, 0xc21462bc, 0xf5702fdb, 0x9f4787c3);
    Step(54, 0xf5702fdb, 0x101fd28f, 0x886e7a22, 0x7a0508a1, 0x9f4787c3, 0x529e7d00, 0x49231c1e, 0x52f1ccf7,
      0x5b9cca4f, 0x1487472c, 0x3ec45cdb, 0xe50e1b4f);
    Step(55, 0x3ec45cdb, 0xf5702fdb, 0x101fd28f, 0x886e7a22, 0xe50e1b4f, 0x9f4787c3, 0x529e7d00, 0x49231c1e,
      0x682e6ff3, 0xb20f7a99, 0x38cc9913, 0x54cb266b);
  }

  lemma ConstantsFrom56()
    ensures K(56) == 0x748f82ee && K(57) == 0x78a5636f && K(58) == 0x84c87814
    ensures K(59) == 0x8cc70208 && K(60) == 0x90befffa && K(61) == 0xa4506ceb
    ensures K(62) == 0xbef9a3f7 && K(63) == 0xc67178f2
  {
  }

  lemma RoundsTo64()
    ensures Rounds(INITIAL, BLOCK, 64) ==
      Regs(0x506e3058, 0xd39a2165, 0x04d24d6c, 0xb85e2ce9, 0x5ef50f24, 0xfb121210, 0x948d25b6, 0x961f4894)
  {
    hide Rounds, Listed, K;
    RoundsTo56();
    ConstantsFrom56();
    WordsFrom56();
    Step(56, 0x38cc9913, 0x3ec45cdb, 0xf5702fdb, 0x101fd28f, 0x54cb266b, 0xe50e1b4f, 0x9f4787c3, 0x529e7d00,
      0x748f82ee, 0xef57b9cd, 0xfcd1887b, 0x9b5e906c);
    Step(57, 0xfcd1887b, 0x38cc9913, 0x3ec45cdb, 0xf5702fdb, 0x9b5e906c, 0x54cb266b, 0xe50e1b4f, 0x9f4787c3,
      0x78a5636f, 0xebe6b238, 0xc062d46f, 0x7e44008e);
    Step(58, 0xc062d46f, 0xfcd1887b, 0x38cc9913, 0x3ec45cdb, 0x7e44008e, 0x9b5e906c, 0x54cb266b, 0xe50e1b4f,
      0x84c87814, 0x9fe3095e, 0xffb70472, 0x6d83bfc6);
    Step(59, 0xffb70472, 0xc062d46f, 0xfcd1887b, 0x38cc9913, 0x6d83bfc6, 0x7e44008e, 0x9b5e906c, 0x54cb266b,
      0x8cc70208, 0x78bc8d4b, 0xb6ae8fff, 0xb21bad3d);
    Step(60, 0xb6ae8fff, 0xffb70472, 0xc062d46f, 0xfcd1887b, 0xb21bad3d, 0x6d83bfc6, 0x7e44008e, 0x9b5e906c,
      0x90befffa, 0xa43fcf15, 0xb85e2ce9, 0x961f4894);
    Step(61, 0xb85e2ce9, 0xb6ae8fff, 0xffb70472, 0xc062d46f, 0x961f4894, 0xb21bad3d, 0x6d83bfc6, 0x7e44008e,
      0xa4506ceb, 0x668b2ff8, 0x04d24d6c, 0x948d25b6);
    Step(62, 0x04d24d6c, 0xb85e2ce9, 0xb6ae8fff, 0xffb70472, 0x948d25b6, 0x961f4894, 0xb21bad3d, 0x6d83bfc6,
      0xbef9a3f7, 0xeeaba2cc, 0xd39a2165, 0xfb121210);
    Step(63, 0xd39a2165, 0x04d24d6c, 0xb85e2ce9, 0xb6ae8fff, 0xfb121210, 0x948d25b6, 0x961f4894, 0xb21bad3d,
      0xc67178f2, 0x12b1edeb, 0x506e3058, 0x5ef50f24);
  }

  // ---------------------------------------------------------------------------------------
  // The digest
  // ---------------------------------------------------------------------------------------

  lemma Compressed()
    ensures Compress(INITIAL, BLOCK) ==
      Regs(0xba7816bf, 0x8f01cfea, 0x414140de, 0x5dae2223, 0xb00361a3, 0x96177a9c, 0xb410ff61, 0xf20015ad)
  {
    hide Rounds;
    RoundsTo64();
  }

  lemma Bytes0()
    ensures WordBytes(0xba7816bf) == [0xba, 0x78, 0x16, 0xbf]
    ensures WordBytes(0x8f01cfea) == [0x8f, 0x01, 0xcf, 0xea]
  {
  }

  lemma Bytes2()
    ensures WordBytes(0x414140de) == [0x41, 0x41, 0x40, 0xde]
    ensures WordBytes(0x5dae2223) == [0x5d, 0xae, 0x22, 0x23]
  {
  }

  lemma Bytes4()
    ensures WordBytes(0xb00361a3) == [0xb0, 0x03, 0x61, 0xa3]
    ensures WordBytes(0x96177a9c) == [0x96, 0x17, 0x7a, 0x9c]
  {
  }

  lemma Bytes6()
    ensures WordBytes(0xb410ff61) == [0xb4, 0x10, 0xff, 0x61]
    ensures WordBytes(0xf20015ad) == [0xf2, 0x00, 0x15, 0xad]
  {
  }

  /** SHA-256 of "abc". */
  lemma OfAbc()
    ensures Sha256(ABC)
         == [0xba, 0x78, 0x16, 0xbf] + [0x8f, 0x01, 0xcf, 0xea]
            + [0x41, 0x41, 0x40, 0xde] + [0x5d, 0xae, 0x22, 0x23]
            + [0xb0, 0x03, 0x61, 0xa3] + [0x96, 0x17, 0x7a, 0x9c]
            + [0xb4, 0x10, 0xff, 0x61] + [0xf2, 0x00, 0x15, 0xad]
  {
    hide Compress, Padded, Chain, WordBytes, LengthField;
    PaddedAbc();
    OneBlock(Compress, 64, INITIAL, BLOCK);
    Compressed();
    Bytes0();
    Bytes2();
    Bytes4();
    Bytes6();
    EightWords(0xba7816bf, 0x8f01cfea, 0x414140de, 0x5dae2223, 0xb00361a3, 0x96177a9c, 0xb410ff61, 0xf20015ad);
  }
}
