/** The table that sum-crc.c spells out for POSIX cksum (`posix_cksum_tab`): it is the table that
    the rotating form would compute for the polynomial. */
module CksumTable {
  import opened CrcAlgebra

  const POLYNOMIAL: bv32 := 0x04c1_1db7

  function Row0(): seq<bv32> {
    [0x0000_0000, 0x04c1_1db7, 0x0982_3b6e, 0x0d43_26d9, 0x1304_76dc, 0x17c5_6b6b, 0x1a86_4db2, 0x1e47_5005]
  }

  function Row1(): seq<bv32> {
    [0x2608_edb8, 0x22c9_f00f, 0x2f8a_d6d6, 0x2b4b_cb61, 0x350c_9b64, 0x31cd_86d3, 0x3c8e_a00a, 0x384f_bdbd]
  }

  function Row2(): seq<bv32> {
    [0x4c11_db70, 0x48d0_c6c7, 0x4593_e01e, 0x4152_fda9, 0x5f15_adac, 0x5bd4_b01b, 0x5697_96c2, 0x5256_8b75]
  }

  function Row3(): seq<bv32> {
    [0x6a19_36c8, 0x6ed8_2b7f, 0x639b_0da6, 0x675a_1011, 0x791d_4014, 0x7ddc_5da3, 0x709f_7b7a, 0x745e_66cd]
  }

  function Row4(): seq<bv32> {
    [0x9823_b6e0, 0x9ce2_ab57, 0x91a1_8d8e, 0x9560_9039, 0x8b27_c03c, 0x8fe6_dd8b, 0x82a5_fb52, 0x8664_e6e5]
  }

  function Row5(): seq<bv32> {
    [0xbe2b_5b58, 0xbaea_46ef, 0xb7a9_6036, 0xb368_7d81, 0xad2f_2d84, 0xa9ee_3033, 0xa4ad_16ea, 0xa06c_0b5d]
  }

  function Row6(): seq<bv32> {
    [0xd432_6d90, 0xd0f3_7027, 0xddb0_56fe, 0xd971_4b49, 0xc736_1b4c, 0xc3f7_06fb, 0xceb4_2022, 0xca75_3d95]
  }

  function Row7(): seq<bv32> {
    [0xf23a_8028, 0xf6fb_9d9f, 0xfbb8_bb46, 0xff79_a6f1, 0xe13e_f6f4, 0xe5ff_eb43, 0xe8bc_cd9a, 0xec7d_d02d]
  }

  function Row8(): seq<bv32> {
    [0x3486_7077, 0x3047_6dc0, 0x3d04_4b19, 0x39c5_56ae, 0x2782_06ab, 0x2343_1b1c, 0x2e00_3dc5, 0x2ac1_2072]
  }

  function Row9(): seq<bv32> {
    [0x128e_9dcf, 0x164f_8078, 0x1b0c_a6a1, 0x1fcd_bb16, 0x018a_eb13, 0x054b_f6a4, 0x0808_d07d, 0x0cc9_cdca]
  }

  function Row10(): seq<bv32> {
    [0x7897_ab07, 0x7c56_b6b0, 0x7115_9069, 0x75d4_8dde, 0x6b93_dddb, 0x6f52_c06c, 0x6211_e6b5, 0x66d0_fb02]
  }

  function Row11(): seq<bv32> {
    [0x5e9f_46bf, 0x5a5e_5b08, 0x571d_7dd1, 0x53dc_6066, 0x4d9b_3063, 0x495a_2dd4, 0x4419_0b0d, 0x40d8_16ba]
  }

  function Row12(): seq<bv32> {
    [0xaca5_c697, 0xa864_db20, 0xa527_fdf9, 0xa1e6_e04e, 0xbfa1_b04b, 0xbb60_adfc, 0xb623_8b25, 0xb2e2_9692]
  }

  function Row13(): seq<bv32> {
    [0x8aad_2b2f, 0x8e6c_3698, 0x832f_1041, 0x87ee_0df6, 0x99a9_5df3, 0x9d68_4044, 0x902b_669d, 0x94ea_7b2a]
  }

  function Row14(): seq<bv32> {
    [0xe0b4_1de7, 0xe475_0050, 0xe936_2689, 0xedf7_3b3e, 0xf3b0_6b3b, 0xf771_768c, 0xfa32_5055, 0xfef3_4de2]
  }

  function Row15(): seq<bv32> {
    [0xc6bc_f05f, 0xc27d_ede8, 0xcf3e_cb31, 0xcbff_d686, 0xd5b8_8683, 0xd179_9b34, 0xdc3a_bded, 0xd8fb_a05a]
  }

  function Row16(): seq<bv32> {
    [0x690c_e0ee, 0x6dcd_fd59, 0x608e_db80, 0x644f_c637, 0x7a08_9632, 0x7ec9_8b85, 0x738a_ad5c, 0x774b_b0eb]
  }

  function Row17(): seq<bv32> {
    [0x4f04_0d56, 0x4bc5_10e1, 0x4686_3638, 0x4247_2b8f, 0x5c00_7b8a, 0x58c1_663d, 0x5582_40e4, 0x5143_5d53]
  }

  function Row18(): seq<bv32> {
    [0x251d_3b9e, 0x21dc_2629, 0x2c9f_00f0, 0x285e_1d47, 0x3619_4d42, 0x32d8_50f5, 0x3f9b_762c, 0x3b5a_6b9b]
  }

  function Row19(): seq<bv32> {
    [0x0315_d626, 0x07d4_cb91, 0x0a97_ed48, 0x0e56_f0ff, 0x1011_a0fa, 0x14d0_bd4d, 0x1993_9b94, 0x1d52_8623]
  }

  function Row20(): seq<bv32> {
    [0xf12f_560e, 0xf5ee_4bb9, 0xf8ad_6d60, 0xfc6c_70d7, 0xe22b_20d2, 0xe6ea_3d65, 0xeba9_1bbc, 0xef68_060b]
  }

  function Row21(): seq<bv32> {
    [0xd727_bbb6, 0xd3e6_a601, 0xdea5_80d8, 0xda64_9d6f, 0xc423_cd6a, 0xc0e2_d0dd, 0xcda1_f604, 0xc960_ebb3]
  }

  function Row22(): seq<bv32> {
    [0xbd3e_8d7e, 0xb9ff_90c9, 0xb4bc_b610, 0xb07d_aba7, 0xae3a_fba2, 0xaafb_e615, 0xa7b8_c0cc, 0xa379_dd7b]
  }

  function Row23(): seq<bv32> {
    [0x9b36_60c6, 0x9ff7_7d71, 0x92b4_5ba8, 0x9675_461f, 0x8832_161a, 0x8cf3_0bad, 0x81b0_2d74, 0x8571_30c3]
  }

  function Row24(): seq<bv32> {
    [0x5d8a_9099, 0x594b_8d2e, 0x5408_abf7, 0x50c9_b640, 0x4e8e_e645, 0x4a4f_fbf2, 0x470c_dd2b, 0x43cd_c09c]
  }

  function Row25(): seq<bv32> {
    [0x7b82_7d21, 0x7f43_6096, 0x7200_464f, 0x76c1_5bf8, 0x6886_0bfd, 0x6c47_164a, 0x6104_3093, 0x65c5_2d24]
  }

  function Row26(): seq<bv32> {
    [0x119b_4be9, 0x155a_565e, 0x1819_7087, 0x1cd8_6d30, 0x029f_3d35, 0x065e_2082, 0x0b1d_065b, 0x0fdc_1bec]
  }

  function Row27(): seq<bv32> {
    [0x3793_a651, 0x3352_bbe6, 0x3e11_9d3f, 0x3ad0_8088, 0x2497_d08d, 0x2056_cd3a, 0x2d15_ebe3, 0x29d4_f654]
  }

  function Row28(): seq<bv32> {
    [0xc5a9_2679, 0xc168_3bce, 0xcc2b_1d17, 0xc8ea_00a0, 0xd6ad_50a5, 0xd26c_4d12, 0xdf2f_6bcb, 0xdbee_767c]
  }

  function Row29(): seq<bv32> {
    [0xe3a1_cbc1, 0xe760_d676, 0xea23_f0af, 0xeee2_ed18, 0xf0a5_bd1d, 0xf464_a0aa, 0xf927_8673, 0xfde6_9bc4]
  }

  function Row30(): seq<bv32> {
    [0x89b8_fd09, 0x8d79_e0be, 0x803a_c667, 0x84fb_dbd0, 0x9abc_8bd5, 0x9e7d_9662, 0x933e_b0bb, 0x97ff_ad0c]
  }

  function Row31(): seq<bv32> {
    [0xafb0_10b1, 0xab71_0d06, 0xa632_2bdf, 0xa2f3_3668, 0xbcb4_666d, 0xb875_7bda, 0xb536_5d03, 0xb1f7_40b4]
  }

  /** Eight entries of the table. */
  function Row(r: nat): (row: seq<bv32>)
    requires r < 32
    ensures |row| == 8
  {
    match r
    case 0 => Row0()
    case 1 => Row1()
    case 2 => Row2()
    case 3 => Row3()
    case 4 => Row4()
    case 5 => Row5()
    case 6 => Row6()
    case 7 => Row7()
    case 8 => Row8()
    case 9 => Row9()
    case 10 => Row10()
    case 11 => Row11()
    case 12 => Row12()
    case 13 => Row13()
    case 14 => Row14()
    case 15 => Row15()
    case 16 => Row16()
    case 17 => Row17()
    case 18 => Row18()
    case 19 => Row19()
    case 20 => Row20()
    case 21 => Row21()
    case 22 => Row22()
    case 23 => Row23()
    case 24 => Row24()
    case 25 => Row25()
    case 26 => Row26()
    case 27 => Row27()
    case 28 => Row28()
    case 29 => Row29()
    case 30 => Row30()
    case _ => Row31()
  }

  function Literal(i: nat): bv32
    requires i < 256
  {
    Row(i / 8)[i % 8]
  }

  // ---------------------------------------------------------------------------------------
  // Doubling an index
  // ---------------------------------------------------------------------------------------

  /** The entry after the one of an even index. */
  function Odd(t: bv32): bv32 { t ^ POLYNOMIAL }

  /** The entries of twice an index and of the index after that, given the entry of the index. */
  predicate Pair(t: bv32, even: bv32, odd: bv32) { even == Turn(POLYNOMIAL, t) && odd == Odd(even) }

  /** The rows `low` and `high` have the entries at twice the indices of `row`, and those after. */
  predicate Doubled(row: seq<bv32>, low: seq<bv32>, high: seq<bv32>)
    requires |row| == |low| == |high| == 8
  {
    && Pair(row[0], low[0], low[1])
    && Pair(row[1], low[2], low[3])
    && Pair(row[2], low[4], low[5])
    && Pair(row[3], low[6], low[7])
    && Pair(row[4], high[0], high[1])
    && Pair(row[5], high[2], high[3])
    && Pair(row[6], high[4], high[5])
    && Pair(row[7], high[6], high[7])
  }

  lemma Rows0()
    ensures Doubled(Row0(), Row0(), Row1())
  {
  }

  lemma Rows1()
    ensures Doubled(Row1(), Row2(), Row3())
  {
  }

  lemma Rows2()
    ensures Doubled(Row2(), Row4(), Row5())
  {
  }

  lemma Rows3()
    ensures Doubled(Row3(), Row6(), Row7())
  {
  }

  lemma Rows4()
    ensures Doubled(Row4(), Row8(), Row9())
  {
  }

  lemma Rows5()
    ensures Doubled(Row5(), Row10(), Row11())
  {
  }

  lemma Rows6()
    ensures Doubled(Row6(), Row12(), Row13())
  {
  }

  lemma Rows7()
    ensures Doubled(Row7(), Row14(), Row15())
  {
  }

  lemma Rows8()
    ensures Doubled(Row8(), Row16(), Row17())
  {
  }

  lemma Rows9()
    ensures Doubled(Row9(), Row18(), Row19())
  {
  }

  lemma Rows10()
    ensures Doubled(Row10(), Row20(), Row21())
  {
  }

  lemma Rows11()
    ensures Doubled(Row11(), Row22(), Row23())
  {
  }

  lemma Rows12()
    ensures Doubled(Row12(), Row24(), Row25())
  {
  }

  lemma Rows13()
    ensures Doubled(Row13(), Row26(), Row27())
  {
  }

  lemma Rows14()
    ensures Doubled(Row14(), Row28(), Row29())
  {
  }

  lemma Rows15()
    ensures Doubled(Row15(), Row30(), Row31())
  {
  }

  lemma RowsDouble(r: nat)
    requires r < 16
    ensures Doubled(Row(r), Row(2 * r), Row(2 * r + 1))
  {
    hide Doubled;
    hide Row0, Row1, Row2, Row3, Row4, Row5, Row6, Row7;
    hide Row8, Row9, Row10, Row11, Row12, Row13, Row14, Row15;
    hide Row16, Row17, Row18, Row19, Row20, Row21, Row22, Row23;
    hide Row24, Row25, Row26, Row27, Row28, Row29, Row30, Row31;
    match r
    case 0 => Rows0();
    case 1 => Rows1();
    case 2 => Rows2();
    case 3 => Rows3();
    case 4 => Rows4();
    case 5 => Rows5();
    case 6 => Rows6();
    case 7 => Rows7();
    case 8 => Rows8();
    case 9 => Rows9();
    case 10 => Rows10();
    case 11 => Rows11();
    case 12 => Rows12();
    case 13 => Rows13();
    case 14 => Rows14();
    case _ => Rows15();
  }

  lemma Pairs(row: seq<bv32>, low: seq<bv32>, high: seq<bv32>, k: nat)
    requires |row| == |low| == |high| == 8 && Doubled(row, low, high) && k < 8
    ensures k < 4 ==> Pair(row[k], low[2 * k], low[2 * k + 1])
    ensures k >= 4 ==> Pair(row[k], high[2 * k - 8], high[2 * k - 7])
  {
    hide Pair;
  }

  /** Twice an index: the entry takes one more turn. */
  lemma Children(j: nat)
    requires j < 128
    ensures Literal(2 * j) == Turn(POLYNOMIAL, Literal(j))
    ensures Literal(2 * j + 1) == Odd(Literal(2 * j))
  {
    hide Turn, Row, Doubled, Odd;
    var r, k := j / 8, j % 8;
    RowsDouble(r);
    Pairs(Row(r), Row(2 * r), Row(2 * r + 1), k);
    if k < 4 {
      assert 2 * j / 8 == (2 * j + 1) / 8 == 2 * r;
    } else {
      assert 2 * j / 8 == (2 * j + 1) / 8 == 2 * r + 1;
    }
  }

  // ---------------------------------------------------------------------------------------
  // Indices as words
  // ---------------------------------------------------------------------------------------

  function Word(j: nat): bv32
    requires j < 256
  {
    j as bv32
  }

  function Number(x: bv32): nat { x as nat }

  function Double(x: bv32): bv32 { x << 1 }

  function DoubleOdd(x: bv32): bv32 { (x << 1) | 1 }

  lemma SameWord(x: bv32)
    requires Number(x) < 256
    ensures Word(Number(x)) == x
  {
  }

  lemma WordZero()
    ensures Word(0) == 0 && Number(0) == 0
  {
  }

  lemma FewBits(x: bv32)
    requires Number(x) < 128
    ensures x & 0xffff_ff80 == 0
  {
  }

  lemma TwiceBits(x: bv32)
    requires x & 0xffff_ff80 == 0
    ensures Number(Double(x)) == 2 * Number(x) && Number(DoubleOdd(x)) == 2 * Number(x) + 1
  {
  }

  lemma {:induction false} IndexNumber(j: nat)
    requires j < 256
    ensures Number(Word(j)) == j
  {
    hide Word, Number, Double, DoubleOdd;
    WordZero();
    if j > 0 {
      IndexNumber(j / 2);
      DoubleIndex(j / 2);
      var y := Word(j / 2);
      FewBits(y);
      TwiceBits(y);
    }
  }

  /** The words of twice an index and of the index after that. */
  lemma DoubleIndex(j: nat)
    requires j < 128 && Number(Word(j)) == j
    ensures Word(2 * j) == Double(Word(j)) && Word(2 * j + 1) == DoubleOdd(Word(j))
  {
    hide Word, Number, Double, DoubleOdd;
    var y := Word(j);
    FewBits(y);
    TwiceBits(y);
    SameWord(Double(y));
    SameWord(DoubleOdd(y));
  }

  lemma DoubleIsTurn(p: bv32, x: bv32)
    requires x & 0xffff_ff80 == 0
    ensures High(Double(x)) == Turn(p, High(x))
    ensures High(DoubleOdd(x)) == Xor(High(Double(x)), 0x0100_0000)
  {
    assert (x << 24) & 0x8000_0000 == 0;
  }

  lemma XorIsOdd(t: bv32)
    ensures Xor(t, POLYNOMIAL) == Odd(t)
  {
  }

  lemma FirstEntry()
    ensures Literal(0) == 0
  {
  }

  /** Every entry that is spelled out is the one that eight turns give. */
  lemma {:induction false} LiteralIsComputed(i: nat)
    requires i < 256
    ensures Literal(i) == Turns(POLYNOMIAL, High(Word(i)), 8)
  {
    hide Literal, Turn, Turns, High, Word, Number, Double, DoubleOdd, Odd, Xor;
    WordZero();
    if i == 0 {
      HighOfZero();
      ZeroStays(POLYNOMIAL, 8);
      FirstEntry();
    } else {
      var j := i / 2;
      LiteralIsComputed(j);
      Children(j);
      IndexNumber(j);
      DoubleIndex(j);
      FewBits(Word(j));
      DoubleIsTurn(POLYNOMIAL, Word(j));
      OneTurn(POLYNOMIAL, High(Word(j)), 9);
      TurnsAdd(POLYNOMIAL, High(Word(j)), 8, 1);
      LastTurn(POLYNOMIAL, Literal(j));
      TurnsLinear(POLYNOMIAL, High(Double(Word(j))), 0x0100_0000, 8);
      TurnedBit(POLYNOMIAL);
      XorIsOdd(Literal(2 * j));
    }
  }

  lemma LastTurn(p: bv32, x: bv32)
    ensures Turns(p, x, 1) == Turn(p, x)
  {
    hide Turn;
    assert Turns(p, Turn(p, x), 0) == Turn(p, x);
  }

  lemma HighOfZero()
    ensures High(0) == 0
  {
  }
}
