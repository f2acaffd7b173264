/** SHA-1, section 6.1 of FIPS 180-4. */
module Sha1Spec {
  import opened Blocks
  import opened Words

  /** The five working variables, and the five words of a chaining value. */
  datatype Regs = Regs(a: bv32, b: bv32, c: bv32, d: bv32, e: bv32)

  const INITIAL: Regs := Regs(0x67452301, 0xefcdab89, 0x98badcfe, 0x10325476, 0xc3d2e1f0)

  // Rotations to the left.

  function RotL1(x: bv32): bv32 { (x << 1) | (x >> 31) }

  function RotL5(x: bv32): bv32 { (x << 5) | (x >> 27) }

  function RotL30(x: bv32): bv32 { (x << 30) | (x >> 2) }

  function Ch(x: bv32, y: bv32, z: bv32): bv32 { (x & y) ^ (!x & z) }

  function Parity(x: bv32, y: bv32, z: bv32): bv32 { x ^ y ^ z }

  function Maj(x: bv32, y: bv32, z: bv32): bv32 { (x & y) ^ (x & z) ^ (y & z) }

  /** The logical function of round `t`, section 4.1.1. */
  function F(t: nat, x: bv32, y: bv32, z: bv32): bv32 {
    if t < 20 then Ch(x, y, z) else if 40 <= t < 60 then Maj(x, y, z) else Parity(x, y, z)
  }

  /** The constant of round `t`, section 4.2.1. */
  function K(t: nat): bv32 {
    if t < 20 then 0x5a827999 else if t < 40 then 0x6ed9eba1 else if t < 60 then 0x8f1bbcdc else 0xca62c1d6
  }

  function Sum(x: bv32, f: bv32, e: bv32, k: bv32, w: bv32): bv32 { x + f + e + k + w }

  function Mix(x: bv32, y: bv32, z: bv32, u: bv32): bv32 { RotL1(x ^ y ^ z ^ u) }

  /** The message schedule: 80 words. */
  function Schedule(block: seq<bv8>, t: nat): bv32 {
    if t < 16 then BlockWord(block, t)
    else Mix(Schedule(block, t - 3), Schedule(block, t - 8), Schedule(block, t - 14), Schedule(block, t - 16))
  }

  function Round(r: Regs, t: nat, w: bv32): Regs {
    var temp := Sum(RotL5(r.a), F(t, r.b, r.c, r.d), r.e, K(t), w);
    Regs(temp, r.a, RotL30(r.b), r.c, r.d)
  }

  function Rounds(r: Regs, block: seq<bv8>, t: nat): Regs {
    if t == 0 then r else Round(Rounds(r, block, t - 1), t - 1, Schedule(block, t - 1))
  }

  function Compress(r: Regs, block: seq<bv8>): Regs {
    var s := Rounds(r, block, 80);
    Regs(Add(r.a, s.a), Add(r.b, s.b), Add(r.c, s.c), Add(r.d, s.d), Add(r.e, s.e))
  }

  function RegsBytes(r: Regs): (d: seq<bv8>)
    ensures |d| == 20
  {
    WordsBytes([r.a, r.b, r.c, r.d, r.e])
  }

  /** A length field of 64 bits, the most significant byte first. */
  function LengthField(bits: nat): (f: seq<bv8>)
    ensures |f| == 8
  {
    BigEndianBytes(bits, 8)
  }

  /** The digest when `bits` is what the length field says. */
  function DigestWith(msg: seq<bv8>, bits: nat): (d: seq<bv8>)
    ensures |d| == 20
  {
    RegsBytes(Chain(Compress, 64, INITIAL, Padded(64, msg, LengthField(bits))))
  }

  function Sha1(msg: seq<bv8>): (d: seq<bv8>)
    ensures |d| == 20
  {
    DigestWith(msg, 8 * |msg| % 0x1_0000_0000_0000_0000)
  }
}
