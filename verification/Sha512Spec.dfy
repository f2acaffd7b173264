/** The SHA-512 compression function, section 6.4.2 of FIPS 180-4, and the initial values of SHA-512
    and SHA-384. */
module Sha512Spec {
  import opened Blocks
  import opened Words64

  /** The eight working variables, and the eight words of a chaining value. */
  datatype Regs = Regs(a: bv64, b: bv64, c: bv64, d: bv64, e: bv64, f: bv64, g: bv64, h: bv64)

  const INITIAL512: Regs :=
    Regs(0x6a09e667f3bcc908, 0xbb67ae8584caa73b, 0x3c6ef372fe94f82b, 0xa54ff53a5f1d36f1,
         0x510e527fade682d1, 0x9b05688c2b3e6c1f, 0x1f83d9abfb41bd6b, 0x5be0cd19137e2179)

  const INITIAL384: Regs :=
    Regs(0xcbbb9d5dc1059ed8, 0x629a292a367cd507, 0x9159015a3070dd17, 0x152fecd8f70e5939,
         0x67332667ffc00b31, 0x8eb44a8768581511, 0xdb0c2e0d64f98fa7, 0x47b5481dbefa4fa4)

  /** The constant of round `t`. */
  function K(t: nat): bv64
    requires t < 80
  {
    if t < 4 then
      [0x428a2f98d728ae22, 0x7137449123ef65cd, 0xb5c0fbcfec4d3b2f, 0xe9b5dba58189dbbc][t]
    else if t < 8 then
      [0x3956c25bf348b538, 0x59f111f1b605d019, 0x923f82a4af194f9b, 0xab1c5ed5da6d8118][t - 4]
    else if t < 12 then
      [0xd807aa98a3030242, 0x12835b0145706fbe, 0x243185be4ee4b28c, 0x550c7dc3d5ffb4e2][t - 8]
    else if t < 16 then
      [0x72be5d74f27b896f, 0x80deb1fe3b1696b1, 0x9bdc06a725c71235, 0xc19bf174cf692694][t - 12]
    else if t < 20 then
      [0xe49b69c19ef14ad2, 0xefbe4786384f25e3, 0x0fc19dc68b8cd5b5, 0x240ca1cc77ac9c65][t - 16]
    else if t < 24 then
      [0x2de92c6f592b0275, 0x4a7484aa6ea6e483, 0x5cb0a9dcbd41fbd4, 0x76f988da831153b5][t - 20]
    else if t < 28 then
      [0x983e5152ee66dfab, 0xa831c66d2db43210, 0xb00327c898fb213f, 0xbf597fc7beef0ee4][t - 24]
    else if t < 32 then
      [0xc6e00bf33da88fc2, 0xd5a79147930aa725, 0x06ca6351e003826f, 0x142929670a0e6e70][t - 28]
    else if t < 36 then
      [0x27b70a8546d22ffc, 0x2e1b21385c26c926, 0x4d2c6dfc5ac42aed, 0x53380d139d95b3df][t - 32]
    else if t < 40 then
      [0x650a73548baf63de, 0x766a0abb3c77b2a8, 0x81c2c92e47edaee6, 0x92722c851482353b][t - 36]
    else if t < 44 then
      [0xa2bfe8a14cf10364, 0xa81a664bbc423001, 0xc24b8b70d0f89791, 0xc76c51a30654be30][t - 40]
    else if t < 48 then
      [0xd192e819d6ef5218, 0xd69906245565a910, 0xf40e35855771202a, 0x106aa07032bbd1b8][t - 44]
    else if t < 52 then
      [0x19a4c116b8d2d0c8, 0x1e376c085141ab53, 0x2748774cdf8eeb99, 0x34b0bcb5e19b48a8][t - 48]
    else if t < 56 then
      [0x391c0cb3c5c95a63, 0x4ed8aa4ae3418acb, 0x5b9cca4f7763e373, 0x682e6ff3d6b2b8a3][t - 52]
    else if t < 60 then
      [0x748f82ee5defb2fc, 0x78a5636f43172f60, 0x84c87814a1f0ab72, 0x8cc702081a6439ec][t - 56]
    else if t < 64 then
      [0x90befffa23631e28, 0xa4506cebde82bde9, 0xbef9a3f7b2c67915, 0xc67178f2e372532b][t - 60]
    else if t < 68 then
      [0xca273eceea26619c, 0xd186b8c721c0c207, 0xeada7dd6cde0eb1e, 0xf57d4f7fee6ed178][t - 64]
    else if t < 72 then
      [0x06f067aa72176fba, 0x0a637dc5a2c898a6, 0x113f9804bef90dae, 0x1b710b35131c471b][t - 68]
    else if t < 76 then
      [0x28db77f523047d84, 0x32caab7b40c72493, 0x3c9ebe0a15c9bebc, 0x431d67c49c100d4c][t - 72]
    else
      [0x4cc5d4becb3e42b6, 0x597f299cfc657e2a, 0x5fcb6fab3ad6faec, 0x6c44198c4a475817][t - 76]
  }

  function RotR(x: bv64, n: bv7): bv64
    requires 0 < n < 64
  {
    (x >> n) | (x << (64 - n))
  }

  function Ch(x: bv64, y: bv64, z: bv64): bv64 { (x & y) ^ (!x & z) }

  function Maj(x: bv64, y: bv64, z: bv64): bv64 { (x & y) ^ (x & z) ^ (y & z) }

  function Sum0(x: bv64): bv64 { RotR(x, 28) ^ RotR(x, 34) ^ RotR(x, 39) }

  function Sum1(x: bv64): bv64 { RotR(x, 14) ^ RotR(x, 18) ^ RotR(x, 41) }

  function Sigma0(x: bv64): bv64 { RotR(x, 1) ^ RotR(x, 8) ^ (x >> 7) }

  function Sigma1(x: bv64): bv64 { RotR(x, 19) ^ RotR(x, 61) ^ (x >> 6) }

  /** The message schedule: 80 words. */
  function Schedule(block: seq<bv8>, t: nat): bv64 {
    if t < 16 then BlockWord(block, t)
    else
      Add(Add(Add(Sigma1(Schedule(block, t - 2)), Schedule(block, t - 7)), Sigma0(Schedule(block, t - 15))),
        Schedule(block, t - 16))
  }

  function Round(r: Regs, k: bv64, w: bv64): Regs {
    var t1 := Add(Add(Add(Add(r.h, Sum1(r.e)), Ch(r.e, r.f, r.g)), k), w);
    var t2 := Add(Sum0(r.a), Maj(r.a, r.b, r.c));
    Regs(Add(t1, t2), r.a, r.b, r.c, Add(r.d, t1), r.e, r.f, r.g)
  }

  function Rounds(r: Regs, block: seq<bv8>, t: nat): Regs
    requires t <= 80
  {
    if t == 0 then r else Round(Rounds(r, block, t - 1), K(t - 1), Schedule(block, t - 1))
  }

  function AddAll(r: Regs, s: Regs): Regs {
    Regs(Add(r.a, s.a), Add(r.b, s.b), Add(r.c, s.c), Add(r.d, s.d), Add(r.e, s.e), Add(r.f, s.f), Add(r.g, s.g),
      Add(r.h, s.h))
  }

  function Compress(r: Regs, block: seq<bv8>): Regs {
    AddAll(r, Rounds(r, block, 80))
  }

  /** The 64 bytes of a chaining value. */
  function RegsBytes(r: Regs): (d: seq<bv8>)
    ensures |d| == 64
  {
    WordsBytes([r.a, r.b, r.c, r.d, r.e, r.f, r.g, r.h])
  }

  /** The length field: the number of bits, modulo 2^128 (a longer message has no SHA-512). */
  function LengthField(n: nat): (f: seq<bv8>)
    ensures |f| == 16
  {
    BigEndianBytes(8 * n % 0x1_0000_0000_0000_0000_0000_0000_0000_0000, 16)
  }

  /** The chaining value of a padded message. */
  function Hash(initial: Regs, msg: seq<bv8>): Regs {
    Chain(Compress, 128, initial, Padded(128, msg, LengthField(|msg|)))
  }

  /** SHA-512, section 6.4 of FIPS 180-4. */
  function Sha512(msg: seq<bv8>): (d: seq<bv8>)
    ensures |d| == 64
  {
    RegsBytes(Hash(INITIAL512, msg))
  }

  /** SHA-384, section 6.5 of FIPS 180-4. */
  function Sha384(msg: seq<bv8>): (d: seq<bv8>)
    ensures |d| == 48
  {
    RegsBytes(Hash(INITIAL384, msg))[..48]
  }
}
