/** The reflected check is the remainder of a polynomial division too, with all bits the other way round. */
module CrcReflected {
  import opened CrcAlgebra
  import opened CrcDivision

  // ---------------------------------------------------------------------------------------
  // Words the other way round
  // ---------------------------------------------------------------------------------------

  function Swap1(x: bv32): bv32 { ((x >> 1) & 0x5555_5555) | ((x & 0x5555_5555) << 1) }

  function Swap2(x: bv32): bv32 { ((x >> 2) & 0x3333_3333) | ((x & 0x3333_3333) << 2) }

  function Swap4(x: bv32): bv32 { ((x >> 4) & 0x0f0f_0f0f) | ((x & 0x0f0f_0f0f) << 4) }

  function Swap8(x: bv32): bv32 { ((x >> 8) & 0x00ff_00ff) | ((x & 0x00ff_00ff) << 8) }

  function Swap16(x: bv32): bv32 { (x >> 16) | (x << 16) }

  /** A word with its bits in the opposite order. */
  function Mirror(x: bv32): bv32 { Swap16(Swap8(Swap4(Swap2(Swap1(x))))) }

  /** Bit by bit, `m` is `x` the other way round. */
  predicate IsMirror(x: bv32, m: bv32) {
    && (m & 0x1 != 0 <==> x & 0x80000000 != 0) && (m & 0x2 != 0 <==> x & 0x40000000 != 0)
    && (m & 0x4 != 0 <==> x & 0x20000000 != 0) && (m & 0x8 != 0 <==> x & 0x10000000 != 0)
    && (m & 0x10 != 0 <==> x & 0x8000000 != 0) && (m & 0x20 != 0 <==> x & 0x4000000 != 0)
    && (m & 0x40 != 0 <==> x & 0x2000000 != 0) && (m & 0x80 != 0 <==> x & 0x1000000 != 0)
    && (m & 0x100 != 0 <==> x & 0x800000 != 0) && (m & 0x200 != 0 <==> x & 0x400000 != 0)
    && (m & 0x400 != 0 <==> x & 0x200000 != 0) && (m & 0x800 != 0 <==> x & 0x100000 != 0)
    && (m & 0x1000 != 0 <==> x & 0x80000 != 0) && (m & 0x2000 != 0 <==> x & 0x40000 != 0)
    && (m & 0x4000 != 0 <==> x & 0x20000 != 0) && (m & 0x8000 != 0 <==> x & 0x10000 != 0)
    && (m & 0x10000 != 0 <==> x & 0x8000 != 0) && (m & 0x20000 != 0 <==> x & 0x4000 != 0)
    && (m & 0x40000 != 0 <==> x & 0x2000 != 0) && (m & 0x80000 != 0 <==> x & 0x1000 != 0)
    && (m & 0x100000 != 0 <==> x & 0x800 != 0) && (m & 0x200000 != 0 <==> x & 0x400 != 0)
    && (m & 0x400000 != 0 <==> x & 0x200 != 0) && (m & 0x800000 != 0 <==> x & 0x100 != 0)
    && (m & 0x1000000 != 0 <==> x & 0x80 != 0) && (m & 0x2000000 != 0 <==> x & 0x40 != 0)
    && (m & 0x4000000 != 0 <==> x & 0x20 != 0) && (m & 0x8000000 != 0 <==> x & 0x10 != 0)
    && (m & 0x10000000 != 0 <==> x & 0x8 != 0) && (m & 0x20000000 != 0 <==> x & 0x4 != 0)
    && (m & 0x40000000 != 0 <==> x & 0x2 != 0) && (m & 0x80000000 != 0 <==> x & 0x1 != 0)
  }

  lemma MirrorBits(x: bv32)
    ensures IsMirror(x, Mirror(x))
  {
  }

  lemma MirrorXor(x: bv32, y: bv32)
    ensures Mirror(Xor(x, y)) == Xor(Mirror(x), Mirror(y))
  {
  }

  function Double(x: bv32): bv32 { x << 1 }

  lemma HalfBits(x: bv32, y: bv32, m: bv32, n: bv32)
    requires y == x >> 1 && IsMirror(x, m) && IsMirror(y, n)
    ensures n == m << 1
  {
  }

  lemma HalfMirror(x: bv32, y: bv32, m: bv32, n: bv32)
    requires y == Half(x) && IsMirror(x, m) && IsMirror(y, n)
    ensures n == Double(m)
  {
    hide IsMirror;
    HalfBits(x, y, m, n);
  }

  lemma MirrorHalf(x: bv32)
    ensures Mirror(Half(x)) == Double(Mirror(x))
  {
    hide Mirror, IsMirror, Half, Double;
    MirrorBits(x);
    MirrorBits(Half(x));
    HalfMirror(x, Half(x), Mirror(x), Mirror(Half(x)));
  }

  lemma MirrorTwice(x: bv32)
    ensures Mirror(Mirror(x)) == x
  {
  }

  lemma MirrorZero()
    ensures Mirror(0) == 0
  {
  }

  lemma MirrorLowest(x: bv32)
    ensures x & 1 != 0 <==> Mirror(x) & 0x8000_0000 != 0
  {
  }

  lemma StepParts(p: bv32, x: bv32)
    ensures Step(p, x) == Xor(Half(x), if x & 1 != 0 then p else 0)
  {
  }

  lemma TurnParts(p: bv32, x: bv32)
    ensures Turn(p, x) == Xor(Double(x), if x & 0x8000_0000 != 0 then p else 0)
  {
    hide Turn, Xor, Double;
    if x & 0x8000_0000 != 0 {
      TurnSet(p, x, Double(x));
    } else {
      TurnClear(p, x);
      XorZero(Double(x));
    }
  }

  lemma TurnSet(p: bv32, x: bv32, d: bv32)
    requires x & 0x8000_0000 != 0 && d == Double(x)
    ensures Turn(p, x) == Xor(d, p)
  {
  }

  lemma TurnClear(p: bv32, x: bv32)
    requires x & 0x8000_0000 == 0
    ensures Turn(p, x) == Double(x)
  {
  }

  /** A step is a turn the other way round. */
  lemma MirrorStep(p: bv32, x: bv32)
    ensures Mirror(Step(p, x)) == Turn(Mirror(p), Mirror(x))
  {
    hide Mirror, Step, Turn, Xor, Half, Double;
    StepParts(p, x);
    TurnParts(Mirror(p), Mirror(x));
    MirrorXor(Half(x), if x & 1 != 0 then p else 0);
    MirrorHalf(x);
    MirrorLowest(x);
    MirrorZero();
  }

  lemma {:induction false} MirrorSteps(p: bv32, x: bv32, k: nat)
    ensures Mirror(Steps(p, x, k)) == Turns(Mirror(p), Mirror(x), k)
    decreases k
  {
    hide Mirror, Step, Turn;
    if k > 0 {
      MirrorStep(p, x);
      MirrorSteps(p, Step(p, x), k - 1);
    }
  }

  // ---------------------------------------------------------------------------------------
  // Bytes
  // ---------------------------------------------------------------------------------------

  /** A byte with its bits in the opposite order. */
  function Flip(c: bv8): bv8 {
    var c1 := ((c >> 1) & 0x55) | ((c & 0x55) << 1);
    var c2 := ((c1 >> 2) & 0x33) | ((c1 & 0x33) << 2);
    (c2 >> 4) | (c2 << 4)
  }

  /** The bits of a byte, the least significant first. */
  function LowFirst(c: bv8): (bits: seq<bool>)
    ensures |bits| == 8
  {
    [c & 1 != 0, c & 2 != 0, c & 4 != 0, c & 8 != 0, c & 0x10 != 0, c & 0x20 != 0, c & 0x40 != 0, c & 0x80 != 0]
  }

  /** The bits of a message in the order in which a serial line sends them. */
  function SerialBits(data: seq<bv8>): (bits: seq<bool>)
    ensures |bits| == 8 * |data|
  {
    if data == [] then [] else LowFirst(data[0]) + SerialBits(data[1..])
  }

  lemma FlippedBits(c: bv8)
    ensures ByteBits(Flip(c)) == LowFirst(c)
  {
  }

  lemma MirrorWide(c: bv8)
    ensures Mirror(Wide(c)) == Top(Flip(c))
  {
  }

  lemma MirrorByte(p: bv32, s: bv32, c: bv8)
    ensures Mirror(StepByte(p, s, c)) == TurnByte(Mirror(p), Mirror(s), Flip(c))
  {
    hide Mirror, Steps, Turns, Xor, Wide, Top, Flip;
    MirrorSteps(p, Xor(s, Wide(c)), 8);
    MirrorXor(s, Wide(c));
    MirrorWide(c);
  }

  /** The register after the bytes of a message. */
  function StepBytes(p: bv32, s: bv32, data: seq<bv8>): bv32 {
    if data == [] then s else StepByte(p, StepBytes(p, s, data[..|data| - 1]), data[|data| - 1])
  }

  lemma {:induction false} SerialSnoc(data: seq<bv8>, c: bv8)
    ensures SerialBits(data + [c]) == SerialBits(data) + LowFirst(c)
  {
    hide LowFirst;
    if data == [] {
      assert [c][1..] == [];
      assert data + [c] == [c];
    } else {
      assert (data + [c])[1..] == data[1..] + [c];
      SerialSnoc(data[1..], c);
    }
  }

  /** One byte is fed as its bits, the least significant first. */
  lemma ByteFeeds(p: bv32, r: bv32, c: bv8)
    ensures TurnByte(p, r, Flip(c)) == Feed(p, r, LowFirst(c))
  {
    hide Turns, Feed, ByteBits, LowFirst, Flip, Xor;
    FlippedBits(c);
    TurnsFeed(p, r, Flip(c), 0);
    RisingTop(Flip(c));
    assert ByteBits(Flip(c))[0..] == ByteBits(Flip(c));
  }

  /** The reflected register, the other way round, is fed with the bits of a serial line. */
  lemma {:induction false} MirrorBytes(p: bv32, s: bv32, data: seq<bv8>)
    ensures Mirror(StepBytes(p, s, data)) == Feed(Mirror(p), Mirror(s), SerialBits(data))
  {
    hide Mirror, StepByte, TurnByte, Feed, LowFirst, Flip;
    if data == [] {
      FedNothing(Mirror(p), Mirror(s));
    } else {
      var front, c := data[..|data| - 1], data[|data| - 1];
      MirrorBytes(p, s, front);
      assert data == front + [c];
      SerialSnoc(front, c);
      FeedAppend(Mirror(p), Mirror(s), SerialBits(front), LowFirst(c));
      MirrorByte(p, StepBytes(p, s, front), c);
      ByteFeeds(Mirror(p), Mirror(StepBytes(p, s, front)), c);
    }
  }

  // ---------------------------------------------------------------------------------------
  // Starting with any register
  // ---------------------------------------------------------------------------------------

  function NoBits(n: nat): (bits: seq<bool>)
    ensures |bits| == n
  {
    seq(n, _ => false)
  }

  /** What the register starts with, and the message, go through the division independently. */
  lemma {:induction false} FeedLinear(p: bv32, r: bv32, s: bv32, bits: seq<bool>)
    ensures Feed(p, Xor(r, s), bits) == Xor(Turns(p, r, |bits|), Feed(p, s, bits))
    decreases bits
  {
    hide Xor, Turn, TopBit;
    if bits != [] {
      var b := TopBit(bits[0]);
      XorAssociates(r, s, b);
      TurnLinear(p, r, Xor(s, b));
      FeedLinear(p, Turn(p, r), Turn(p, Xor(s, b)), bits[1..]);
    }
  }

  /** The register is the sum of two remainders: of what it starts with times x^n, and of the message of
      `n` bits times x^32. */
  lemma FeedIsSum(p: bv32, s: bv32, bits: seq<bool>)
    ensures Feed(p, s, bits) == Xor(Divide(p, s, NoBits(|bits|)), Divide(p, 0, bits + NoBits(32)))
  {
    hide Xor, Turns, Feed, Divide;
    XorZero(s);
    FeedLinear(p, s, 0, bits);
    DivideZeros(p, s, |bits|);
    FeedIsRemainder(p, bits);
  }

  /** The reflected check of a message, for every polynomial and register to start with. */
  lemma ReflectedIsDivision(p: bv32, s: bv32, data: seq<bv8>)
    ensures Mirror(StepBytes(p, s, data))
         == Xor(Divide(Mirror(p), Mirror(s), NoBits(8 * |data|)),
                Divide(Mirror(p), 0, SerialBits(data) + NoBits(32)))
  {
    hide Mirror, Xor, Divide, StepBytes, Feed, NoBits;
    MirrorBytes(p, s, data);
    FeedIsSum(Mirror(p), Mirror(s), SerialBits(data));
  }
}
