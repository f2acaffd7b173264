/** Cyclic redundancy checks, one bit at a time, and their algebra. */
module CrcAlgebra {

  function Xor(x: bv32, y: bv32): bv32 { x ^ y }

  // ---------------------------------------------------------------------------------------
  // One bit
  // ---------------------------------------------------------------------------------------

  /** One step of division by the polynomial `p`, the register turned right (reflected). */
  function Step(p: bv32, x: bv32): bv32 { (x >> 1) ^ (if x & 1 != 0 then p else 0) }

  /** One step of division by the polynomial `p`, the register turned left. */
  function Turn(p: bv32, x: bv32): bv32 { (x << 1) ^ (if x & 0x8000_0000 != 0 then p else 0) }

  function Steps(p: bv32, x: bv32, k: nat): bv32
    decreases k
  {
    if k == 0 then x else Steps(p, Step(p, x), k - 1)
  }

  function Turns(p: bv32, x: bv32, k: nat): bv32
    decreases k
  {
    if k == 0 then x else Turns(p, Turn(p, x), k - 1)
  }

  // The definitions as relations between variables: the solver decides facts about bits when
  // no functions stand between them.

  predicate IsXor(x: bv32, y: bv32, z: bv32) { z == x ^ y }

  predicate IsStep(p: bv32, x: bv32, s: bv32) { s == (x >> 1) ^ (if x & 1 != 0 then p else 0) }

  predicate IsTurn(p: bv32, x: bv32, s: bv32) { s == (x << 1) ^ (if x & 0x8000_0000 != 0 then p else 0) }

  lemma XorIs(x: bv32, y: bv32, z: bv32)
    ensures IsXor(x, y, z) <==> z == Xor(x, y)
  {
  }

  lemma StepIs(p: bv32, x: bv32)
    ensures IsStep(p, x, Step(p, x))
  {
  }

  lemma TurnIs(p: bv32, x: bv32)
    ensures IsTurn(p, x, Turn(p, x))
  {
  }

  lemma StepLinearBits(p: bv32, x: bv32, y: bv32, z: bv32, sx: bv32, sy: bv32, sz: bv32)
    requires IsXor(x, y, z) && IsStep(p, x, sx) && IsStep(p, y, sy) && IsStep(p, z, sz)
    ensures IsXor(sx, sy, sz)
  {
    StepBits(p, x, y);
  }

  lemma StepBits(p: bv32, x: bv32, y: bv32)
    ensures ((x ^ y) >> 1) ^ (if (x ^ y) & 1 != 0 then p else 0)
         == (x >> 1) ^ (if x & 1 != 0 then p else 0) ^ ((y >> 1) ^ (if y & 1 != 0 then p else 0))
  {
  }

  lemma TurnLinearBits(p: bv32, x: bv32, y: bv32, z: bv32, sx: bv32, sy: bv32, sz: bv32)
    requires IsXor(x, y, z) && IsTurn(p, x, sx) && IsTurn(p, y, sy) && IsTurn(p, z, sz)
    ensures IsXor(sx, sy, sz)
  {
    TurnBits(p, x, y);
  }

  lemma TurnBits(p: bv32, x: bv32, y: bv32)
    ensures ((x ^ y) << 1) ^ (if (x ^ y) & 0x8000_0000 != 0 then p else 0)
         == (x << 1) ^ (if x & 0x8000_0000 != 0 then p else 0) ^ ((y << 1) ^ (if y & 0x8000_0000 != 0 then p else 0))
  {
  }

  lemma StepLinear(p: bv32, x: bv32, y: bv32)
    ensures Step(p, Xor(x, y)) == Xor(Step(p, x), Step(p, y))
  {
    hide Xor, Step, IsXor, IsStep;
    var z := Xor(x, y);
    XorIs(x, y, z);
    StepIs(p, x);
    StepIs(p, y);
    StepIs(p, z);
    StepLinearBits(p, x, y, z, Step(p, x), Step(p, y), Step(p, z));
    XorIs(Step(p, x), Step(p, y), Step(p, z));
  }

  lemma TurnLinear(p: bv32, x: bv32, y: bv32)
    ensures Turn(p, Xor(x, y)) == Xor(Turn(p, x), Turn(p, y))
  {
    hide Xor, Turn, IsXor, IsTurn;
    var z := Xor(x, y);
    XorIs(x, y, z);
    TurnIs(p, x);
    TurnIs(p, y);
    TurnIs(p, z);
    TurnLinearBits(p, x, y, z, Turn(p, x), Turn(p, y), Turn(p, z));
    XorIs(Turn(p, x), Turn(p, y), Turn(p, z));
  }

  lemma {:induction false} StepsLinear(p: bv32, x: bv32, y: bv32, k: nat)
    ensures Steps(p, Xor(x, y), k) == Xor(Steps(p, x, k), Steps(p, y, k))
    decreases k
  {
    hide Xor, Step;
    if k > 0 {
      StepLinear(p, x, y);
      StepsLinear(p, Step(p, x), Step(p, y), k - 1);
    }
  }

  lemma {:induction false} TurnsLinear(p: bv32, x: bv32, y: bv32, k: nat)
    ensures Turns(p, Xor(x, y), k) == Xor(Turns(p, x, k), Turns(p, y, k))
    decreases k
  {
    hide Xor, Turn;
    if k > 0 {
      TurnLinear(p, x, y);
      TurnsLinear(p, Turn(p, x), Turn(p, y), k - 1);
    }
  }

  lemma {:induction false} TurnsAdd(p: bv32, x: bv32, j: nat, k: nat)
    ensures Turns(p, Turns(p, x, j), k) == Turns(p, x, j + k)
    decreases j
  {
    hide Turn;
    if j > 0 {
      TurnsAdd(p, Turn(p, x), j - 1, k);
    }
  }

  // The algebra of exclusive or.

  lemma XorBits(x: bv32, y: bv32, z: bv32, xy: bv32, yz: bv32, left: bv32, right: bv32)
    requires IsXor(x, y, xy) && IsXor(y, z, yz) && IsXor(xy, z, left) && IsXor(x, yz, right)
    ensures left == right
  {
  }

  lemma XorAssociates(x: bv32, y: bv32, z: bv32)
    ensures Xor(Xor(x, y), z) == Xor(x, Xor(y, z))
  {
    hide Xor, IsXor;
    XorIs(x, y, Xor(x, y));
    XorIs(y, z, Xor(y, z));
    XorIs(Xor(x, y), z, Xor(Xor(x, y), z));
    XorIs(x, Xor(y, z), Xor(x, Xor(y, z)));
    XorBits(x, y, z, Xor(x, y), Xor(y, z), Xor(Xor(x, y), z), Xor(x, Xor(y, z)));
  }

  lemma XorZero(x: bv32)
    ensures Xor(x, 0) == x && Xor(0, x) == x
  {
  }

  lemma {:induction false} ZeroStays(p: bv32, k: nat)
    ensures Turns(p, 0, k) == 0
    decreases k
  {
    if k > 0 {
      assert Turn(p, 0) == 0;
      ZeroStays(p, k - 1);
    }
  }

  // ---------------------------------------------------------------------------------------
  // One byte
  // ---------------------------------------------------------------------------------------

  lemma StepOut(p: bv32, x: bv32, s: bv32)
    requires x & 1 == 0 && s == x >> 1
    ensures Step(p, x) == s
  {
  }

  lemma TurnOut(p: bv32, x: bv32, s: bv32)
    requires x & 0x8000_0000 == 0 && s == x << 1
    ensures Turn(p, x) == s
  {
  }

  /** The high bytes of `z`, moved down `k` places. */
  function HighPart(z: bv32, k: nat): bv32
    requires k <= 8
  {
    if k == 0 then z & 0xffff_ff00
    else if k == 1 then (z & 0xffff_ff00) >> 1
    else if k == 2 then (z & 0xffff_ff00) >> 2
    else if k == 3 then (z & 0xffff_ff00) >> 3
    else if k == 4 then (z & 0xffff_ff00) >> 4
    else if k == 5 then (z & 0xffff_ff00) >> 5
    else if k == 6 then (z & 0xffff_ff00) >> 6
    else if k == 7 then (z & 0xffff_ff00) >> 7
    else z >> 8
  }

  /** The low bytes of `z`, moved up `k` places. */
  function LowPart(z: bv32, k: nat): bv32
    requires k <= 8
  {
    if k == 0 then z & 0x00ff_ffff
    else if k == 1 then (z & 0x00ff_ffff) << 1
    else if k == 2 then (z & 0x00ff_ffff) << 2
    else if k == 3 then (z & 0x00ff_ffff) << 3
    else if k == 4 then (z & 0x00ff_ffff) << 4
    else if k == 5 then (z & 0x00ff_ffff) << 5
    else if k == 6 then (z & 0x00ff_ffff) << 6
    else if k == 7 then (z & 0x00ff_ffff) << 7
    else z << 8
  }

  lemma HighPartStep(p: bv32, z: bv32, k: nat)
    requires k < 8
    ensures Step(p, HighPart(z, k)) == HighPart(z, k + 1)
  {
    hide Step;
    if k == 0 { StepOut(p, z & 0xffff_ff00, (z & 0xffff_ff00) >> 1); }
    else if k == 1 { StepOut(p, (z & 0xffff_ff00) >> 1, (z & 0xffff_ff00) >> 2); }
    else if k == 2 { StepOut(p, (z & 0xffff_ff00) >> 2, (z & 0xffff_ff00) >> 3); }
    else if k == 3 { StepOut(p, (z & 0xffff_ff00) >> 3, (z & 0xffff_ff00) >> 4); }
    else if k == 4 { StepOut(p, (z & 0xffff_ff00) >> 4, (z & 0xffff_ff00) >> 5); }
    else if k == 5 { StepOut(p, (z & 0xffff_ff00) >> 5, (z & 0xffff_ff00) >> 6); }
    else if k == 6 { StepOut(p, (z & 0xffff_ff00) >> 6, (z & 0xffff_ff00) >> 7); }
    else { StepOut(p, (z & 0xffff_ff00) >> 7, z >> 8); }
  }

  lemma LowPartTurn(p: bv32, z: bv32, k: nat)
    requires k < 8
    ensures Turn(p, LowPart(z, k)) == LowPart(z, k + 1)
  {
    hide Turn;
    if k == 0 { TurnOut(p, z & 0x00ff_ffff, (z & 0x00ff_ffff) << 1); }
    else if k == 1 { TurnOut(p, (z & 0x00ff_ffff) << 1, (z & 0x00ff_ffff) << 2); }
    else if k == 2 { TurnOut(p, (z & 0x00ff_ffff) << 2, (z & 0x00ff_ffff) << 3); }
    else if k == 3 { TurnOut(p, (z & 0x00ff_ffff) << 3, (z & 0x00ff_ffff) << 4); }
    else if k == 4 { TurnOut(p, (z & 0x00ff_ffff) << 4, (z & 0x00ff_ffff) << 5); }
    else if k == 5 { TurnOut(p, (z & 0x00ff_ffff) << 5, (z & 0x00ff_ffff) << 6); }
    else if k == 6 { TurnOut(p, (z & 0x00ff_ffff) << 6, (z & 0x00ff_ffff) << 7); }
    else { TurnOut(p, (z & 0x00ff_ffff) << 7, z << 8); }
  }

  lemma {:induction false} HighPartSteps(p: bv32, z: bv32, k: nat)
    requires k <= 8
    ensures Steps(p, HighPart(z, k), 8 - k) == HighPart(z, 8)
    decreases 8 - k
  {
    hide Step, HighPart;
    if k < 8 {
      HighPartStep(p, z, k);
      HighPartSteps(p, z, k + 1);
    }
  }

  lemma {:induction false} LowPartTurns(p: bv32, z: bv32, k: nat)
    requires k <= 8
    ensures Turns(p, LowPart(z, k), 8 - k) == LowPart(z, 8)
    decreases 8 - k
  {
    hide Turn, LowPart;
    if k < 8 {
      LowPartTurn(p, z, k);
      LowPartTurns(p, z, k + 1);
    }
  }

  function Wide(c: bv8): bv32 { c as bv32 }

  function High(x: bv32): bv32 { x << 24 }

  function Shr8(x: bv32): bv32 { x >> 8 }

  function Shl8(x: bv32): bv32 { x << 8 }

  // The table indices of the two forms.

  function LowIndex(s: bv32, c: bv8): bv32 { (s ^ (c as bv32)) & 0xff }

  function HighIndex(s: bv32, c: bv8): bv32 { ((s >> 24) ^ (c as bv32)) & 0xff }

  /** The register after a byte, reflected: eight steps. */
  function StepByte(p: bv32, s: bv32, c: bv8): bv32 { Steps(p, Xor(s, Wide(c)), 8) }

  /** The register after a byte: eight turns. */
  function TurnByte(p: bv32, s: bv32, c: bv8): bv32 { Turns(p, Xor(s, Top(c)), 8) }

  /** A byte at the top of the register. */
  function Top(c: bv8): bv32 { (c as bv32) << 24 }

  lemma LowSplit(s: bv32, c: bv8)
    ensures Xor(s, Wide(c)) == Xor(HighPart(s, 0), LowIndex(s, c))
  {
    hide Xor, HighPart;
    NarrowWord(c);
    HighPartZero(s);
    LowBits(s, Wide(c));
  }

  lemma HighPartZero(z: bv32)
    ensures HighPart(z, 0) == z & 0xffff_ff00
  {
  }

  lemma LowBits(s: bv32, w: bv32)
    requires w & 0xffff_ff00 == 0
    ensures Xor(s & 0xffff_ff00, (s ^ w) & 0xff) == Xor(s, w)
  {
    assert (s & 0xffff_ff00) ^ ((s ^ w) & 0xff) == s ^ w;
  }

  lemma NarrowWord(c: bv8)
    ensures Wide(c) & 0xffff_ff00 == 0
  {
  }

  function TopIndex(s: bv32, c: bv8): bv32 { (((s >> 24) ^ (c as bv32)) & 0xff) << 24 }

  lemma TopIndexIs(s: bv32, c: bv8)
    ensures High(HighIndex(s, c)) == TopIndex(s, c)
  {
  }

  lemma HighSplit(s: bv32, c: bv8)
    ensures Xor(s, Top(c)) == Xor(LowPart(s, 0), TopIndex(s, c))
  {
    assert (s & 0x00ff_ffff) ^ ((((s >> 24) ^ (c as bv32)) & 0xff) << 24) == s ^ ((c as bv32) << 24);
  }

  /** The table step is eight steps of division, for every state and byte. */
  lemma TableStep(p: bv32, s: bv32, c: bv8)
    ensures Xor(Shr8(s), Steps(p, LowIndex(s, c), 8)) == StepByte(p, s, c)
  {
    hide Steps, Xor, LowIndex, Wide;
    LowSplit(s, c);
    HighPartSteps(p, s, 0);
    StepsLinear(p, HighPart(s, 0), LowIndex(s, c), 8);
  }

  /** The same for the rotating form; the byte goes in at the top. */
  lemma TableTurn(p: bv32, s: bv32, c: bv8)
    ensures Xor(Shl8(s), Turns(p, High(HighIndex(s, c)), 8)) == TurnByte(p, s, c)
  {
    hide Turns, Xor, HighIndex, High, Top, TopIndex;
    HighSplit(s, c);
    TopIndexIs(s, c);
    LowPartTurns(p, s, 0);
    TurnsLinear(p, LowPart(s, 0), TopIndex(s, c), 8);
  }

  // ---------------------------------------------------------------------------------------
  // The table of the rotating form
  // ---------------------------------------------------------------------------------------

  /** What is left of an index after `j` of its bits, the lowest first. */
  function Left(i: bv32, j: nat): bv32
    requires j <= 8
  {
    if j == 0 then i & 0xff
    else if j == 1 then (i & 0xff) >> 1
    else if j == 2 then (i & 0xff) >> 2
    else if j == 3 then (i & 0xff) >> 3
    else if j == 4 then (i & 0xff) >> 4
    else if j == 5 then (i & 0xff) >> 5
    else if j == 6 then (i & 0xff) >> 6
    else if j == 7 then (i & 0xff) >> 7
    else 0
  }

  lemma LeftStep(i: bv32, j: nat)
    requires j < 8
    ensures Left(i, j) >> 1 == Left(i, j + 1)
    ensures Small(Left(i, j))
  {
    if j == 0 { assert ((i & 0xff)) & 0xffff_ff00 == 0; }
    else if j == 1 { assert ((i & 0xff) >> 1) & 0xffff_ff00 == 0; }
    else if j == 2 { assert ((i & 0xff) >> 2) & 0xffff_ff00 == 0; }
    else if j == 3 { assert ((i & 0xff) >> 3) & 0xffff_ff00 == 0; }
    else if j == 4 { assert ((i & 0xff) >> 4) & 0xffff_ff00 == 0; }
    else if j == 5 { assert ((i & 0xff) >> 5) & 0xffff_ff00 == 0; }
    else if j == 6 { assert ((i & 0xff) >> 6) & 0xffff_ff00 == 0; }
    else { assert ((i & 0xff) >> 7) & 0xffff_ff00 == 0; }
  }

  predicate Small(x: bv32) { x & 0xffff_ff00 == 0 }

  lemma IndexIsLeft(i: nat)
    requires i < 256
    ensures i as bv32 == Left(i as bv32, 0)
  {
  }

  function Half(x: bv32): bv32 { x >> 1 }

  function Bit(x: bv32): bv32 { x & 1 }

  function HighHalf(x: bv32): bv32 { (x >> 1) << 24 }

  function HighPair(x: bv32): bv32 { (x >> 1) << 25 }

  lemma HighOfHalf(x: bv32)
    ensures High(Half(x)) == HighHalf(x)
  {
  }

  lemma SplitBit(x: bv32)
    requires Small(x)
    ensures High(x) == Xor(HighBit(x), HighPair(x))
  {
    assert x << 24 == ((x & 1) << 24) ^ ((x >> 1) << 25);
  }

  function HighBit(x: bv32): bv32 { (x & 1) << 24 }

  lemma PairIsTurn(p: bv32, x: bv32)
    requires Small(x)
    ensures Turn(p, HighHalf(x)) == HighPair(x)
  {
    hide Turn;
    assert ((x >> 1) << 24) & 0x8000_0000 == 0;
    TurnOut(p, (x >> 1) << 24, (x >> 1) << 25);
  }

  /** The lowest bit of an index, after eight turns, is the polynomial. */
  lemma TurnedBit(p: bv32)
    ensures Turns(p, 0x0100_0000, 8) == p
  {
    hide Turn;
    TurnOut(p, 0x0100_0000, 0x0200_0000);
    TurnOut(p, 0x0200_0000, 0x0400_0000);
    TurnOut(p, 0x0400_0000, 0x0800_0000);
    TurnOut(p, 0x0800_0000, 0x1000_0000);
    TurnOut(p, 0x1000_0000, 0x2000_0000);
    TurnOut(p, 0x2000_0000, 0x4000_0000);
    TurnOut(p, 0x4000_0000, 0x8000_0000);
    TurnTop(p);
    assert Turns(p, 0x4000_0000, 2) == Turns(p, 0x8000_0000, 1) == Turns(p, p, 0);
    assert Turns(p, 0x1000_0000, 4) == Turns(p, 0x2000_0000, 3) == Turns(p, 0x4000_0000, 2);
    assert Turns(p, 0x0400_0000, 6) == Turns(p, 0x0800_0000, 5) == Turns(p, 0x1000_0000, 4);
    assert Turns(p, 0x0100_0000, 8) == Turns(p, 0x0200_0000, 7) == Turns(p, 0x0400_0000, 6);
  }

  lemma TurnTop(p: bv32)
    ensures Turn(p, 0x8000_0000) == p
  {
  }

  lemma HighBitIs(x: bv32)
    ensures HighBit(x) == if Bit(x) == 0 then 0 else 0x0100_0000
  {
  }

  /** One bit of an index: `t` collects the turned polynomials of the bits that are set. */
  lemma TableBit(p: bv32, x: bv32, j: nat)
    requires Small(x)
    ensures Turns(p, High(x), 8 + j)
         == Xor(if Bit(x) == 0 then 0 else Turns(p, p, j), Turns(p, High(Half(x)), 9 + j))
  {
    hide Xor, Turn, High, Half, Bit, Small, HighHalf, HighPair, HighBit, Turns;
    SplitBit(x);
    TurnsLinear(p, HighBit(x), HighPair(x), 8 + j);
    HighBitIs(x);
    ZeroStays(p, 8 + j);
    TurnedBit(p);
    TurnsAdd(p, 0x0100_0000, 8, j);
    PairIsTurn(p, x);
    HighOfHalf(x);
    OneTurn(p, HighHalf(x), 9 + j);
  }

  lemma OneTurn(p: bv32, x: bv32, k: nat)
    requires k > 0
    ensures Turns(p, x, k) == Turns(p, Turn(p, x), k - 1)
  {
  }
}
