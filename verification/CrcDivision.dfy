/** The rotating check is the remainder of a polynomial division. */
module CrcDivision {
  import opened CrcAlgebra

  /** Long division modulo two: the next bit of the dividend is brought down, and the divisor is
      taken away if the bit that leaves at the top is set. */
  function Divide(p: bv32, r: bv32, bits: seq<bool>): bv32
    decreases bits
  {
    if bits == [] then r else Divide(p, Xor(Turn(p, r), LowBit(bits[0])), bits[1..])
  }

  /** The register is fed with bits at its top. */
  function Feed(p: bv32, r: bv32, bits: seq<bool>): bv32
    decreases bits
  {
    if bits == [] then r else Feed(p, Turn(p, Xor(r, TopBit(bits[0]))), bits[1..])
  }

  function LowBit(b: bool): bv32 { if b then 1 else 0 }

  function TopBit(b: bool): bv32 { if b then 0x8000_0000 else 0 }

  // ---------------------------------------------------------------------------------------
  // Feeding is dividing
  // ---------------------------------------------------------------------------------------

  lemma ByteUp0(p: bv32)
    ensures Turns(p, 0x1, 8) == 0x100
  {
    hide Turn;
    TurnOut(p, 0x1, 0x2);
    TurnOut(p, 0x2, 0x4);
    TurnOut(p, 0x4, 0x8);
    TurnOut(p, 0x8, 0x10);
    TurnOut(p, 0x10, 0x20);
    TurnOut(p, 0x20, 0x40);
    TurnOut(p, 0x40, 0x80);
    TurnOut(p, 0x80, 0x100);
    assert Turns(p, 0x40, 2) == Turns(p, 0x80, 1) == Turns(p, 0x100, 0);
    assert Turns(p, 0x10, 4) == Turns(p, 0x20, 3) == Turns(p, 0x40, 2);
    assert Turns(p, 0x4, 6) == Turns(p, 0x8, 5) == Turns(p, 0x10, 4);
    assert Turns(p, 0x1, 8) == Turns(p, 0x2, 7) == Turns(p, 0x4, 6);
  }

  lemma ByteUp1(p: bv32)
    ensures Turns(p, 0x100, 8) == 0x10000
  {
    hide Turn;
    TurnOut(p, 0x100, 0x200);
    TurnOut(p, 0x200, 0x400);
    TurnOut(p, 0x400, 0x800);
    TurnOut(p, 0x800, 0x1000);
    TurnOut(p, 0x1000, 0x2000);
    TurnOut(p, 0x2000, 0x4000);
    TurnOut(p, 0x4000, 0x8000);
    TurnOut(p, 0x8000, 0x10000);
    assert Turns(p, 0x4000, 2) == Turns(p, 0x8000, 1) == Turns(p, 0x10000, 0);
    assert Turns(p, 0x1000, 4) == Turns(p, 0x2000, 3) == Turns(p, 0x4000, 2);
    assert Turns(p, 0x400, 6) == Turns(p, 0x800, 5) == Turns(p, 0x1000, 4);
    assert Turns(p, 0x100, 8) == Turns(p, 0x200, 7) == Turns(p, 0x400, 6);
  }

  lemma ByteUp2(p: bv32)
    ensures Turns(p, 0x10000, 8) == 0x1000000
  {
    hide Turn;
    TurnOut(p, 0x10000, 0x20000);
    TurnOut(p, 0x20000, 0x40000);
    TurnOut(p, 0x40000, 0x80000);
    TurnOut(p, 0x80000, 0x100000);
    TurnOut(p, 0x100000, 0x200000);
    TurnOut(p, 0x200000, 0x400000);
    TurnOut(p, 0x400000, 0x800000);
    TurnOut(p, 0x800000, 0x1000000);
    assert Turns(p, 0x400000, 2) == Turns(p, 0x800000, 1) == Turns(p, 0x1000000, 0);
    assert Turns(p, 0x100000, 4) == Turns(p, 0x200000, 3) == Turns(p, 0x400000, 2);
    assert Turns(p, 0x40000, 6) == Turns(p, 0x80000, 5) == Turns(p, 0x100000, 4);
    assert Turns(p, 0x10000, 8) == Turns(p, 0x20000, 7) == Turns(p, 0x40000, 6);
  }

  /** A bit at the bottom, after 32 turns, is a bit at the top after one. */
  lemma BitMeetsDivisor(p: bv32, b: bool)
    ensures Turns(p, LowBit(b), 32) == Turn(p, TopBit(b))
  {
    hide Turn, Turns;
    if b {
      ByteUp0(p);
      ByteUp1(p);
      ByteUp2(p);
      TurnedBit(p);
      TurnsAdd(p, 1, 8, 24);
      TurnsAdd(p, 0x100, 8, 16);
      TurnsAdd(p, 0x1_0000, 8, 8);
      TurnTop(p);
    } else {
      ZeroStays(p, 32);
      ZeroStays(p, 1);
      OneTurn(p, 0, 1);
      NoTurn(p, Turn(p, 0));
    }
  }

  lemma NoTurn(p: bv32, x: bv32)
    ensures Turns(p, x, 0) == x
  {
  }

  /** Feeding the bits is dividing them with 32 zero bits appended. */
  lemma {:induction false} FeedDivides(p: bv32, r: bv32, bits: seq<bool>)
    ensures Turns(p, Divide(p, r, bits), 32) == Feed(p, Turns(p, r, 32), bits)
    decreases bits
  {
    hide Turn, Turns, Xor, LowBit, TopBit;
    if bits != [] {
      var b := bits[0];
      FeedDivides(p, Xor(Turn(p, r), LowBit(b)), bits[1..]);
      TurnsLinear(p, Turn(p, r), LowBit(b), 32);
      BitMeetsDivisor(p, b);
      TurnLinear(p, Turns(p, r, 32), TopBit(b));
      TurnInside(p, r, 32);
    }
  }

  lemma TurnInside(p: bv32, x: bv32, k: nat)
    ensures Turns(p, Turn(p, x), k) == Turn(p, Turns(p, x, k))
  {
    hide Turn;
    OneTurn(p, x, k + 1);
    TurnsAdd(p, x, k, 1);
    OneTurn(p, Turns(p, x, k), 1);
    NoTurn(p, Turn(p, Turns(p, x, k)));
  }

  lemma {:induction false} DivideZeros(p: bv32, r: bv32, k: nat)
    ensures Divide(p, r, seq(k, _ => false)) == Turns(p, r, k)
    decreases k
  {
    hide Turn, Xor;
    if k > 0 {
      var zeros := seq(k, _ => false);
      assert zeros[1..] == seq(k - 1, _ => false);
      XorZero(Turn(p, r));
      DivideZeros(p, Turn(p, r), k - 1);
    }
  }

  lemma {:induction false} DivideAppend(p: bv32, r: bv32, a: seq<bool>, b: seq<bool>)
    ensures Divide(p, r, a + b) == Divide(p, Divide(p, r, a), b)
    decreases a
  {
    hide Turn, Xor;
    if a == [] {
      assert a + b == b;
    } else {
      assert (a + b)[1..] == a[1..] + b;
      DivideAppend(p, Xor(Turn(p, r), LowBit(a[0])), a[1..], b);
    }
  }

  /** Starting from zero, the register after the bits is the remainder of the bits followed by
      32 zero bits: of the message times x^32. */
  lemma FeedIsRemainder(p: bv32, bits: seq<bool>)
    ensures Feed(p, 0, bits) == Divide(p, 0, bits + seq(32, _ => false))
  {
    FeedDivides(p, 0, bits);
    ZeroStays(p, 32);
    DivideAppend(p, 0, bits, seq(32, _ => false));
    DivideZeros(p, Divide(p, 0, bits), 32);
  }

  // ---------------------------------------------------------------------------------------
  // Bytes
  // ---------------------------------------------------------------------------------------

  /** The bits of a byte, the most significant first. */
  function ByteBits(c: bv8): (bits: seq<bool>)
    ensures |bits| == 8
  {
    [c & 0x80 != 0, c & 0x40 != 0, c & 0x20 != 0, c & 0x10 != 0, c & 8 != 0, c & 4 != 0, c & 2 != 0, c & 1 != 0]
  }

  function MessageBits(data: seq<bv8>): seq<bool> {
    if data == [] then [] else ByteBits(data[0]) + MessageBits(data[1..])
  }

  /** A byte at the top after `k` of its bits have left. */
  function Rising(c: bv8, k: nat): bv32
    requires k <= 8
  {
    if k == 0 then (c as bv32) << 24
    else if k == 1 then (c as bv32) << 25
    else if k == 2 then (c as bv32) << 26
    else if k == 3 then (c as bv32) << 27
    else if k == 4 then (c as bv32) << 28
    else if k == 5 then (c as bv32) << 29
    else if k == 6 then (c as bv32) << 30
    else if k == 7 then (c as bv32) << 31
    else 0
  }

  /** The same without its highest bit. */
  function Remains(c: bv8, k: nat): bv32
    requires k < 8
  {
    if k == 0 then ((c as bv32) << 24) & 0x7fff_ffff
    else if k == 1 then ((c as bv32) << 25) & 0x7fff_ffff
    else if k == 2 then ((c as bv32) << 26) & 0x7fff_ffff
    else if k == 3 then ((c as bv32) << 27) & 0x7fff_ffff
    else if k == 4 then ((c as bv32) << 28) & 0x7fff_ffff
    else if k == 5 then ((c as bv32) << 29) & 0x7fff_ffff
    else if k == 6 then ((c as bv32) << 30) & 0x7fff_ffff
    else 0
  }

  function BitAt(c: bv8, k: nat): bool
    requires k < 8
  {
    if k == 0 then c & 0x80 != 0
    else if k == 1 then c & 0x40 != 0
    else if k == 2 then c & 0x20 != 0
    else if k == 3 then c & 0x10 != 0
    else if k == 4 then c & 0x08 != 0
    else if k == 5 then c & 0x04 != 0
    else if k == 6 then c & 0x02 != 0
    else c & 1 != 0
  }

  lemma BitAtIs(c: bv8, k: nat)
    requires k < 8
    ensures BitAt(c, k) == ByteBits(c)[k]
  {
  }

  lemma BitAndRest(c: bv8, k: nat)
    requires k < 8
    ensures Rising(c, k) == Xor(TopBit(BitAt(c, k)), Remains(c, k))
  {
    hide TopBit, Xor;
    if k == 0 { JoinTop(c & 0x80 != 0, ((c as bv32) << 24) & 0x7fff_ffff, (c as bv32) << 24); }
    else if k == 1 { JoinTop(c & 0x40 != 0, ((c as bv32) << 25) & 0x7fff_ffff, (c as bv32) << 25); }
    else if k == 2 { JoinTop(c & 0x20 != 0, ((c as bv32) << 26) & 0x7fff_ffff, (c as bv32) << 26); }
    else if k == 3 { JoinTop(c & 0x10 != 0, ((c as bv32) << 27) & 0x7fff_ffff, (c as bv32) << 27); }
    else if k == 4 { JoinTop(c & 0x08 != 0, ((c as bv32) << 28) & 0x7fff_ffff, (c as bv32) << 28); }
    else if k == 5 { JoinTop(c & 0x04 != 0, ((c as bv32) << 29) & 0x7fff_ffff, (c as bv32) << 29); }
    else if k == 6 { JoinTop(c & 0x02 != 0, ((c as bv32) << 30) & 0x7fff_ffff, (c as bv32) << 30); }
    else { JoinTop(c & 0x01 != 0, 0, (c as bv32) << 31); }
  }

  lemma JoinTop(b: bool, rest: bv32, x: bv32)
    requires rest == x & 0x7fff_ffff && (b <==> x & 0x8000_0000 != 0)
    ensures x == Xor(TopBit(b), rest)
  {
    if b {
      JoinSet(x);
    } else {
      JoinClear(x);
    }
  }

  lemma JoinSet(x: bv32)
    requires x & 0x8000_0000 != 0
    ensures Xor(0x8000_0000, x & 0x7fff_ffff) == x
  {
    SetBits(x);
  }

  lemma SetBits(x: bv32)
    requires x & 0x8000_0000 != 0
    ensures 0x8000_0000 ^ (x & 0x7fff_ffff) == x
  {
  }

  lemma JoinClear(x: bv32)
    requires x & 0x8000_0000 == 0
    ensures Xor(0, x & 0x7fff_ffff) == x
  {
    ClearBits(x);
  }

  lemma ClearBits(x: bv32)
    requires x & 0x8000_0000 == 0
    ensures 0 ^ (x & 0x7fff_ffff) == x
  {
  }

  lemma RisingSplit(c: bv8, k: nat)
    requires k < 8
    ensures Rising(c, k) == Xor(TopBit(ByteBits(c)[k]), Remains(c, k))
  {
    hide Rising, Remains, TopBit, Xor, ByteBits, BitAt;
    BitAtIs(c, k);
    BitAndRest(c, k);
  }

  lemma RemainsTurn(p: bv32, c: bv8, k: nat)
    requires k < 8
    ensures Turn(p, Remains(c, k)) == Rising(c, k + 1)
  {
    hide Turn;
    if k == 0 { TurnOut(p, ((c as bv32) << 24) & 0x7fff_ffff, (c as bv32) << 25); }
    else if k == 1 { TurnOut(p, ((c as bv32) << 25) & 0x7fff_ffff, (c as bv32) << 26); }
    else if k == 2 { TurnOut(p, ((c as bv32) << 26) & 0x7fff_ffff, (c as bv32) << 27); }
    else if k == 3 { TurnOut(p, ((c as bv32) << 27) & 0x7fff_ffff, (c as bv32) << 28); }
    else if k == 4 { TurnOut(p, ((c as bv32) << 28) & 0x7fff_ffff, (c as bv32) << 29); }
    else if k == 5 { TurnOut(p, ((c as bv32) << 29) & 0x7fff_ffff, (c as bv32) << 30); }
    else if k == 6 { TurnOut(p, ((c as bv32) << 30) & 0x7fff_ffff, (c as bv32) << 31); }
    else { TurnOut(p, 0, 0); }
  }

  /** Turning with what is left of the byte in the register is feeding its bits. */
  lemma {:induction false} TurnsFeed(p: bv32, r: bv32, c: bv8, k: nat)
    requires k <= 8
    ensures Turns(p, Xor(r, Rising(c, k)), 8 - k) == Feed(p, r, ByteBits(c)[k..])
    decreases 8 - k
  {
    hide Turn, Xor, Rising, Remains, TopBit, ByteBits;
    if k == 8 {
      RisenOut(c);
      XorZero(r);
      assert ByteBits(c)[8..] == [];
    } else {
      var b := ByteBits(c)[k];
      RisingSplit(c, k);
      XorAssociates(r, TopBit(b), Remains(c, k));
      TurnLinear(p, Xor(r, TopBit(b)), Remains(c, k));
      RemainsTurn(p, c, k);
      assert ByteBits(c)[k..][0] == b && ByteBits(c)[k..][1..] == ByteBits(c)[k + 1..];
      TurnsFeed(p, Turn(p, Xor(r, TopBit(b))), c, k + 1);
    }
  }

  lemma RisenOut(c: bv8)
    ensures Rising(c, 8) == 0
  {
  }

  lemma RisingTop(c: bv8)
    ensures Rising(c, 0) == Top(c)
  {
  }

  /** The register after the bytes of a message. */
  function TurnBytes(p: bv32, s: bv32, data: seq<bv8>): bv32 {
    if data == [] then s else TurnByte(p, TurnBytes(p, s, data[..|data| - 1]), data[|data| - 1])
  }

  lemma {:induction false} FeedAppend(p: bv32, r: bv32, a: seq<bool>, b: seq<bool>)
    ensures Feed(p, r, a + b) == Feed(p, Feed(p, r, a), b)
    decreases a
  {
    hide Turn, Xor;
    if a == [] {
      assert a + b == b;
    } else {
      assert (a + b)[1..] == a[1..] + b;
      FeedAppend(p, Turn(p, Xor(r, TopBit(a[0]))), a[1..], b);
    }
  }

  lemma {:induction false} MessageBitsSnoc(data: seq<bv8>, c: bv8)
    ensures MessageBits(data + [c]) == MessageBits(data) + ByteBits(c)
  {
    hide ByteBits;
    if data == [] {
      assert ([c])[1..] == [];
      assert data + [c] == [c];
    } else {
      assert (data + [c])[1..] == data[1..] + [c];
      MessageBitsSnoc(data[1..], c);
    }
  }

  /** Bytes are fed as their bits. */
  lemma {:induction false} BytesFeed(p: bv32, s: bv32, data: seq<bv8>)
    ensures TurnBytes(p, s, data) == Feed(p, s, MessageBits(data))
  {
    hide ByteBits, Turns, Feed;
    if data == [] {
      FedNothing(p, s);
    } else {
      var front, c := data[..|data| - 1], data[|data| - 1];
      BytesFeed(p, s, front);
      assert data == front + [c];
      MessageBitsSnoc(front, c);
      FeedAppend(p, s, MessageBits(front), ByteBits(c));
      var r := TurnBytes(p, s, front);
      TurnsFeed(p, r, c, 0);
      RisingTop(c);
      assert ByteBits(c)[0..] == ByteBits(c);
    }
  }

  lemma FedNothing(p: bv32, s: bv32)
    ensures Feed(p, s, []) == s
  {
  }

  /** From zero, the register after a message is the remainder of the message times x^32. */
  lemma BytesRemainder(p: bv32, data: seq<bv8>)
    ensures TurnBytes(p, 0, data) == Divide(p, 0, MessageBits(data) + seq(32, _ => false))
  {
    BytesFeed(p, 0, data);
    FeedIsRemainder(p, MessageBits(data));
  }
}
