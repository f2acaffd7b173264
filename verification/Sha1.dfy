/** SHA-1 of libsum (sum-sha1.c): the engine, on a little-endian host. */
module Sha1 {
  import opened Blocks
  import opened Chunks
  import opened Division
  import opened Words
  import opened Sha1Spec

  const BLOCK: nat := 64

  // ---------------------------------------------------------------------------------------
  // The rounds
  // ---------------------------------------------------------------------------------------

  /** What `blk0` does to a word. */
  function Swapped(w: bv32): bv32 {
    (((w << 24) | (w >> 8)) & 0xff00ff00) | (((w << 8) | (w >> 24)) & 0x00ff00ff)
  }

  lemma SwappedHostWord(b0: bv8, b1: bv8, b2: bv8, b3: bv8)
    ensures Swapped(HostWord(b0, b1, b2, b3)) == BigEndian(b0, b1, b2, b3)
  {
  }

  /** The logical functions as the round macros write them. */
  function ChoiceForm(w: bv32, x: bv32, y: bv32): bv32 { (w & (x ^ y)) ^ y }

  function MajorityForm(w: bv32, x: bv32, y: bv32): bv32 { ((w | x) & y) | (w & x) }

  lemma ChoiceBits(w: bv32, x: bv32, y: bv32)
    ensures (w & (x ^ y)) ^ y == (w & x) ^ (!w & y)
  {
  }

  lemma ChoiceRewritten(w: bv32, x: bv32, y: bv32)
    ensures ChoiceForm(w, x, y) == Ch(w, x, y)
  {
    ChoiceBits(w, x, y);
  }

  lemma MajorityBits(w: bv32, x: bv32, y: bv32)
    ensures ((w | x) & y) | (w & x) == (w & x) ^ (w & y) ^ (x & y)
  {
  }

  lemma MajorityRewritten(w: bv32, x: bv32, y: bv32)
    ensures MajorityForm(w, x, y) == Maj(w, x, y)
  {
    MajorityBits(w, x, y);
  }

  /** The macros add up in another order than the standard. */
  function MacroSum(z: bv32, f: bv32, w: bv32, k: bv32, r: bv32): bv32 { z + (f + w + k + r) }

  lemma SumBits(z: bv32, f: bv32, w: bv32, k: bv32, r: bv32)
    ensures z + (f + w + k + r) == r + f + z + k + w
  {
  }

  lemma SumOrder(z: bv32, f: bv32, w: bv32, k: bv32, r: bv32)
    ensures MacroSum(z, f, w, k, r) == Sum(r, f, z, k, w)
  {
    SumBits(z, f, w, k, r);
  }

  /** Before round `j`: the sixteen last words of the schedule, each at its number modulo
      sixteen, and before them the words of the block as the host reads them. */
  ghost predicate Circular(l: seq<bv32>, block: seq<bv8>, j: nat) {
    && |l| == 16 && |block| == BLOCK
    && (forall t: nat {:trigger Schedule(block, t)} :: j <= t + 16 && t < j ==> l[t % 16] == Schedule(block, t))
    && (forall t: nat {:trigger l[t]} :: j <= t < 16 ==> l[t] == RawWord(block, t))
  }

  function RawWord(block: seq<bv8>, t: nat): bv32
    requires |block| == BLOCK && t < 16
  {
    HostWord(block[4 * t], block[4 * t + 1], block[4 * t + 2], block[4 * t + 3])
  }

  lemma RecentWord(l: seq<bv32>, block: seq<bv8>, j: nat, t: nat)
    requires Circular(l, block, j) && j <= t + 16 && t < j
    ensures l[t % 16] == Schedule(block, t)
  {
    hide Schedule;
  }

  /** `blk`: the word that round `j` computes in place of the one that is sixteen rounds old. */
  lemma NextWord(l: seq<bv32>, block: seq<bv8>, j: nat)
    requires Circular(l, block, j) && j >= 16
    ensures Mix(l[(j + 13) % 16], l[(j + 8) % 16], l[(j + 2) % 16], l[j % 16]) == Schedule(block, j)
  {
    hide Circular, Mix;
    RecentWord(l, block, j, j - 3);
    RecentWord(l, block, j, j - 8);
    RecentWord(l, block, j, j - 14);
    RecentWord(l, block, j, j - 16);
    LessOne(j + 13, 16);
    LessOne(j + 8, 16);
    LessOne(j + 2, 16);
    LessOne(j, 16);
  }

  lemma CircularStep(l: seq<bv32>, block: seq<bv8>, j: nat, w: bv32)
    requires Circular(l, block, j) && w == Schedule(block, j)
    ensures Circular(l[j % 16 := w], block, j + 1)
  {
    hide Schedule, RawWord;
    var l' := l[j % 16 := w];
    forall t: nat | j + 1 <= t + 16 && t < j + 1 ensures l'[t % 16] == Schedule(block, t) {
      if t < j {
        DifferentSlots(t, j);
        assert l[t % 16] == Schedule(block, t);
      }
    }
  }

  lemma DifferentSlots(t: nat, j: nat)
    requires t < j < t + 16
    ensures t % 16 != j % 16
  {
  }

  lemma RoundsStep(r: Regs, block: seq<bv8>, t: nat)
    ensures Rounds(r, block, t) == if t == 0 then r else Round(Rounds(r, block, t - 1), t - 1, Schedule(block, t - 1))
  {
    hide Round, Schedule;
  }

  /** `R0` to `R4`: round `j`, which changes two of the five variables in place. */
  method R(l: array<bv32>, v: bv32, w: bv32, x: bv32, y: bv32, z: bv32, j: nat, ghost block: seq<bv8>)
    returns (w': bv32, z': bv32)
    requires l.Length == 16 && Circular(l[..], block, j) && j < 80
    modifies l
    ensures Circular(l[..], block, j + 1)
    ensures Regs(z', v, w', x, y) == Round(Regs(v, w, x, y, z), j, Schedule(block, j))
  {
    hide MacroSum, Sum, Ch, Maj, Parity, RotL5, RotL30, ChoiceForm, MajorityForm, Swapped, BigEndian, Mix, Circular,
      Schedule;
    ghost var before := l[..];
    var word;
    if j < 16 {
      FirstWord(before, block, j);
      word := Swapped(l[j]);
    } else {
      NextWord(before, block, j);
      word := Mix(l[(j + 13) % 16], l[(j + 8) % 16], l[(j + 2) % 16], l[j % 16]);
    }
    CircularStep(before, block, j, word);
    l[j % 16] := word;
    assert l[..] == before[j % 16 := word];
    ChoiceRewritten(w, x, y);
    MajorityRewritten(w, x, y);
    var f :=
      if j < 20 then ChoiceForm(w, x, y)
      else if j < 40 then Parity(w, x, y)
      else if j < 60 then MajorityForm(w, x, y)
      else Parity(w, x, y);
    z' := MacroSum(z, f, word, K(j), RotL5(v));
    SumOrder(z, f, word, K(j), RotL5(v));
    w' := RotL30(w);
  }

  lemma FirstWord(l: seq<bv32>, block: seq<bv8>, j: nat)
    requires Circular(l, block, j) && j < 16
    ensures Swapped(l[j]) == Schedule(block, j)
  {
    hide Swapped, BigEndian, HostWord;
    SwappedHostWord(block[4 * j], block[4 * j + 1], block[4 * j + 2], block[4 * j + 3]);
  }

  /** The 80 rounds, five at a time: after five the variables have their own names again. */
  method AllRounds(l: array<bv32>, start: Regs, ghost block: seq<bv8>) returns (r: Regs)
    requires l.Length == 16 && Circular(l[..], block, 0)
    modifies l
    ensures r == Rounds(start, block, 80)
  {
    hide Rounds, Round, Schedule, Circular;
    var a, b, c, d, e := start.a, start.b, start.c, start.d, start.e;
    var i := 0;
    RoundsStep(start, block, 0);
    while i < 80
      invariant i <= 80 && i % 5 == 0 && Circular(l[..], block, i)
      invariant Regs(a, b, c, d, e) == Rounds(start, block, i)
    {
      var next := FiveRounds(l, start, Regs(a, b, c, d, e), i, block);
      a, b, c, d, e := next.a, next.b, next.c, next.d, next.e;
      i := i + 5;
    }
    r := Regs(a, b, c, d, e);
  }

  /** Five rounds, each with the variables renamed once more. */
  method FiveRounds(l: array<bv32>, ghost start: Regs, r: Regs, i: nat, ghost block: seq<bv8>) returns (r': Regs)
    requires l.Length == 16 && i + 5 <= 80 && Circular(l[..], block, i) && r == Rounds(start, block, i)
    modifies l
    ensures Circular(l[..], block, i + 5) && r' == Rounds(start, block, i + 5)
  {
    hide Rounds, Round, Schedule, Circular;
    var a, b, c, d, e := r.a, r.b, r.c, r.d, r.e;
    b, e := R(l, a, b, c, d, e, i, block);
    RoundsStep(start, block, i + 1);
    a, d := R(l, e, a, b, c, d, i + 1, block);
    RoundsStep(start, block, i + 2);
    e, c := R(l, d, e, a, b, c, i + 2, block);
    RoundsStep(start, block, i + 3);
    d, b := R(l, c, d, e, a, b, i + 3, block);
    RoundsStep(start, block, i + 4);
    c, a := R(l, b, c, d, e, a, i + 4, block);
    RoundsStep(start, block, i + 5);
    r' := Regs(a, b, c, d, e);
  }

  // ---------------------------------------------------------------------------------------
  // The bit count
  // ---------------------------------------------------------------------------------------

  const TWO32: nat := 0x1_0000_0000

  /** The high half of the count is right. */
  predicate HighIs(n: nat, hi: nat) { hi == 8 * n / TWO32 % TWO32 }

  /** `count` after a chunk: the low half is always right. The high half stays right exactly if
      the low half carries or the chunk is shorter than 2^29 bytes, because the bits of the
      chunk's length above the low half are only added when it carries. */
  lemma CountAfter(n: nat, hi: nat, lo: nat, len: nat)
    requires lo == 8 * n % TWO32 && len < TWO32
    ensures LowAfter(lo, len) == 8 * (n + len) % TWO32
    ensures HighIs(n, hi) ==>
      (HighIs(n + len, HighAfter(hi, lo, len)) <==> len < 0x2000_0000 || lo + 8 * len % TWO32 >= TWO32)
  {
    var up, low := 8 * len / TWO32, 8 * len % TWO32;
    var q := 8 * n / TWO32;
    assert up == len / 0x2000_0000;
    var carry := if lo + low >= TWO32 then 1 else 0;
    assert 8 * (n + len) == TWO32 * (q + up + carry) + (lo + low - TWO32 * carry);
    Remainder(8 * (n + len), TWO32, q + up + carry, lo + low - TWO32 * carry);
    assert 8 * (n + len) / TWO32 == q + up + carry;
    assert LowAfter(lo, len) == lo + low - TWO32 * carry by {
      Remainder(lo + 8 * len, TWO32, up + carry, lo + low - TWO32 * carry);
    }
    if HighIs(n, hi) {
      HighParts(q, up + carry);
      HighParts(q, 0);
      if carry == 0 && up > 0 {
        NotSame(q, up);
      }
    }
  }

  lemma HighParts(q: nat, k: nat)
    ensures (q % TWO32 + k) % TWO32 == (q + k) % TWO32
  {
    var a := q / TWO32;
    var b, r := (q % TWO32 + k) / TWO32, (q % TWO32 + k) % TWO32;
    assert q + k == TWO32 * (a + b) + r;
    Remainder(q + k, TWO32, a + b, r);
  }

  lemma NotSame(q: nat, up: nat)
    requires 0 < up < TWO32
    ensures q % TWO32 != (q + up) % TWO32
  {
    var a, r := q / TWO32, q % TWO32;
    if r + up < TWO32 {
      Remainder(q + up, TWO32, a, r + up);
    } else {
      Remainder(q + up, TWO32, a + 1, r + up - TWO32);
    }
  }

  function LowAfter(lo: nat, len: nat): nat { (lo + 8 * len) % TWO32 }

  function HighAfter(hi: nat, lo: nat, len: nat): nat {
    if LowAfter(lo, len) < lo then (hi + len / 0x2000_0000 + 1) % TWO32 else hi
  }

  // ---------------------------------------------------------------------------------------
  // Streaming
  // ---------------------------------------------------------------------------------------

  /** The index of the loop over whole blocks after `k` rounds, when `j` bytes were kept. */
  function Index(j: nat, k: nat): nat
    requires j < 64
  {
    (64 - j + 64 * k) % TWO32
  }

  /** The loop over whole blocks stops at some round exactly if the chunk and the bytes that were kept
      have less than 2^32 bytes. */
  lemma IndexStops(j: nat, length: nat)
    requires j < 64
    ensures (exists k: nat {:trigger Index(j, k)} :: (Index(j, k) + 63) % TWO32 >= length) <==> length + j < TWO32
  {
    if length + j < TWO32 {
      assert Index(j, 0x3ff_fffe) == TWO32 - 64 - j;
    } else {
      forall k: nat {:trigger Index(j, k)} ensures (Index(j, k) + 63) % TWO32 < length {
        IndexBound(j, k);
      }
    }
  }

  /** Chunks for which the loop never stops: one of 2^32 bytes, and one byte less after one byte. */
  lemma LongChunkNeverEnds(k: nat)
    ensures (Index(0, k) + 63) % TWO32 < 0x1_0000_0000
    ensures (Index(1, k) + 63) % TWO32 < 0xffff_ffff
  {
    IndexStops(0, 0x1_0000_0000);
    IndexStops(1, 0xffff_ffff);
  }

  lemma IndexBound(j: nat, k: nat)
    requires j < 64
    ensures (Index(j, k) + 63) % TWO32 <= TWO32 - 1 - j
  {
    var n := 127 - j + 64 * k;
    var q := n / TWO32;
    var x := n - TWO32 * q;
    assert x % 64 == 63 - j by {
      assert x == 64 * (k + 1 - 0x400_0000 * q) + (63 - j);
      Remainder(x, 64, k + 1 - 0x400_0000 * q, 63 - j);
    }
    SumWraps(64 - j + 64 * k, 63);
    assert x / 64 < 0x400_0000;
  }

  lemma SumWraps(a: nat, b: nat)
    ensures (a % TWO32 + b) % TWO32 == (a + b) % TWO32
  {
    Remainder(a + b, TWO32, a / TWO32 + (a % TWO32 + b) / TWO32, (a % TWO32 + b) % TWO32);
  }

  /** Within that limit the index does not wrap. */
  lemma IndexFits(i: nat, j: nat, length: nat)
    requires j < 64 && (i + j) % 64 == 0 && length + j < TWO32 && i <= length
    ensures i < TWO32 && (i + 63) % TWO32 == i + 63
  {
    assert i + j <= TWO32 - 64;
  }

  /** The chaining value after the whole blocks of `msg`. */
  ghost function Chained(msg: seq<bv8>): Regs { Chain(Compress, BLOCK, INITIAL, msg) }

  lemma AbsorbShort(msg: seq<bv8>, more: seq<bv8>)
    requires |msg| % BLOCK + |more| < BLOCK
    ensures Chained(msg + more) == Chained(msg) && Rest(BLOCK, msg + more) == Rest(BLOCK, msg) + more
    ensures |msg + more| % BLOCK == |msg| % BLOCK + |more|
  {
    KeepShort(Compress, BLOCK, INITIAL, msg, more);
    assert |Rest(BLOCK, msg + more)| == |Rest(BLOCK, msg)| + |more|;
  }

  lemma AbsorbBlock(msg: seq<bv8>, more: seq<bv8>)
    requires |msg| % BLOCK + |more| == BLOCK
    ensures Chained(msg + more) == Compress(Chained(msg), Rest(BLOCK, msg) + more) && Rest(BLOCK, msg + more) == []
    ensures |msg + more| % BLOCK == 0
  {
    hide Compress;
    CompleteBlock(Compress, BLOCK, INITIAL, msg, more);
    assert |Rest(BLOCK, msg + more)| == 0;
  }

  lemma NothingRead()
    ensures Chained([]) == INITIAL && Rest(BLOCK, []) == []
  {
  }

  /** The count tells how much of the buffer is used. */
  lemma UsedSpace(n: nat, lo: nat)
    requires lo == 8 * n % TWO32
    ensures lo / 8 % BLOCK == n % BLOCK
  {
    var q := 8 * n / TWO32;
    var m := n - 0x2000_0000 * q;
    assert lo == 8 * m;
    assert n == BLOCK * (0x80_0000 * q + m / BLOCK) + m % BLOCK;
    Remainder(n, BLOCK, 0x80_0000 * q + m / BLOCK, m % BLOCK);
  }

  class Engine {
    var count0: nat
    var count1: nat
    const state: array<bv32>
    const buffer: array<bv8>
    const digest: array<bv8>
    const digestSum: array<bv8>
    ghost var msg: seq<bv8>

    ghost predicate Shaped() {
      && state.Length == 5 && buffer.Length == BLOCK && digest.Length == digestSum.Length == 20
      && buffer != digest && buffer != digestSum && digest != digestSum
    }

    ghost function Chaining(): Regs
      requires Shaped()
      reads state
    {
      Regs(state[0], state[1], state[2], state[3], state[4])
    }

    /** The bytes of `read` have gone through the transform or are kept. */
    ghost predicate Streamed(read: seq<bv8>)
      reads state, buffer
    {
      && Shaped()
      && Chaining() == Chained(read)
      && buffer[..|read| % BLOCK] == Rest(BLOCK, read)
    }

    ghost predicate Valid()
      reads this, state, buffer
    {
      && Streamed(msg)
      && count0 == 8 * |msg| % TWO32
      && count1 < TWO32
    }

    /** The high half of the count is right too. */
    ghost predicate Counted()
      reads this
    {
      HighIs(|msg|, count1)
    }

    constructor ()
      ensures Valid() && Counted() && msg == []
      ensures fresh(state) && fresh(buffer) && fresh(digest) && fresh(digestSum)
      ensures digestSum[..] == Zeros(20)
    {
      hide Chained, Rest, Streamed, HighIs;
      state := new bv32[5];
      buffer := new bv8[BLOCK];
      digest := new bv8[20](_ => 0);
      digestSum := new bv8[20](_ => 0);
      new;
      Init();
      assert digestSum[..] == Zeros(20);
    }

    /** `sha1_init`. */
    method Init()
      requires Shaped()
      modifies this, state
      ensures Valid() && Counted() && msg == []
    {
      hide Chained, Rest;
      NothingRead();
      count0, count1 := 0, 0;
      state[0], state[1], state[2], state[3], state[4] := INITIAL.a, INITIAL.b, INITIAL.c, INITIAL.d, INITIAL.e;
      msg := [];
    }

    /** `sha1_transform`: it works on a copy of the block. */
    method Transform(data: array<bv8>, at: nat)
      requires Shaped() && at + BLOCK <= data.Length
      modifies state
      ensures Chaining() == Compress(old(Chaining()), data[at..at + BLOCK])
    {
      hide Rounds, Schedule, BigEndian, Add, HostWord, Circular;
      ghost var block := data[at..at + BLOCK];
      ghost var start := Chaining();
      var workspace := new bv32[16];
      forall t | 0 <= t < 16 {
        workspace[t] := HostWord(data[at + 4 * t], data[at + 4 * t + 1], data[at + 4 * t + 2], data[at + 4 * t + 3]);
      }
      CopiedWords(workspace[..], data[..], at);
      assert data[..][at..at + BLOCK] == block;
      var r := AllRounds(workspace, Regs(state[0], state[1], state[2], state[3], state[4]), block);
      assert Chaining() == start && data[at..at + BLOCK] == block;
      state[0] := Add(state[0], r.a);
      state[1] := Add(state[1], r.b);
      state[2] := Add(state[2], r.c);
      state[3] := Add(state[3], r.d);
      state[4] := Add(state[4], r.e);
    }

    /** `sha1_block`. The index has 32 bits: with longer chunks the loop does not end (IndexStops). */
    method Block(data: array<bv8>, length: nat)
      requires Valid() && length <= data.Length && length + |msg| % BLOCK < TWO32 && data != buffer
      modifies this, state, buffer
      ensures Valid() && msg == old(msg) + data[..length]
      ensures old(Counted()) ==>
        (Counted() <==> length < 0x2000_0000 || old(count0) + 8 * length % TWO32 >= TWO32)
    {
      hide Chained, Compress, Rest, Streamed, HighIs;
      if length == 0 {
        assert data[..length] == [];
      } else {
        ghost var start := msg;
        var j := count0;
        AddCount(length);
        UsedSpace(|msg|, j);
        j := j / 8 % BLOCK;
        var i: nat := 0;
        assert start + data[..0] == start;
        if j + length > 63 {
          i := BLOCK - j;
          FillBuffer(data, j, start);
          i := WholeBlocks(data, i, j, length, start);
          j := 0;
        }
        Keep(data, i, j, length, start);
        msg := start + data[..length];
      }
    }

    method AddCount(length: nat)
      requires count0 == 8 * |msg| % TWO32 && count1 < TWO32 && length < TWO32
      modifies `count0, `count1
      ensures count0 == 8 * (|msg| + length) % TWO32 && count1 < TWO32
      ensures HighIs(|msg|, old(count1)) ==>
        (HighIs(|msg| + length, count1) <==> length < 0x2000_0000 || old(count0) + 8 * length % TWO32 >= TWO32)
    {
      hide HighIs;
      CountAfter(|msg|, count1, count0, length);
      var j := count0;
      count0 := (count0 + 8 * length) % TWO32;
      if count0 < j {
        count1 := (count1 + (length / 0x2000_0000 + 1)) % TWO32;
      }
    }

    method FillBuffer(data: array<bv8>, j: nat, ghost start: seq<bv8>)
      requires Streamed(start) && data != buffer
      requires j == |start| % BLOCK && BLOCK - j <= data.Length
      modifies state, buffer
      ensures Streamed(start + data[..BLOCK - j]) && |start + data[..BLOCK - j]| % BLOCK == 0
    {
      hide Chained, Compress;
      var free := BLOCK - j;
      AbsorbBlock(start, data[..free]);
      Copy(buffer, j, data, 0, free);
      assert buffer[0..0 + BLOCK] == Rest(BLOCK, start) + data[..free];
      Transform(buffer, 0);
    }

    /** The loop over whole blocks, from index `i0` on. */
    method WholeBlocks(data: array<bv8>, i0: nat, j: nat, length: nat, ghost start: seq<bv8>) returns (i: nat)
      requires i0 <= length <= data.Length && length + j < TWO32 && j < BLOCK && (i0 + j) % BLOCK == 0 && data != buffer
      requires Streamed(start + data[..i0]) && |start + data[..i0]| % BLOCK == 0
      modifies state
      ensures i <= length < i + 64
      ensures Streamed(start + data[..i]) && |start + data[..i]| % BLOCK == 0
    {
      hide Chained, Compress, Rest, Streamed;
      i := i0;
      IndexFits(i, j, length);
      while (i + 63) % TWO32 < length
        modifies state
        invariant i <= length && (i + j) % BLOCK == 0 && (i + 63) % TWO32 == i + 63
        invariant Streamed(start + data[..i]) && |start + data[..i]| % BLOCK == 0
        decreases length - i
      {
        WholeBlock(data, i, start);
        IndexFits(i + 64, j, length);
        i := (i + 64) % TWO32;
      }
    }

    method WholeBlock(data: array<bv8>, i: nat, ghost start: seq<bv8>)
      requires i + BLOCK <= data.Length && data != buffer
      requires Streamed(start + data[..i]) && |start + data[..i]| % BLOCK == 0
      modifies state
      ensures Streamed(start + data[..i + BLOCK]) && |start + data[..i + BLOCK]| % BLOCK == 0
    {
      hide Chained, Compress;
      ghost var read := start + data[..i];
      AbsorbBlock(read, data[i..i + BLOCK]);
      assert start + data[..i + BLOCK] == read + data[i..i + BLOCK];
      assert Rest(BLOCK, read) + data[i..i + BLOCK] == data[i..i + BLOCK];
      Transform(data, i);
    }

    method Keep(data: array<bv8>, i: nat, j: nat, length: nat, ghost start: seq<bv8>)
      requires i <= length <= data.Length && data != buffer
      requires Streamed(start + data[..i]) && j == |start + data[..i]| % BLOCK && j + (length - i) < BLOCK
      modifies buffer
      ensures Streamed(start + data[..length])
    {
      hide Chained, Compress;
      ghost var read := start + data[..i];
      AbsorbShort(read, data[i..length]);
      assert start + data[..length] == read + data[i..length];
      Copy(buffer, j, data, i, length - i);
    }

    /** `sha1_done`. The length field is the count, so that the digest is SHA-1 when the count is
        right. */
    method Done()
      requires Valid()
      modifies this, state, buffer, digest, digestSum
      ensures Shaped()
      ensures digest[..] == DigestWith(old(msg), old(count1) * TWO32 + old(count0))
      ensures old(Counted()) ==> digest[..] == Sha1(old(msg))
      ensures digestSum[..] == Xor(old(digestSum[..]), digest[..])
      ensures state[..] == seq(5, _ => 0) && buffer[..] == Zeros(BLOCK) && count0 == count1 == 0
    {
      hide Chained, Compress, Padded, Sha1, DigestWith, WordsBytes;
      ghost var n := |msg|;
      CountBits(n, count1, count0);
      SameDigest(msg, count1 * TWO32 + count0);
      ghost var bits := count1 * TWO32 + count0;
      ghost var was := msg;
      Pad();
      DigestIs(was, bits, Chaining());
      WriteDigest();
      count0, count1 := 0, 0;
      forall k | 0 <= k < 5 {
        state[k] := 0;
      }
      Clear(buffer, 0, BLOCK);
    }

    /** The padding goes in byte by byte, and the length last. */
    method Pad()
      requires Valid()
      modifies this, state, buffer
      ensures Streamed(Padded(BLOCK, old(msg), LengthField(old(count1) * TWO32 + old(count0))))
    {
      hide Chained, Compress, Octet, Rest, Streamed, Gap;
      ghost var start, bits := msg, count1 * TWO32 + count0;
      var hi: nat, lo: nat := count1, count0;
      var finalcount := new bv8[8](i requires 0 <= i < 8 => if i >= 4 then Octet(lo, 7 - i) else Octet(hi, 3 - i));
      FinalCount(finalcount[..], hi, lo);
      PadTo56();
      Block(finalcount, 8);
      assert finalcount[..8] == LengthField(bits);
    }

    /** A one bit, and zero bits until 56 bytes of the buffer are used. */
    method PadTo56()
      requires Valid()
      modifies this, state, buffer
      ensures Valid() && msg == old(msg) + [0x80] + Zeros(Gap(BLOCK, |old(msg)|, 8))
    {
      hide Chained, Compress, Rest, Streamed, Gap;
      ghost var start := msg;
      ghost var gap := Gap(BLOCK, |start|, 8);
      var mark := new bv8[1](_ => 0x80);
      var zero := new bv8[1](_ => 0);
      assert mark[..1] == [0x80] && zero[..1] == [0];
      Block(mark, 1);
      ghost var k := 0;
      assert Zeros(0) == [];
      UsedSpace(|msg|, count0);
      AtGap(|start|, 0);
      while count0 / 8 % BLOCK != 56
        invariant Valid() && k <= gap && msg == start + [0x80] + Zeros(k)
        invariant count0 / 8 % BLOCK == 56 <==> k == gap
        invariant zero[..1] == [0]
        decreases gap - k
      {
        Block(zero, 1);
        assert Zeros(k + 1) == Zeros(k) + [0];
        k := k + 1;
        UsedSpace(|msg|, count0);
        AtGap(|start|, k);
      }
    }

    /** The chaining value is written to the digest, and added to the sum. */
    method WriteDigest()
      requires Shaped()
      modifies digest, digestSum
      ensures digest[..] == RegsBytes(Chaining())
      ensures digestSum[..] == Xor(old(digestSum[..]), digest[..])
    {
      hide WordsBytes, WordByte, XorByte;
      ghost var words := state[..];
      assert words == [state[0], state[1], state[2], state[3], state[4]];
      var i := 0;
      while i < 20
        invariant i <= 20
        invariant forall k :: 0 <= k < i ==> digest[k] == WordsBytes(words)[k]
        invariant forall k :: 0 <= k < i ==> digestSum[k] == XorByte(old(digestSum[k]), digest[k])
        invariant forall k :: i <= k < 20 ==> digestSum[k] == old(digestSum[k])
      {
        ByteAt(words, i);
        digest[i] := WordByte(state[i / 4], i % 4);
        digestSum[i] := XorByte(digestSum[i], digest[i]);
        i := i + 1;
      }
    }
  }

  lemma CopiedWords(l: seq<bv32>, data: seq<bv8>, at: nat)
    requires |l| == 16 && at + BLOCK <= |data|
    requires forall t :: 0 <= t < 16 ==>
      l[t] == HostWord(data[at + 4 * t], data[at + 4 * t + 1], data[at + 4 * t + 2], data[at + 4 * t + 3])
    ensures Circular(l, data[at..at + BLOCK], 0)
  {
    hide HostWord, Schedule;
  }

  /** The eight bytes of the count, the most significant first. */
  lemma FinalCount(f: seq<bv8>, hi: nat, lo: nat)
    requires |f| == 8 && lo < TWO32
    requires forall i :: 0 <= i < 8 ==> f[i] == if i >= 4 then Octet(lo, 7 - i) else Octet(hi, 3 - i)
    ensures f == LengthField(hi * TWO32 + lo)
  {
    hide Octet;
    assert Pow256(4) == TWO32 by {
      assert Pow256(2) == 65536;
    }
    forall i | 0 <= i < 8 ensures f[i] == LengthField(hi * TWO32 + lo)[i] {
      OctetOfParts(hi, lo, 4, 7 - i);
    }
  }

  /** The padding is long enough exactly when 56 bytes of the buffer are used. */
  lemma AtGap(n: nat, k: nat)
    requires k <= Gap(BLOCK, n, 8)
    ensures (n + 1 + k) % BLOCK == 56 <==> k == Gap(BLOCK, n, 8)
  {
    GapIsLeast(BLOCK, n, 8, k);
    var m := n + 1 + k;
    var q, r := m / BLOCK, m % BLOCK;
    if r < 56 {
      Remainder(m + 8, BLOCK, q, r + 8);
    } else {
      Remainder(m + 8, BLOCK, q + 1, r - 56);
    }
  }

  /** The two halves together are the length of the message exactly when the high half is right. */
  lemma CountBits(n: nat, hi: nat, lo: nat)
    requires lo == 8 * n % TWO32 && hi < TWO32
    ensures HighIs(n, hi) <==> hi * TWO32 + lo == 8 * n % (TWO32 * TWO32)
  {
    var q := 8 * n / TWO32;
    var p, h := q / TWO32, q % TWO32;
    assert 8 * n == (TWO32 * TWO32) * p + (h * TWO32 + lo);
    Remainder(8 * n, TWO32 * TWO32, p, h * TWO32 + lo);
  }

  lemma SameDigest(msg: seq<bv8>, bits: nat)
    ensures bits == 8 * |msg| % (TWO32 * TWO32) ==> DigestWith(msg, bits) == Sha1(msg)
  {
    hide DigestWith;
  }

  lemma DigestIs(msg: seq<bv8>, bits: nat, r: Regs)
    requires r == Chained(Padded(BLOCK, msg, LengthField(bits)))
    ensures RegsBytes(r) == DigestWith(msg, bits)
  {
    hide Compress, RegsBytes;
  }

  /** The smallest chunk that spoils the count. */
  lemma LongChunkMiscounts()
    ensures HighIs(0, 0) && LowAfter(0, 0x2000_0000) == 8 * 0x2000_0000 % TWO32
    ensures !HighIs(0x2000_0000, HighAfter(0, 0, 0x2000_0000))
  {
    CountAfter(0, 0, 0, 0x2000_0000);
  }

  /** A whole message, in chunks. If all of them have fewer than 2^29 bytes, the digest is SHA-1 and
      does not depend on where the message is cut. */
  method Digest(chunks: seq<seq<bv8>>) returns (d: seq<bv8>)
    requires forall i {:trigger chunks[i]} :: 0 <= i < |chunks| ==> |chunks[i]| <= TWO32 - 64
    ensures (forall i {:trigger chunks[i]} :: 0 <= i < |chunks| ==> |chunks[i]| < 0x2000_0000) ==>
      d == Sha1(Concat(chunks))
  {
    hide Sha1, Engine.Chaining, Chained, DigestWith;
    var engine := new Engine();
    ConcatAll(chunks);
    var i := 0;
    while i < |chunks|
      invariant i <= |chunks| && engine.Valid() && engine.msg == Concat(chunks[..i])
      invariant fresh(engine) && fresh(engine.state) && fresh(engine.buffer) && fresh(engine.digest)
        && fresh(engine.digestSum)
      invariant (forall k {:trigger chunks[k]} :: 0 <= k < i ==> |chunks[k]| < 0x2000_0000) ==> engine.Counted()
    {
      hide Engine.Valid;
      ConcatStep(chunks, i);
      var chunk := chunks[i];
      var data := new bv8[|chunk|](k requires 0 <= k < |chunk| => chunk[k]);
      assert data[..|chunk|] == chunk;
      engine.Block(data, |chunk|);
      i := i + 1;
    }
    engine.Done();
    d := engine.digest[..];
  }
}
