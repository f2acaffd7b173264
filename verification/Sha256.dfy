/** SHA-256 of libsum (sum-sha2.c): the engine, on a little-endian host. */
module Sha256 {
  import opened Blocks
  import opened Chunks
  import opened Division
  import opened Sha256Spec
  import opened Words

  const BLOCK: nat := 64

  const SHORT_BLOCK: nat := 56

  /** Word `t` of a buffer, as the host reads it. */
  function Slot(buf: seq<bv8>, t: nat): bv32
    requires 4 * t + 4 <= |buf|
  {
    HostWord(buf[4 * t], buf[4 * t + 1], buf[4 * t + 2], buf[4 * t + 3])
  }

  method PutSlot(buffer: array<bv8>, t: nat, w: bv32)
    requires 4 * t + 4 <= buffer.Length
    modifies buffer
    ensures buffer[4 * t] == Byte0(w) && buffer[4 * t + 1] == Byte1(w) && buffer[4 * t + 2] == Byte2(w)
      && buffer[4 * t + 3] == Byte3(w)
    ensures Slot(buffer[..], t) == w
    ensures forall i :: 0 <= i < buffer.Length && !(4 * t <= i < 4 * t + 4) ==> buffer[i] == old(buffer[i])
    ensures forall u: nat {:trigger Slot(buffer[..], u)} :: 4 * u + 4 <= buffer.Length && u != t ==>
      Slot(buffer[..], u) == old(Slot(buffer[..], u))
  {
    hide BigEndian, Byte0, Byte1, Byte2, Byte3;
    buffer[4 * t] := Byte0(w);
    buffer[4 * t + 1] := Byte1(w);
    buffer[4 * t + 2] := Byte2(w);
    buffer[4 * t + 3] := Byte3(w);
    BytesMakeWord(w);
  }

  // ---------------------------------------------------------------------------------------
  // The circular schedule
  // ---------------------------------------------------------------------------------------

  /** Before round `j` the sixteen words of the buffer are the last sixteen of the schedule,
      each at its number modulo sixteen. */
  ghost predicate Circular(buf: seq<bv8>, block: seq<bv8>, j: nat) {
    && |buf| == BLOCK
    && forall t: nat {:trigger Schedule(block, t)} :: j <= t + 16 && t < j ==> Slot(buf, t % 16) == Schedule(block, t)
  }

  /** The word that round `j` computes in place of the one that is sixteen rounds old. */
  lemma NextWord(buf: seq<bv8>, block: seq<bv8>, j: nat)
    requires Circular(buf, block, j) && j >= 16
    ensures Add(Slot(buf, j % 16), Add(Add(Sigma1(Slot(buf, (j + 14) % 16)), Slot(buf, (j + 9) % 16)),
      Sigma0(Slot(buf, (j + 1) % 16))))
         == Schedule(block, j)
  {
    hide Sigma0, Sigma1, Slot, Schedule, Circular, Add;
    RecentWord(buf, block, j, j - 2);
    RecentWord(buf, block, j, j - 7);
    RecentWord(buf, block, j, j - 15);
    RecentWord(buf, block, j, j - 16);
    LessOne(j + 14, 16);
    LessOne(j + 9, 16);
    LessOne(j + 1, 16);
    LessOne(j, 16);
    ScheduleStep(block, j);
  }

  lemma RecentWord(buf: seq<bv8>, block: seq<bv8>, j: nat, t: nat)
    requires Circular(buf, block, j) && j <= t + 16 && t < j
    ensures Slot(buf, t % 16) == Schedule(block, t)
  {
    hide Slot, Schedule;
  }

  lemma ScheduleStep(block: seq<bv8>, j: nat)
    requires j >= 16
    ensures Schedule(block, j)
         == Add(Schedule(block, j - 16), Add(Add(Sigma1(Schedule(block, j - 2)), Schedule(block, j - 7)),
           Sigma0(Schedule(block, j - 15))))
  {
    hide Sigma0, Sigma1, Add;
    AddCommutes(Schedule(block, j - 16), Add(Add(Sigma1(Schedule(block, j - 2)), Schedule(block, j - 7)),
      Sigma0(Schedule(block, j - 15))));
  }

  lemma CircularStep(before: seq<bv8>, after: seq<bv8>, block: seq<bv8>, j: nat)
    requires Circular(before, block, j) && |after| == BLOCK
    requires Slot(after, j % 16) == Schedule(block, j)
    requires forall u: nat {:trigger Slot(after, u)} :: u < 16 && u != j % 16 ==> Slot(after, u) == Slot(before, u)
    ensures Circular(after, block, j + 1)
  {
    hide Slot, Schedule;
  }

  lemma NothingYet(buf: seq<bv8>, block: seq<bv8>)
    requires |buf| == BLOCK
    ensures Circular(buf, block, 0)
  {
  }

  lemma RoundsStep(r: Regs, block: seq<bv8>, t: nat)
    requires t <= 64
    ensures Rounds(r, block, t) == if t == 0 then r
      else Round(Rounds(r, block, t - 1), K(t - 1), Schedule(block, t - 1))
  {
    hide Round, K, Schedule;
  }

  // ---------------------------------------------------------------------------------------
  // Streaming
  // ---------------------------------------------------------------------------------------

  const TWO64: nat := 0x1_0000_0000_0000_0000

  /** The chaining value after the whole blocks of `msg`. */
  ghost function Chained(msg: seq<bv8>): Regs { Chain(Compress, BLOCK, INITIAL, msg) }

  lemma AbsorbShort(msg: seq<bv8>, more: seq<bv8>)
    requires |msg| % BLOCK + |more| < BLOCK
    ensures Chained(msg + more) == Chained(msg) && Rest(BLOCK, msg + more) == Rest(BLOCK, msg) + more
    ensures |msg + more| % BLOCK == |msg| % BLOCK + |more|
  {
    KeepShort(Compress, BLOCK, INITIAL, msg, more);
    assert |Rest(BLOCK, msg + more)| == |Rest(BLOCK, msg)| + |more|;
  }

  lemma AbsorbBlock(msg: seq<bv8>, more: seq<bv8>)
    requires |msg| % BLOCK + |more| == BLOCK
    ensures Chained(msg + more) == Compress(Chained(msg), Rest(BLOCK, msg) + more) && Rest(BLOCK, msg + more) == []
    ensures |msg + more| % BLOCK == 0
  {
    hide Compress;
    CompleteBlock(Compress, BLOCK, INITIAL, msg, more);
    assert |Rest(BLOCK, msg + more)| == 0;
  }

  /** The bit count, which wraps, tells how much of the buffer is used. */
  lemma UsedSpace(n: nat, bitcount: nat)
    requires bitcount == 8 * n % TWO64
    ensures bitcount / 8 % BLOCK == n % BLOCK
  {
    var q := 8 * n / TWO64;
    var m := n - 0x2000_0000_0000_0000 * q;
    assert bitcount == 8 * m;
    assert n == BLOCK * (0x80_0000_0000_0000 * q + m / BLOCK) + m % BLOCK;
    Remainder(n, BLOCK, 0x80_0000_0000_0000 * q + m / BLOCK, m % BLOCK);
  }

  lemma CountMore(n: nat, bitcount: nat, k: nat)
    requires bitcount == 8 * n % TWO64
    ensures (bitcount + 8 * k) % TWO64 == 8 * (n + k) % TWO64
  {
    var q := 8 * n / TWO64;
    var r := (bitcount + 8 * k) % TWO64;
    var q' := (bitcount + 8 * k) / TWO64;
    assert 8 * (n + k) == TWO64 * (q + q') + r;
    Remainder(8 * (n + k), TWO64, q + q', r);
  }

  lemma DigestIs(msg: seq<bv8>, r: Regs)
    requires r == Chained(Padded(BLOCK, msg, LengthField(msg)))
    ensures RegsBytes(r) == Sha256(msg)
  {
    hide Compress, RegsBytes;
  }

  /** The padding when the length fits in the last block. */
  lemma PadShort(msg: seq<bv8>, field: seq<bv8>)
    requires |msg| % BLOCK < SHORT_BLOCK && |field| == 8
    ensures var more := [0x80] + Zeros(SHORT_BLOCK - 1 - |msg| % BLOCK) + field;
      Chained(Padded(BLOCK, msg, field)) == Compress(Chained(msg), Rest(BLOCK, msg) + more)
  {
    hide Compress, Rest;
    PaddedShort(Compress, BLOCK, INITIAL, msg, field);
  }

  /** The padding when the length needs another block. */
  lemma PadLong(msg: seq<bv8>, field: seq<bv8>)
    requires |msg| % BLOCK >= SHORT_BLOCK && |field| == 8
    ensures var more := [0x80] + Zeros(BLOCK - 1 - |msg| % BLOCK);
      Chained(Padded(BLOCK, msg, field))
      == Compress(Compress(Chained(msg), Rest(BLOCK, msg) + more), Zeros(SHORT_BLOCK) + field)
  {
    hide Compress, Rest;
    PaddedLong(Compress, BLOCK, INITIAL, msg, field);
  }

  lemma BlockLayout(before: seq<bv8>, after: seq<bv8>, rest: seq<bv8>, used: nat)
    requires |before| == |after| == BLOCK && 0 < used <= BLOCK && |rest| == used - 1
    requires before[..used - 1] == rest && before[used - 1] == 0x80
    requires if used < BLOCK then after == before[..used] + Zeros(BLOCK - used) + before[BLOCK..] else after == before
    ensures after == rest + ([0x80] + Zeros(BLOCK - used))
  {
  }

  lemma ZerosLength(n: nat)
    ensures |Zeros(n)| == n
  {
  }

  class Engine {
    const state: array<bv32>
    const buffer: array<bv8>
    const digest: array<bv8>
    const digestSum: array<bv8>
    var bitcount: nat
    ghost var msg: seq<bv8>

    ghost predicate Shaped() {
      && state.Length == 8 && buffer.Length == BLOCK && digest.Length == digestSum.Length == 32
      && buffer != digest && buffer != digestSum && digest != digestSum
    }

    ghost function Chaining(): Regs
      requires Shaped()
      reads state
    {
      Regs(state[0], state[1], state[2], state[3], state[4], state[5], state[6], state[7])
    }

    /** The engine has read `msg`: nothing else about the buffer matters. */
    ghost predicate Valid()
      reads this, state, buffer
    {
      && Shaped()
      && bitcount == 8 * |msg| % TWO64
      && Chaining() == Chained(msg)
      && buffer[..|msg| % BLOCK] == Rest(BLOCK, msg)
    }

    constructor ()
      ensures Valid() && msg == []
      ensures fresh(state) && fresh(buffer) && fresh(digest) && fresh(digestSum)
      ensures digestSum[..] == Zeros(32)
    {
      state := new bv32[8];
      buffer := new bv8[BLOCK];
      digest := new bv8[32](_ => 0);
      digestSum := new bv8[32](_ => 0);
      new;
      Init();
    }

    /** `sha256_init`. */
    method Init()
      requires Shaped()
      modifies this, state, buffer
      ensures Valid() && msg == []
    {
      state[0], state[1], state[2], state[3] := INITIAL.a, INITIAL.b, INITIAL.c, INITIAL.d;
      state[4], state[5], state[6], state[7] := INITIAL.e, INITIAL.f, INITIAL.g, INITIAL.h;
      Clear(buffer, 0, BLOCK);
      bitcount := 0;
      msg := [];
    }

    /** `sha256_block`: any number of bytes. */
    method Block(data: array<bv8>, length: nat)
      requires Valid() && length <= data.Length && data != buffer
      modifies this, state, buffer
      ensures Valid() && msg == old(msg) + data[..length]
    {
      hide Chained, Compress, Rest, Valid;
      if length == 0 {
        return;
      }
      ghost var start := msg;
      var pos: nat := 0;
      var used := Used();
      if used > 0 {
        var free := BLOCK - used;
        if length >= free {
          FillBuffer(data, used, free);
          pos := free;
        } else {
          Keep(data, 0, used, length);
          return;
        }
      }
      while length - pos >= BLOCK
        invariant pos <= length && Valid() && |msg| % BLOCK == 0
        invariant msg == start + data[..][..pos]
      {
        MoreRead(start, data[..], pos, pos + BLOCK);
        WholeBlock(data, pos);
        pos := pos + BLOCK;
      }
      if length - pos > 0 {
        MoreRead(start, data[..], pos, length);
        Keep(data, pos, 0, length - pos);
      }
    }

    method Used() returns (used: nat)
      requires Valid()
      ensures used == |msg| % BLOCK
    {
      hide Chained;
      UsedSpace(|msg|, bitcount);
      used := bitcount / 8 % BLOCK;
    }

    /** Bytes that do not fill the buffer are kept in it. */
    method Keep(data: array<bv8>, pos: nat, used: nat, n: nat)
      requires Valid() && pos + n <= data.Length && data != buffer
      requires used == |msg| % BLOCK && used + n < BLOCK
      modifies this, buffer
      ensures Valid() && msg == old(msg) + data[pos..pos + n]
    {
      hide Chained, Compress;
      AbsorbShort(msg, data[pos..pos + n]);
      CountMore(|msg|, bitcount, n);
      Copy(buffer, used, data, pos, n);
      bitcount := (bitcount + 8 * n) % TWO64;
      msg := msg + data[pos..pos + n];
    }

    /** The buffer is filled completely and processed. */
    method FillBuffer(data: array<bv8>, used: nat, free: nat)
      requires Valid() && free <= data.Length && data != buffer
      requires used == |msg| % BLOCK && used > 0 && used + free == BLOCK
      modifies this, state, buffer
      ensures Valid() && msg == old(msg) + data[..free] && |msg| % BLOCK == 0
    {
      hide Chained, Compress;
      AbsorbBlock(msg, data[..free]);
      CountMore(|msg|, bitcount, free);
      Copy(buffer, used, data, 0, free);
      bitcount := (bitcount + 8 * free) % TWO64;
      assert buffer[0..0 + BLOCK] == Rest(BLOCK, msg) + data[..free];
      msg := msg + data[..free];
      Transform(buffer, 0);
    }

    /** A block is processed where it is. */
    method WholeBlock(data: array<bv8>, pos: nat)
      requires Valid() && pos + BLOCK <= data.Length && data != buffer && |msg| % BLOCK == 0
      modifies this, state, buffer
      ensures Valid() && msg == old(msg) + data[pos..pos + BLOCK] && |msg| % BLOCK == 0
    {
      hide Chained, Compress;
      AbsorbBlock(msg, data[pos..pos + BLOCK]);
      CountMore(|msg|, bitcount, BLOCK);
      assert Rest(BLOCK, msg) + data[pos..pos + BLOCK] == data[pos..pos + BLOCK];
      Transform(data, pos);
      bitcount := (bitcount + 8 * BLOCK) % TWO64;
      msg := msg + data[pos..pos + BLOCK];
    }

    /** `sha256_done`: the padding, the digest, and the sum of the digests. The state is cleared,
        and the engine must be initialised again. */
    method Done()
      requires Valid()
      modifies this, state, buffer, digest, digestSum
      ensures Shaped()
      ensures digest[..] == Sha256(old(msg))
      ensures digestSum[..] == Xor(old(digestSum[..]), digest[..])
      ensures state[..] == seq(8, _ => 0) && buffer[..] == Zeros(BLOCK) && bitcount == 0
    {
      hide Chained, Compress, Sha256, Padded, WordBytes, RegsBytes;
      Pad();
      ghost var r := Chaining();
      WriteDigest();
      assert digest[..] == RegsBytes(r);
      DigestIs(old(msg), r);
      AddDigest(digestSum, digest);
      forall k | 0 <= k < 8 {
        state[k] := 0;
      }
      bitcount := 0;
      Clear(buffer, 0, BLOCK);
    }

    /** The padding and the last transforms. */
    method Pad()
      requires Valid()
      modifies this, state, buffer
      ensures Chaining() == Chained(Padded(BLOCK, old(msg), LengthField(old(msg))))
    {
      hide Chained, Compress, Padded, LengthField;
      ghost var field, was := LengthField(msg), msg;
      SetUp(field);
      StoreLength(was);
      assert buffer[0..0 + BLOCK] == buffer[..];
      Transform(buffer, 0);
    }

    /** All but the length of the last block. */
    method SetUp(ghost field: seq<bv8>)
      requires Valid() && |field| == 8
      modifies state, buffer
      ensures Chained(Padded(BLOCK, msg, field)) == Compress(Chaining(), buffer[..SHORT_BLOCK] + field)
    {
      hide Chained, Compress, Padded, Rest, Valid, Zeros;
      var used := Used();
      ghost var rest := Rest(BLOCK, msg);
      KeptRest();
      if used > 0 {
        buffer[used] := 0x80;
        used := used + 1;
        if used <= SHORT_BLOCK {
          ClearShort(used, rest, field);
          PadShort(msg, field);
        } else {
          PadLong(msg, field);
          ExtraBlock(used, rest);
        }
      } else {
        MarkEmpty(field);
        PadShort(msg, field);
      }
    }

    /** The mark is there; zeros up to the length. */
    method ClearShort(used: nat, ghost rest: seq<bv8>, ghost field: seq<bv8>)
      requires Shaped() && 0 < used <= SHORT_BLOCK && |rest| == used - 1
      requires buffer[..used - 1] == rest && buffer[used - 1] == 0x80
      modifies buffer
      ensures buffer[..SHORT_BLOCK] + field == rest + ([0x80] + Zeros(SHORT_BLOCK - 1 - |rest|) + field)
    {
      Clear(buffer, used, SHORT_BLOCK - used);
      Layout(buffer[..], rest, SHORT_BLOCK, field);
    }

    /** An empty buffer: zeros up to the length, and then the mark. */
    method MarkEmpty(ghost field: seq<bv8>)
      requires Shaped()
      modifies buffer
      ensures buffer[..SHORT_BLOCK] + field == [] + ([0x80] + Zeros(SHORT_BLOCK - 1) + field)
    {
      Clear(buffer, 0, SHORT_BLOCK);
      buffer[0] := 0x80;
      Layout(buffer[..], [], SHORT_BLOCK, field);
    }

    lemma KeptRest()
      requires Valid()
      ensures Shaped() && buffer[..|msg| % BLOCK] == Rest(BLOCK, msg) && Chaining() == Chained(msg)
    {
    }

    /** The mark fits in the block, but not the length after it. */
    method ExtraBlock(used: nat, ghost rest: seq<bv8>)
      requires Shaped() && 0 < used <= BLOCK && |rest| == used - 1
      requires buffer[..used - 1] == rest && buffer[used - 1] == 0x80
      modifies state, buffer
      ensures Chaining() == Compress(old(Chaining()), rest + ([0x80] + Zeros(BLOCK - used)))
      ensures buffer[..SHORT_BLOCK] == Zeros(SHORT_BLOCK)
    {
      hide Compress, Zeros;
      ghost var before := buffer[..];
      if used < BLOCK {
        Clear(buffer, used, BLOCK - used);
      }
      BlockLayout(before, buffer[..], rest, used);
      assert buffer[0..0 + BLOCK] == buffer[..];
      Transform(buffer, 0);
      Clear(buffer, 0, SHORT_BLOCK);
      ZerosLength(SHORT_BLOCK);
    }

    /** The length of the message in bits, the most significant byte first. */
    method StoreLength(ghost was: seq<bv8>)
      requires Shaped() && bitcount == 8 * |was| % TWO64
      modifies buffer
      ensures buffer[..] == old(buffer[..SHORT_BLOCK]) + LengthField(was)
    {
      hide Octet;
      forall i | 0 <= i < 8 {
        buffer[SHORT_BLOCK + i] := Octet(bitcount, 7 - i);
      }
    }

    /** The chaining value is written to the digest, each word with its bytes reversed. */
    method WriteDigest()
      requires Shaped()
      modifies state, digest
      ensures digest[..] == RegsBytes(old(Chaining()))
    {
      hide BigEndian, WordBytes, WordsBytes, Reverse32, Byte0, Byte1, Byte2, Byte3;
      ghost var r := state[..];
      var j := 0;
      NoWords(digest[..0], r[..0]);
      while j < 8
        invariant j <= 8
        invariant forall k :: j <= k < 8 ==> state[k] == r[k]
        invariant digest[..4 * j] == WordsBytes(r[..j])
      {
        ghost var before := digest[..];
        state[j] := Reverse32(state[j]);
        var w := state[j];
        PutSlot(digest, j, w);
        ReversedBytes(r[j]);
        OneMoreWord(digest[..], before, r, j);
        j := j + 1;
      }
      assert r[..8] == [r[0], r[1], r[2], r[3], r[4], r[5], r[6], r[7]];
      assert digest[..32] == digest[..];
    }

    /** `SHA256_Transform`. The words of the block are put into the engine's own buffer and the
        schedule is computed there, also when the block is that buffer. */
    method Transform(data: array<bv8>, at: nat)
      requires Shaped() && at + BLOCK <= data.Length && (data == buffer ==> at == 0)
      modifies state, buffer
      ensures Chaining() == Compress(old(Chaining()), old(data[at..at + BLOCK]))
    {
      hide Rounds, Schedule, BigEndian, Slot, Add, Circular;
      ghost var block := data[at..at + BLOCK];
      ghost var start := Chaining();
      var r := FirstRounds(data, at, Regs(state[0], state[1], state[2], state[3], state[4], state[5], state[6],
        state[7]));
      r := LaterRounds(start, r, block);
      state[0] := Add(state[0], r.a);
      state[1] := Add(state[1], r.b);
      state[2] := Add(state[2], r.c);
      state[3] := Add(state[3], r.d);
      state[4] := Add(state[4], r.e);
      state[5] := Add(state[5], r.f);
      state[6] := Add(state[6], r.g);
      state[7] := Add(state[7], r.h);
    }

    /** Rounds 0 to 15, with the words of the block. */
    method FirstRounds(data: array<bv8>, at: nat, start: Regs) returns (r: Regs)
      requires Shaped() && at + BLOCK <= data.Length && (data == buffer ==> at == 0)
      modifies buffer
      ensures Circular(buffer[..], old(data[at..at + BLOCK]), 16)
      ensures r == Rounds(start, old(data[at..at + BLOCK]), 16)
    {
      hide Round, Rounds, Schedule, Circular, BigEndian, Slot, K;
      ghost var block := data[at..at + BLOCK];
      r := start;
      RoundsStep(start, block, 0);
      NothingYet(buffer[..], block);
      var j := 0;
      while j < 16
        invariant j <= 16 && Shaped()
        invariant forall i :: 4 * j <= i < BLOCK ==> data[at + i] == block[i]
        invariant Circular(buffer[..], block, j)
        invariant r == Rounds(start, block, j)
      {
        ghost var before := buffer[..];
        var w := FetchWord(data, at, j, block);
        PutSlot(buffer, j, w);
        CircularStep(before, buffer[..], block, j);
        RoundsStep(start, block, j + 1);
        r := RoundInPlace(r, K(j), w);
        j := j + 1;
      }
    }

    /** Rounds 16 to 63, with the words computed in the buffer. */
    method LaterRounds(ghost start: Regs, r16: Regs, ghost block: seq<bv8>) returns (r: Regs)
      requires Shaped() && Circular(buffer[..], block, 16) && r16 == Rounds(start, block, 16)
      modifies buffer
      ensures r == Rounds(start, block, 64)
    {
      hide Round, Rounds, Schedule, Circular, BigEndian, Slot, K, Sigma0, Sigma1, Add;
      r := r16;
      var j := 16;
      while j < 64
        invariant 16 <= j <= 64 && Shaped()
        invariant Circular(buffer[..], block, j)
        invariant r == Rounds(start, block, j)
      {
        ghost var before := buffer[..];
        var s0 := Sigma0(Slot(buffer[..], (j + 1) % 16));
        var s1 := Sigma1(Slot(buffer[..], (j + 14) % 16));
        var w := Add(Slot(buffer[..], j % 16), Add(Add(s1, Slot(buffer[..], (j + 9) % 16)), s0));
        NextWord(before, block, j);
        PutSlot(buffer, j % 16, w);
        CircularStep(before, buffer[..], block, j);
        RoundsStep(start, block, j + 1);
        r := RoundInPlace(r, K(j), w);
        j := j + 1;
      }
    }

    /** The working variables are moved one after the other. */
    method RoundInPlace(r: Regs, k: bv32, w: bv32) returns (s: Regs)
      ensures s == Round(r, k, w)
    {
      hide Sum0, Sum1, Ch, Maj, Add;
      var a, b, c, d := r.a, r.b, r.c, r.d;
      var e, f, g, h := r.e, r.f, r.g, r.h;
      var t1 := Add(Add(Add(Add(h, Sum1(e)), Ch(e, f, g)), k), w);
      var t2 := Add(Sum0(a), Maj(a, b, c));
      h := g;
      g := f;
      f := e;
      e := Add(d, t1);
      d := c;
      c := b;
      b := a;
      a := Add(t1, t2);
      s := Regs(a, b, c, d, e, f, g, h);
    }

    /** Read word `j` of the data and reverse its bytes. */
    method FetchWord(data: array<bv8>, at: nat, j: nat, ghost block: seq<bv8>) returns (w: bv32)
      requires at + BLOCK <= data.Length && j < 16 && |block| == BLOCK
      requires forall i :: 4 * j <= i < BLOCK ==> data[at + i] == block[i]
      ensures w == Schedule(block, j)
    {
      hide BigEndian, Reverse32;
      var i := at + 4 * j;
      w := Reverse32(HostWord(data[i], data[i + 1], data[i + 2], data[i + 3]));
      ReverseHostWord(data[i], data[i + 1], data[i + 2], data[i + 3]);
      assert block[4 * j] == data[at + 4 * j] && block[4 * j + 1] == data[at + (4 * j + 1)];
      assert block[4 * j + 2] == data[at + (4 * j + 2)] && block[4 * j + 3] == data[at + (4 * j + 3)];
    }
  }

  /** A whole message, in chunks: the digest does not depend on where the message is cut. */
  method Digest(chunks: seq<seq<bv8>>) returns (d: seq<bv8>)
    ensures d == Sha256(Concat(chunks))
  {
    hide Sha256, Engine.Chaining, Chained;
    var engine := new Engine();
    ConcatAll(chunks);
    var i := 0;
    while i < |chunks|
      invariant i <= |chunks| && engine.Valid() && engine.msg == Concat(chunks[..i])
      invariant fresh(engine) && fresh(engine.state) && fresh(engine.buffer) && fresh(engine.digest)
        && fresh(engine.digestSum)
    {
      hide Engine.Valid;
      ConcatStep(chunks, i);
      var chunk := chunks[i];
      var data := new bv8[|chunk|](k requires 0 <= k < |chunk| => chunk[k]);
      assert data[..|chunk|] == chunk;
      engine.Block(data, |chunk|);
      i := i + 1;
    }
    engine.Done();
    d := engine.digest[..];
  }
}
