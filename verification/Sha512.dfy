/** SHA-512 and SHA-384 of libsum (sum-sha2.c): the engine, on a little-endian host, with its bit count
    of 128 bits in two words. */
module Sha512 {
  import opened Blocks
  import opened Chunks
  import opened Division
  import opened Sha512Spec
  import opened Words64

  const BLOCK: nat := 128

  const SHORT_BLOCK: nat := 112

  const TWO64: nat := 0x1_0000_0000_0000_0000

  const TWO128: nat := 0x1_0000_0000_0000_0000_0000_0000_0000_0000

  /** Word `t` of a buffer, as the host reads it. */
  function Slot(buf: seq<bv8>, t: nat): bv64
    requires 8 * t + 8 <= |buf|
  {
    HostWord(buf[8 * t..8 * t + 8])
  }

  method PutSlot(buffer: array<bv8>, t: nat, w: bv64)
    requires 8 * t + 8 <= buffer.Length
    modifies buffer
    ensures buffer[8 * t..8 * t + 8] == HostBytes(w) && Slot(buffer[..], t) == w
    ensures forall i :: 0 <= i < buffer.Length && !(8 * t <= i < 8 * t + 8) ==> buffer[i] == old(buffer[i])
    ensures forall u: nat {:trigger Slot(buffer[..], u)} :: 8 * u + 8 <= buffer.Length && u != t ==>
              Slot(buffer[..], u) == old(Slot(buffer[..], u))
  {
    hide HostWord, HostBytes;
    ghost var before := buffer[..];
    var bytes := HostBytes(w);
    forall i | 0 <= i < 8 {
      buffer[8 * t + i] := bytes[i];
    }
    assert buffer[..][8 * t..8 * t + 8] == bytes;
    HostWordOfBytes(w);
    forall u: nat {:trigger Slot(buffer[..], u)} | 8 * u + 8 <= buffer.Length && u != t
      ensures Slot(buffer[..], u) == Slot(before, u)
    {
      OtherSlot(before, buffer[..], t, u);
    }
  }

  lemma OtherSlot(before: seq<bv8>, after: seq<bv8>, t: nat, u: nat)
    requires |before| == |after| && 8 * t + 8 <= |after| && 8 * u + 8 <= |after| && u != t
    requires forall i :: 0 <= i < |after| && !(8 * t <= i < 8 * t + 8) ==> after[i] == before[i]
    ensures after[8 * u..8 * u + 8] == before[8 * u..8 * u + 8]
  {
  }

  // ---------------------------------------------------------------------------------------
  // The circular schedule
  // ---------------------------------------------------------------------------------------

  /** Before round `j` the sixteen words of the buffer are the last sixteen of the schedule,
      each at its number modulo sixteen. */
  ghost predicate Circular(buf: seq<bv8>, block: seq<bv8>, j: nat) {
    && |buf| == BLOCK
    && forall t: nat {:trigger Schedule(block, t)} :: j <= t + 16 && t < j ==> Slot(buf, t % 16) == Schedule(block, t)
  }

  /** The word that round `j` computes in place of the one that is sixteen rounds old. */
  lemma NextWord(buf: seq<bv8>, block: seq<bv8>, j: nat)
    requires Circular(buf, block, j) && j >= 16
    ensures Add(Slot(buf, j % 16), Add(Add(Sigma1(Slot(buf, (j + 14) % 16)), Slot(buf, (j + 9) % 16)),
      Sigma0(Slot(buf, (j + 1) % 16))))
         == Schedule(block, j)
  {
    hide Sigma0, Sigma1, Slot, Schedule, Circular, Add;
    RecentWord(buf, block, j, j - 2);
    RecentWord(buf, block, j, j - 7);
    RecentWord(buf, block, j, j - 15);
    RecentWord(buf, block, j, j - 16);
    LessOne(j + 14, 16);
    LessOne(j + 9, 16);
    LessOne(j + 1, 16);
    LessOne(j, 16);
    ScheduleStep(block, j);
  }

  lemma RecentWord(buf: seq<bv8>, block: seq<bv8>, j: nat, t: nat)
    requires Circular(buf, block, j) && j <= t + 16 && t < j
    ensures Slot(buf, t % 16) == Schedule(block, t)
  {
    hide Slot, Schedule;
  }

  lemma ScheduleStep(block: seq<bv8>, j: nat)
    requires j >= 16
    ensures Schedule(block, j)
         == Add(Schedule(block, j - 16), Add(Add(Sigma1(Schedule(block, j - 2)), Schedule(block, j - 7)),
           Sigma0(Schedule(block, j - 15))))
  {
    hide Sigma0, Sigma1, Add;
    AddCommutes(Schedule(block, j - 16), Add(Add(Sigma1(Schedule(block, j - 2)), Schedule(block, j - 7)),
      Sigma0(Schedule(block, j - 15))));
  }

  lemma CircularStep(before: seq<bv8>, after: seq<bv8>, block: seq<bv8>, j: nat)
    requires Circular(before, block, j) && |after| == BLOCK
    requires Slot(after, j % 16) == Schedule(block, j)
    requires forall u: nat {:trigger Slot(after, u)} :: u < 16 && u != j % 16 ==> Slot(after, u) == Slot(before, u)
    ensures Circular(after, block, j + 1)
  {
    hide Slot, Schedule;
  }

  lemma NothingYet(buf: seq<bv8>, block: seq<bv8>)
    requires |buf| == BLOCK
    ensures Circular(buf, block, 0)
  {
  }

  lemma RoundsStep(r: Regs, block: seq<bv8>, t: nat)
    requires t <= 80
    ensures Rounds(r, block, t) == if t == 0 then r
      else Round(Rounds(r, block, t - 1), K(t - 1), Schedule(block, t - 1))
  {
    hide Round, K, Schedule;
  }

  // ---------------------------------------------------------------------------------------
  // The bit count
  // ---------------------------------------------------------------------------------------

  function Bits(high: nat, low: nat): nat { high * TWO64 + low }

  /** The two words hold the number of bits of `n` bytes. */
  predicate Counts(n: nat, high: nat, low: nat) {
    high < TWO64 && low < TWO64 && Bits(high, low) == 8 * n % TWO128
  }

  /** `ADDINC128`: the low word has wrapped exactly if it is less than what was added. */
  lemma CarryMeans(low: nat, n: nat)
    requires low < TWO64 && n < TWO64
    ensures (low + n) % TWO64 < n <==> low + n >= TWO64
  {
    if low + n >= TWO64 {
      Remainder(low + n, TWO64, 1, low + n - TWO64);
    }
  }

  /** Adding the bits of `k` bytes with the carry of the macro. */
  lemma CountMore(n: nat, high: nat, low: nat, k: nat)
    requires Counts(n, high, low) && 8 * k < TWO64
    ensures var low' := (low + 8 * k) % TWO64;
      Counts(n + k, if low' < 8 * k then (high + 1) % TWO64 else high, low')
  {
    CarryMeans(low, 8 * k);
    var low' := (low + 8 * k) % TWO64;
    var high' := if low' < 8 * k then (high + 1) % TWO64 else high;
    if low + 8 * k >= TWO64 {
      Remainder(low + 8 * k, TWO64, 1, low + 8 * k - TWO64);
      if high + 1 == TWO64 {
        Remainder(TWO64, TWO64, 1, 0);
      } else {
        Remainder(high + 1, TWO64, 0, high + 1);
      }
    } else {
      Remainder(low + 8 * k, TWO64, 0, low + 8 * k);
    }
    var wrapped := if high + (low + 8 * k) / TWO64 >= TWO64 then 1 else 0;
    assert Bits(high, low) + 8 * k == TWO128 * wrapped + Bits(high', low');
    var p := 8 * n / TWO128;
    assert 8 * (n + k) == TWO128 * (p + wrapped) + Bits(high', low');
    Remainder(8 * (n + k), TWO128, p + wrapped, Bits(high', low'));
  }

  /** The low word tells how much of the buffer is used. */
  lemma UsedSpace(n: nat, high: nat, low: nat)
    requires Counts(n, high, low)
    ensures low / 8 % BLOCK == n % BLOCK
  {
    var q := TWO64 * (8 * n / TWO128) + high;
    assert 8 * n == TWO64 * q + low;
    var m := n - 0x2000_0000_0000_0000 * q;
    assert low == 8 * m;
    assert n == BLOCK * (0x40_0000_0000_0000 * q + m / BLOCK) + m % BLOCK;
    Remainder(n, BLOCK, 0x40_0000_0000_0000 * q + m / BLOCK, m % BLOCK);
  }

  /** Byte `i` of the length field, from the two words. */
  lemma FieldByte(n: nat, high: nat, low: nat, i: nat)
    requires Counts(n, high, low) && i < 16
    ensures LengthField(n)[i] == if i < 8 then Octet(high, 7 - i) else Octet(low, 15 - i)
  {
    hide Octet;
    assert Pow256(8) == TWO64 by {
      assert Pow256(4) == 0x1_0000_0000 by {
        assert Pow256(2) == 65536;
      }
      assert Pow256(6) == 0x1_0000_0000_0000;
    }
    OctetOfParts(high, low, 8, 15 - i);
  }

  lemma BlockLayout(before: seq<bv8>, after: seq<bv8>, rest: seq<bv8>, used: nat)
    requires |before| == |after| == BLOCK && 0 < used <= BLOCK && |rest| == used - 1
    requires before[..used - 1] == rest && before[used - 1] == 0x80
    requires if used < BLOCK then after == before[..used] + Zeros(BLOCK - used) + before[BLOCK..] else after == before
    ensures after == rest + ([0x80] + Zeros(BLOCK - used))
  {
  }

  // ---------------------------------------------------------------------------------------
  // The engine
  // ---------------------------------------------------------------------------------------

  lemma NothingRead(initial: Regs)
    ensures Counts(0, 0, 0) && Chain(Compress, BLOCK, initial, []) == initial && Rest(BLOCK, []) == []
  {
    hide Compress;
  }

  class Engine {
    /** The initial value: that of SHA-512 or of SHA-384. */
    const initial: Regs
    const state: array<bv64>
    const buffer: array<bv8>
    const digest: array<bv8>
    const digestSum: array<bv8>
    var high: nat
    var low: nat
    ghost var msg: seq<bv8>

    ghost predicate Shaped() {
      && state.Length == 8 && buffer.Length == BLOCK && digest.Length == digestSum.Length == 64
      && buffer != digest && buffer != digestSum && digest != digestSum
    }

    ghost function Chaining(): Regs
      requires Shaped()
      reads state
    {
      Regs(state[0], state[1], state[2], state[3], state[4], state[5], state[6], state[7])
    }

    /** The chaining value after the whole blocks of a message. */
    ghost function Chained(m: seq<bv8>): Regs {
      Chain(Compress, BLOCK, initial, m)
    }

    /** The engine has read `msg`: nothing else about the buffer matters. */
    ghost predicate Valid()
      reads this, state, buffer
    {
      && Shaped()
      && Counts(|msg|, high, low)
      && Chaining() == Chained(msg)
      && buffer[..|msg| % BLOCK] == Rest(BLOCK, msg)
    }

    constructor (initial: Regs)
      ensures Valid() && msg == [] && this.initial == initial
      ensures fresh(state) && fresh(buffer) && fresh(digest) && fresh(digestSum)
      ensures digestSum[..] == Zeros(64)
    {
      hide Chain, Rest, Counts, Zeros;
      var sum := new bv8[64](_ => 0);
      AllZeros(sum[..]);
      this.initial := initial;
      state := new bv64[8];
      buffer := new bv8[BLOCK];
      digest := new bv8[64](_ => 0);
      digestSum := sum;
      new;
      Init();
    }

    /** `sha512_init` and `sha384_init`. */
    method Init()
      requires Shaped()
      modifies this, state, buffer
      ensures Valid() && msg == []
    {
      hide Chain, Compress, Rest, Counts, Zeros;
      NothingRead(initial);
      SetState(initial);
      Clear(buffer, 0, BLOCK);
      high, low := 0, 0;
      msg := [];
    }

    method SetState(r: Regs)
      requires Shaped()
      modifies state
      ensures Chaining() == r
    {
      state[0], state[1], state[2], state[3] := r.a, r.b, r.c, r.d;
      state[4], state[5], state[6], state[7] := r.e, r.f, r.g, r.h;
    }

    /** `ADDINC128`, with the bits of `k` bytes. */
    method AddBits(k: nat)
      requires Counts(|msg|, high, low) && 8 * k < TWO64
      modifies `high, `low
      ensures Counts(|msg| + k, high, low)
    {
      hide Counts;
      CountMore(|msg|, high, low, k);
      low := (low + 8 * k) % TWO64;
      if low < 8 * k {
        high := (high + 1) % TWO64;
      }
    }

    /** `sha512_block`: any number of bytes. */
    method Block(data: array<bv8>, length: nat)
      requires Valid() && length <= data.Length && data != buffer
      modifies this, state, buffer
      ensures Valid() && msg == old(msg) + data[..length]
    {
      hide Chained, Compress, Rest, Valid;
      if length == 0 {
        return;
      }
      ghost var start := msg;
      var pos: nat := 0;
      var used := Used();
      if used > 0 {
        var free := BLOCK - used;
        if length >= free {
          FillBuffer(data, used, free);
          pos := free;
        } else {
          Keep(data, 0, used, length);
          return;
        }
      }
      while length - pos >= BLOCK
        invariant pos <= length && Valid() && |msg| % BLOCK == 0
        invariant msg == start + data[..][..pos]
      {
        MoreRead(start, data[..], pos, pos + BLOCK);
        WholeBlock(data, pos);
        pos := pos + BLOCK;
      }
      if length - pos > 0 {
        MoreRead(start, data[..], pos, length);
        Keep(data, pos, 0, length - pos);
      }
    }

    method Used() returns (used: nat)
      requires Valid()
      ensures used == |msg| % BLOCK
    {
      UsedSpace(|msg|, high, low);
      used := low / 8 % BLOCK;
    }

    /** Bytes that do not fill the buffer are kept in it. */
    method Keep(data: array<bv8>, pos: nat, used: nat, n: nat)
      requires Valid() && pos + n <= data.Length && data != buffer
      requires used == |msg| % BLOCK && used + n < BLOCK
      modifies this, state, buffer
      ensures Valid() && msg == old(msg) + data[pos..pos + n]
    {
      hide Chain, Compress, Counts;
      KeepShort(Compress, BLOCK, initial, msg, data[pos..pos + n]);
      assert |Rest(BLOCK, msg + data[pos..pos + n])| == used + n;
      Copy(buffer, used, data, pos, n);
      AddBits(n);
      msg := msg + data[pos..pos + n];
    }

    /** The buffer is filled completely and processed. */
    method FillBuffer(data: array<bv8>, used: nat, free: nat)
      requires Valid() && free <= data.Length && data != buffer
      requires used == |msg| % BLOCK && used > 0 && used + free == BLOCK
      modifies this, state, buffer
      ensures Valid() && msg == old(msg) + data[..free] && |msg| % BLOCK == 0
    {
      hide Chain, Compress, Counts;
      CompleteBlock(Compress, BLOCK, initial, msg, data[..free]);
      assert |Rest(BLOCK, msg + data[..free])| == 0;
      Copy(buffer, used, data, 0, free);
      AddBits(free);
      assert buffer[0..0 + BLOCK] == Rest(BLOCK, msg) + data[..free];
      msg := msg + data[..free];
      Transform(buffer, 0);
    }

    /** A block is processed where it is. */
    method WholeBlock(data: array<bv8>, pos: nat)
      requires Valid() && pos + BLOCK <= data.Length && data != buffer && |msg| % BLOCK == 0
      modifies this, state, buffer
      ensures Valid() && msg == old(msg) + data[pos..pos + BLOCK] && |msg| % BLOCK == 0
    {
      hide Chain, Compress, Counts;
      CompleteBlock(Compress, BLOCK, initial, msg, data[pos..pos + BLOCK]);
      assert |Rest(BLOCK, msg + data[pos..pos + BLOCK])| == 0;
      assert Rest(BLOCK, msg) + data[pos..pos + BLOCK] == data[pos..pos + BLOCK];
      Transform(data, pos);
      AddBits(BLOCK);
      msg := msg + data[pos..pos + BLOCK];
    }

    /** `sha512_done`: the padding, the digest, and the sum of the digests. The state is cleared,
        and the engine must be initialised again. */
    method Done()
      requires Valid()
      modifies this, state, buffer, digest, digestSum
      ensures Shaped()
      ensures digest[..] == RegsBytes(Hash(initial, old(msg)))
      ensures digestSum[..] == Xor(old(digestSum[..]), digest[..])
      ensures state[..] == seq(8, _ => 0) && buffer[..] == Zeros(BLOCK) && high == low == 0
    {
      hide Chain, Compress, Padded, WordBytes, RegsBytes, Counts, Xor, LengthField;
      Pad();
      WriteDigest();
      AddDigest(digestSum, digest);
      forall k | 0 <= k < 8 {
        state[k] := 0;
      }
      high, low := 0, 0;
      Clear(buffer, 0, BLOCK);
    }

    /** The padding and the last transforms. */
    method Pad()
      requires Valid()
      modifies state, buffer
      ensures Chaining() == Hash(initial, msg)
    {
      hide Chain, Compress, Padded, LengthField, Counts;
      ghost var field := LengthField(|msg|);
      SetUp(field);
      StoreLength();
      assert buffer[0..0 + BLOCK] == buffer[..];
      Transform(buffer, 0);
    }

    /** All but the length of the last block. */
    method SetUp(ghost field: seq<bv8>)
      requires Valid() && |field| == 16
      modifies state, buffer
      ensures Shaped() && Chained(Padded(BLOCK, msg, field)) == Compress(Chaining(), buffer[..SHORT_BLOCK] + field)
    {
      hide Chain, Compress, Padded, Rest, Valid, Zeros;
      var used := Used();
      ghost var rest := Rest(BLOCK, msg);
      KeptRest();
      if used > 0 {
        buffer[used] := 0x80;
        used := used + 1;
        if used <= SHORT_BLOCK {
          ClearShort(used, rest, field);
          PaddedShort(Compress, BLOCK, initial, msg, field);
        } else {
          PaddedLong(Compress, BLOCK, initial, msg, field);
          ExtraBlock(used, rest);
        }
      } else {
        MarkEmpty(field);
        PaddedShort(Compress, BLOCK, initial, msg, field);
      }
    }

    /** The mark is there; zeros up to the length. */
    method ClearShort(used: nat, ghost rest: seq<bv8>, ghost field: seq<bv8>)
      requires Shaped() && 0 < used <= SHORT_BLOCK && |rest| == used - 1
      requires buffer[..used - 1] == rest && buffer[used - 1] == 0x80
      modifies buffer
      ensures buffer[..SHORT_BLOCK] + field == rest + ([0x80] + Zeros(SHORT_BLOCK - 1 - |rest|) + field)
    {
      Clear(buffer, used, SHORT_BLOCK - used);
      Layout(buffer[..], rest, SHORT_BLOCK, field);
    }

    /** An empty buffer: zeros up to the length, and then the mark. */
    method MarkEmpty(ghost field: seq<bv8>)
      requires Shaped()
      modifies buffer
      ensures buffer[..SHORT_BLOCK] + field == [] + ([0x80] + Zeros(SHORT_BLOCK - 1) + field)
    {
      Clear(buffer, 0, SHORT_BLOCK);
      buffer[0] := 0x80;
      Layout(buffer[..], [], SHORT_BLOCK, field);
    }

    lemma KeptRest()
      requires Valid()
      ensures Shaped() && buffer[..|msg| % BLOCK] == Rest(BLOCK, msg) && Chaining() == Chained(msg)
    {
      hide Chain, Compress, Rest, Counts;
    }

    /** The mark fits in the block, but not the length after it. More bytes are cleared than need be. */
    method ExtraBlock(used: nat, ghost rest: seq<bv8>)
      requires Shaped() && 0 < used <= BLOCK && |rest| == used - 1
      requires buffer[..used - 1] == rest && buffer[used - 1] == 0x80
      modifies state, buffer
      ensures Chaining() == Compress(old(Chaining()), rest + ([0x80] + Zeros(BLOCK - used)))
      ensures buffer[..SHORT_BLOCK] == Zeros(SHORT_BLOCK)
    {
      hide Compress, Zeros;
      ghost var before := buffer[..];
      if used < BLOCK {
        Clear(buffer, used, BLOCK - used);
      }
      BlockLayout(before, buffer[..], rest, used);
      assert buffer[0..0 + BLOCK] == buffer[..];
      Transform(buffer, 0);
      ghost var was := buffer[..];
      Clear(buffer, 0, BLOCK - 2);
      FirstZeros(was, buffer[..]);
    }

    /** The length of the message in bits, the most significant byte first. */
    method StoreLength()
      requires Shaped() && Counts(|msg|, high, low)
      modifies buffer
      ensures buffer[..] == old(buffer[..SHORT_BLOCK]) + LengthField(|msg|)
    {
      hide Octet, LengthField, Counts;
      forall i: nat | i < 16 ensures LengthField(|msg|)[i] == if i < 8 then Octet(high, 7 - i) else Octet(low, 15 - i) {
        FieldByte(|msg|, high, low, i);
      }
      forall i | 0 <= i < 16 {
        buffer[SHORT_BLOCK + i] := if i < 8 then Octet(high, 7 - i) else Octet(low, 15 - i);
      }
    }

    /** The chaining value is written to the digest, each word with its bytes reversed. */
    method WriteDigest()
      requires Shaped()
      modifies state, digest
      ensures digest[..] == RegsBytes(old(Chaining()))
    {
      hide BigEndian, WordBytes, WordsBytes, Reverse64, HostBytes, Slot;
      ghost var r := state[..];
      var j := 0;
      NoWords(digest[..0], r[..0]);
      while j < 8
        invariant j <= 8
        invariant forall k :: j <= k < 8 ==> state[k] == r[k]
        invariant digest[..8 * j] == WordsBytes(r[..j])
      {
        WriteWord(j, r);
        j := j + 1;
      }
      assert r[..8] == [r[0], r[1], r[2], r[3], r[4], r[5], r[6], r[7]];
      assert digest[..64] == digest[..];
    }

    method WriteWord(j: nat, ghost r: seq<bv64>)
      requires Shaped() && j < 8 && |r| == 8 && state[j] == r[j] && digest[..8 * j] == WordsBytes(r[..j])
      modifies state, digest
      ensures forall k :: j < k < 8 ==> state[k] == old(state[k])
      ensures digest[..8 * (j + 1)] == WordsBytes(r[..j + 1])
    {
      hide BigEndian, WordBytes, WordsBytes, Reverse64, HostBytes, Slot;
      ghost var before := digest[..];
      state[j] := Reverse64(state[j]);
      PutSlot(digest, j, state[j]);
      ReversedBytes(r[j]);
      OneMoreWord(digest[..], before, r, j);
    }

    /** `SHA512_Transform`. The words of the block are put into the engine's own buffer and the
        schedule is computed there, also when the block is that buffer. */
    method Transform(data: array<bv8>, at: nat)
      requires Shaped() && at + BLOCK <= data.Length && (data == buffer ==> at == 0)
      modifies state, buffer
      ensures Chaining() == Compress(old(Chaining()), old(data[at..at + BLOCK]))
    {
      hide Rounds, Schedule, BigEndian, Slot, AddAll, Circular;
      ghost var block := data[at..at + BLOCK];
      ghost var start := Chaining();
      var r := FirstRounds(data, at, Regs(state[0], state[1], state[2], state[3], state[4], state[5], state[6],
        state[7]));
      r := LaterRounds(start, r, block);
      AddRegs(r);
    }

    /** The working variables are added to the chaining value. */
    method AddRegs(r: Regs)
      requires Shaped()
      modifies state
      ensures Chaining() == AddAll(old(Chaining()), r)
    {
      hide AddAll;
      var b := Regs(state[0], state[1], state[2], state[3], state[4], state[5], state[6], state[7]);
      SetState(AddAll(b, r));
    }

    /** Rounds 0 to 15, with the words of the block. */
    method FirstRounds(data: array<bv8>, at: nat, start: Regs) returns (r: Regs)
      requires Shaped() && at + BLOCK <= data.Length && (data == buffer ==> at == 0)
      modifies buffer
      ensures Circular(buffer[..], old(data[at..at + BLOCK]), 16)
      ensures r == Rounds(start, old(data[at..at + BLOCK]), 16)
    {
      hide Round, Rounds, Schedule, Circular, BigEndian, Slot, K;
      ghost var block := data[at..at + BLOCK];
      r := start;
      RoundsStep(start, block, 0);
      NothingYet(buffer[..], block);
      var j := 0;
      while j < 16
        invariant j <= 16 && Shaped()
        invariant forall i :: 8 * j <= i < BLOCK ==> data[at + i] == block[i]
        invariant Circular(buffer[..], block, j)
        invariant r == Rounds(start, block, j)
      {
        var w := LoadWord(data, at, j, block);
        RoundsStep(start, block, j + 1);
        r := RoundInPlace(r, K(j), w);
        j := j + 1;
      }
    }

    /** Puts word `j` of the data into the buffer, which may be where it is read from. */
    method LoadWord(data: array<bv8>, at: nat, j: nat, ghost block: seq<bv8>) returns (w: bv64)
      requires Shaped() && at + BLOCK <= data.Length && (data == buffer ==> at == 0) && j < 16 && |block| == BLOCK
      requires Circular(buffer[..], block, j) && forall i :: 8 * j <= i < BLOCK ==> data[at + i] == block[i]
      modifies buffer
      ensures w == Schedule(block, j) && Circular(buffer[..], block, j + 1)
      ensures forall i :: 8 * j + 8 <= i < BLOCK ==> data[at + i] == block[i]
    {
      hide Schedule, Circular, HostWord, HostBytes, Slot;
      ghost var before := buffer[..];
      w := FetchWord(data, at, j, block);
      PutSlot(buffer, j, w);
      CircularStep(before, buffer[..], block, j);
    }

    /** Rounds 16 to 79, with the words computed in the buffer. */
    method LaterRounds(ghost start: Regs, r16: Regs, ghost block: seq<bv8>) returns (r: Regs)
      requires Shaped() && Circular(buffer[..], block, 16) && r16 == Rounds(start, block, 16)
      modifies buffer
      ensures r == Rounds(start, block, 80)
    {
      hide Round, Rounds, Schedule, Circular, BigEndian, Slot, K, Sigma0, Sigma1, Add;
      r := r16;
      var j := 16;
      while j < 80
        invariant 16 <= j <= 80 && Shaped()
        invariant Circular(buffer[..], block, j)
        invariant r == Rounds(start, block, j)
      {
        ghost var before := buffer[..];
        var s0 := Sigma0(Slot(buffer[..], (j + 1) % 16));
        var s1 := Sigma1(Slot(buffer[..], (j + 14) % 16));
        var w := Add(Slot(buffer[..], j % 16), Add(Add(s1, Slot(buffer[..], (j + 9) % 16)), s0));
        NextWord(before, block, j);
        PutSlot(buffer, j % 16, w);
        CircularStep(before, buffer[..], block, j);
        RoundsStep(start, block, j + 1);
        r := RoundInPlace(r, K(j), w);
        j := j + 1;
      }
    }

    /** The working variables are moved one after the other. */
    method RoundInPlace(r: Regs, k: bv64, w: bv64) returns (s: Regs)
      ensures s == Round(r, k, w)
    {
      hide Sum0, Sum1, Ch, Maj, Add;
      var a, b, c, d := r.a, r.b, r.c, r.d;
      var e, f, g, h := r.e, r.f, r.g, r.h;
      var t1 := Add(Add(Add(Add(h, Sum1(e)), Ch(e, f, g)), k), w);
      var t2 := Add(Sum0(a), Maj(a, b, c));
      h := g;
      g := f;
      f := e;
      e := Add(d, t1);
      d := c;
      c := b;
      b := a;
      a := Add(t1, t2);
      s := Regs(a, b, c, d, e, f, g, h);
    }

    /** Read word `j` of the data and reverse its bytes. */
    method FetchWord(data: array<bv8>, at: nat, j: nat, ghost block: seq<bv8>) returns (w: bv64)
      requires at + BLOCK <= data.Length && j < 16 && |block| == BLOCK
      requires forall i :: 8 * j <= i < BLOCK ==> data[at + i] == block[i]
      ensures w == Schedule(block, j)
    {
      hide HostWord, BigEndian, Reverse64;
      var i := at + 8 * j;
      assert data[i..i + 8] == block[8 * j..8 * j + 8];
      ReverseHostWord(data[i..i + 8]);
      w := Reverse64(HostWord(data[i..i + 8]));
    }
  }

  lemma FirstZeros(was: seq<bv8>, buf: seq<bv8>)
    requires |was| == BLOCK && buf == was[..0] + Zeros(BLOCK - 2) + was[BLOCK - 2..]
    ensures buf[..SHORT_BLOCK] == Zeros(SHORT_BLOCK)
  {
  }

  method Feed(engine: Engine, chunk: seq<bv8>)
    requires engine.Valid()
    modifies engine, engine.state, engine.buffer
    ensures engine.Valid() && engine.msg == old(engine.msg) + chunk
  {
    hide Engine.Valid;
    var data := new bv8[|chunk|](k requires 0 <= k < |chunk| => chunk[k]);
    assert data[..|chunk|] == chunk;
    engine.Block(data, |chunk|);
  }

  /** A whole message, in chunks. */
  method Run(initial: Regs, chunks: seq<seq<bv8>>) returns (d: seq<bv8>)
    ensures d == RegsBytes(Hash(initial, Concat(chunks)))
  {
    hide Hash, RegsBytes, Counts, Rest, Zeros, Xor, Chain, Compress;
    var engine := new Engine(initial);
    ConcatAll(chunks);
    var i := 0;
    while i < |chunks|
      invariant i <= |chunks| && engine.Valid() && engine.msg == Concat(chunks[..i]) && engine.initial == initial
      invariant fresh(engine) && fresh(engine.state) && fresh(engine.buffer) && fresh(engine.digest)
        && fresh(engine.digestSum)
    {
      hide Engine.Valid;
      ConcatStep(chunks, i);
      Feed(engine, chunks[i]);
      i := i + 1;
    }
    engine.Done();
    d := engine.digest[..];
  }

  /** SHA-512 of a message in chunks: it does not depend on where the message is cut. */
  method Digest(chunks: seq<seq<bv8>>) returns (d: seq<bv8>)
    ensures d == Sha512(Concat(chunks))
  {
    hide Hash, RegsBytes;
    d := Run(INITIAL512, chunks);
  }

  /** SHA-384 of a message in chunks: the first 48 bytes of the digest. */
  method Digest384(chunks: seq<seq<bv8>>) returns (d: seq<bv8>)
    ensures d == Sha384(Concat(chunks))
  {
    hide Hash, RegsBytes;
    d := Run(INITIAL384, chunks);
    d := d[..48];
  }
}
