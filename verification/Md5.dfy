/** MD5 of libsum (sum-md5.c): the engine around the compression function, which is a parameter, as
    are its initial value and the bytes of its values. */
module Md5 {
  import opened Blocks
  import opened Chunks
  import opened Division

  const BLOCK: nat := 64

  const TWO32: nat := 0x1_0000_0000

  const TWO64: nat := 0x1_0000_0000_0000_0000

  /** The length field of section 3.2 of RFC 1321: the number of bits, the low byte first. */
  function LengthField(n: nat): (f: seq<bv8>)
    ensures |f| == 8
  {
    LittleEndianBytes(8 * n % TWO64, 8)
  }

  // ---------------------------------------------------------------------------------------
  // The bit count
  // ---------------------------------------------------------------------------------------

  /** The two words hold the number of bits of `n` bytes. */
  predicate Counts(n: nat, high: nat, low: nat) {
    high < TWO32 && low < TWO32 && high * TWO32 + low == 8 * n % TWO64
  }

  function LowAfter(low: nat, len: nat): nat { (low + 8 * len % TWO32) % TWO32 }

  /** The carry is taken where the low word has wrapped; the bits that the shift lost are added too,
      as far as a length of 32 bits has them. */
  function HighAfter(high: nat, low: nat, len: nat): nat {
    (high + (if LowAfter(low, len) < 8 * len % TWO32 then 1 else 0) + len % TWO32 / 0x2000_0000) % TWO32
  }

  /** The count is right after a chunk exactly if its length loses nothing that matters in 32 bits. */
  lemma CountAfter(n: nat, high: nat, low: nat, len: nat)
    requires Counts(n, high, low)
    ensures Counts(n + len, HighAfter(high, low, len), LowAfter(low, len)) <==> len / TWO32 % 0x2000_0000 == 0
  {
    var b, c := 8 * len % TWO32, 8 * len / TWO32;
    var low' := LowAfter(low, len);
    CarryMeans(low, b);
    var carry := if low' < b then 1 else 0;
    assert low + b == TWO32 * carry + low';
    var p := 8 * n / TWO64;
    assert 8 * (n + len) == TWO64 * p + TWO32 * (high + carry + c) + low';
    TotalBits(p, high + carry + c, low', n + len);
    Lengths(len);
    var part := len % TWO32 / 0x2000_0000;
    assert c == part + 8 * (len / TWO32);
    SameHigh(high + carry + part, len / TWO32);
  }

  lemma CarryMeans(low: nat, n: nat)
    requires low < TWO32 && n < TWO32
    ensures (low + n) % TWO32 < n <==> low + n >= TWO32
  {
    if low + n >= TWO32 {
      Remainder(low + n, TWO32, 1, low + n - TWO32);
    }
  }

  lemma TotalBits(p: nat, h: nat, low: nat, n: nat)
    requires low < TWO32 && 8 * n == TWO64 * p + TWO32 * h + low
    ensures 8 * n % TWO64 == h % TWO32 * TWO32 + low
  {
    var q, r := h / TWO32, h % TWO32;
    assert 8 * n == TWO64 * (p + q) + (r * TWO32 + low);
    Remainder(8 * n, TWO64, p + q, r * TWO32 + low);
  }

  lemma Lengths(len: nat)
    ensures 8 * len / TWO32 == len % TWO32 / 0x2000_0000 + 8 * (len / TWO32)
  {
    var m := len % TWO32;
    var a := m / 0x2000_0000;
    assert 8 * len == TWO32 * (8 * (len / TWO32) + a) + 8 * (m - 0x2000_0000 * a);
  }

  lemma SameHigh(h: nat, k: nat)
    ensures (h + 8 * k) % TWO32 == h % TWO32 <==> k % 0x2000_0000 == 0
  {
    var q, r := k / 0x2000_0000, k % 0x2000_0000;
    assert h + 8 * k == TWO32 * (q + h / TWO32) + (h % TWO32 + 8 * r);
    var s := h % TWO32 + 8 * r;
    if s < TWO32 {
      Remainder(h + 8 * k, TWO32, q + h / TWO32, s);
    } else {
      Remainder(h + 8 * k, TWO32, q + h / TWO32 + 1, s - TWO32);
    }
  }

  /** The low word tells how much of the buffer is used. */
  lemma UsedSpace(n: nat, high: nat, low: nat)
    requires Counts(n, high, low)
    ensures low / 8 % BLOCK == n % BLOCK
  {
    var q := TWO32 * (8 * n / TWO64) + high;
    assert 8 * n == TWO32 * q + low;
    var m := n - 0x2000_0000 * q;
    assert low == 8 * m;
    assert n == BLOCK * (0x80_0000 * q + m / BLOCK) + m % BLOCK;
    Remainder(n, BLOCK, 0x80_0000 * q + m / BLOCK, m % BLOCK);
  }

  /** `md5_encode` of the count: the low word first, each word with its low byte first. */
  lemma FieldByte(n: nat, high: nat, low: nat, i: nat)
    requires Counts(n, high, low) && i < 8
    ensures LengthField(n)[i] == if i < 4 then Octet(low, i) else Octet(high, i - 4)
  {
    hide Octet;
    assert Pow256(4) == TWO32 by {
      assert Pow256(2) == 65536;
    }
    OctetOfParts(high, low, 4, i);
  }

  /** The padding of `md5_done` leaves room for the length and no more. */
  lemma PadLength(n: nat)
    ensures (if n % BLOCK < 56 then 56 - n % BLOCK else 120 - n % BLOCK) == 1 + Gap(BLOCK, n, 8)
  {
    GapOfRest(BLOCK, n, 8);
    if n % BLOCK < 56 {
      GapShort(BLOCK, n % BLOCK, 8);
    } else {
      GapLong(BLOCK, n % BLOCK, 8);
    }
  }

  lemma NothingRead<S>(compress: (S, seq<bv8>) -> S, initial: S)
    ensures Counts(0, 0, 0) && Chain(compress, BLOCK, initial, []) == initial && Rest(BLOCK, []) == []
  {
  }

  // ---------------------------------------------------------------------------------------
  // The engine
  // ---------------------------------------------------------------------------------------

  class Engine<S(!new)> {
    const compress: (S, seq<bv8>) -> S
    const initial: S
    const encode: S -> seq<bv8>
    const buffer: array<bv8>
    const digest: array<bv8>
    const digestSum: array<bv8>
    var state: S
    var count0: nat
    var count1: nat
    ghost var msg: seq<bv8>

    ghost predicate Shaped() {
      && buffer.Length == BLOCK && digest.Length == digestSum.Length == 16
      && (forall s {:trigger encode(s)} :: |encode(s)| == 16)
      && buffer != digest && buffer != digestSum && digest != digestSum
    }

    /** The chaining value after the whole blocks of a message. */
    ghost function Chained(m: seq<bv8>): S {
      Chain(compress, BLOCK, initial, m)
    }

    /** The hash of a message, RFC 1321. */
    ghost function Hash(m: seq<bv8>): seq<bv8> {
      encode(Chained(Padded(BLOCK, m, LengthField(|m|))))
    }

    /** The bytes of `read` have gone through the transform or are kept. */
    ghost predicate Streamed(read: seq<bv8>)
      reads `state, buffer
    {
      && Shaped()
      && state == Chained(read)
      && buffer[..|read| % BLOCK] == Rest(BLOCK, read)
    }

    ghost predicate Valid()
      reads this, buffer
    {
      Streamed(msg) && Counts(|msg|, count1, count0)
    }

    constructor (compress: (S, seq<bv8>) -> S, initial: S, encode: S -> seq<bv8>)
      requires forall s {:trigger encode(s)} :: |encode(s)| == 16
      ensures Valid() && msg == []
      ensures this.compress == compress && this.initial == initial && this.encode == encode
      ensures fresh(buffer) && fresh(digest) && fresh(digestSum)
      ensures digestSum[..] == Zeros(16)
    {
      hide Chain, Rest, Counts, Zeros;
      NothingRead(compress, initial);
      var sum := new bv8[16](_ => 0);
      AllZeros(sum[..]);
      this.compress, this.initial, this.encode := compress, initial, encode;
      buffer := new bv8[BLOCK](_ => 0);
      digest := new bv8[16](_ => 0);
      digestSum := sum;
      state, count0, count1, msg := initial, 0, 0, [];
    }

    method Transform(data: array<bv8>, at: nat)
      requires at + BLOCK <= data.Length
      modifies `state
      ensures state == compress(old(state), data[at..at + BLOCK])
    {
      state := compress(state, data[at..at + BLOCK]);
    }

    /** `md5_block`. The index has 32 bits, which limits the chunk. */
    method Block(data: array<bv8>, length: nat)
      requires Valid() && length <= data.Length && length + |msg| % BLOCK < TWO32 && data != buffer
      modifies this, buffer
      ensures Valid() && msg == old(msg) + data[..length]
    {
      hide Chain, Rest, Streamed, Counts;
      ghost var start := msg;
      UsedSpace(|msg|, count1, count0);
      var index := count0 / 8 % BLOCK;
      AddCount(length);
      var partLen := BLOCK - index;
      var i: nat := 0;
      assert start + data[..0] == start;
      if length >= partLen {
        FillBuffer(data, index, start);
        i := WholeBlocks(data, partLen, length, start);
        index := 0;
      }
      Keep(data, i, index, length, start);
      msg := start + data[..length];
    }

    /** The number of bits: only the low word of the length takes part. */
    method AddCount(length: nat)
      requires Counts(|msg|, count1, count0) && length < TWO32
      modifies `count0, `count1
      ensures Counts(|msg| + length, count1, count0)
    {
      hide Counts;
      CountAfter(|msg|, count1, count0, length);
      var shifted := 8 * length % TWO32;
      count0 := (count0 + shifted) % TWO32;
      var carry := if count0 < shifted then 1 else 0;
      count1 := (count1 + carry + length / 0x2000_0000) % TWO32;
    }

    method FillBuffer(data: array<bv8>, index: nat, ghost start: seq<bv8>)
      requires Streamed(start) && data != buffer
      requires index == |start| % BLOCK && BLOCK - index <= data.Length
      modifies `state, buffer
      ensures Streamed(start + data[..BLOCK - index]) && |start + data[..BLOCK - index]| % BLOCK == 0
    {
      hide Chain;
      var free := BLOCK - index;
      CompleteBlock(compress, BLOCK, initial, start, data[..free]);
      assert |Rest(BLOCK, start + data[..free])| == 0;
      Copy(buffer, index, data, 0, free);
      assert buffer[0..0 + BLOCK] == Rest(BLOCK, start) + data[..free];
      Transform(buffer, 0);
    }

    /** The loop over whole blocks, from index `i0` on. */
    method WholeBlocks(data: array<bv8>, i0: nat, length: nat, ghost start: seq<bv8>) returns (i: nat)
      requires i0 <= length <= data.Length && length < TWO32 - 64 + i0 && 0 < i0 <= BLOCK && data != buffer
      requires Streamed(start + data[..i0]) && |start + data[..i0]| % BLOCK == 0
      modifies `state
      ensures i <= length < i + 64
      ensures Streamed(start + data[..i]) && |start + data[..i]| % BLOCK == 0
    {
      hide Chain, Rest, Streamed;
      i := i0;
      IndexFits(i0, i, length);
      while (i + 63) % TWO32 < length
        modifies `state
        invariant i <= length && (i - i0) % BLOCK == 0 && (i + 63) % TWO32 == i + 63
        invariant Streamed(start + data[..i]) && |start + data[..i]| % BLOCK == 0
        decreases length - i
      {
        WholeBlock(data, i, start);
        IndexFits(i0, i + 64, length);
        i := (i + 64) % TWO32;
      }
    }

    method WholeBlock(data: array<bv8>, i: nat, ghost start: seq<bv8>)
      requires i + BLOCK <= data.Length && data != buffer
      requires Streamed(start + data[..i]) && |start + data[..i]| % BLOCK == 0
      modifies `state
      ensures Streamed(start + data[..i + BLOCK]) && |start + data[..i + BLOCK]| % BLOCK == 0
    {
      hide Chain;
      ghost var read := start + data[..i];
      CompleteBlock(compress, BLOCK, initial, read, data[i..i + BLOCK]);
      assert |Rest(BLOCK, read + data[i..i + BLOCK])| == 0;
      assert start + data[..i + BLOCK] == read + data[i..i + BLOCK];
      assert Rest(BLOCK, read) + data[i..i + BLOCK] == data[i..i + BLOCK];
      Transform(data, i);
    }

    method Keep(data: array<bv8>, i: nat, index: nat, length: nat, ghost start: seq<bv8>)
      requires i <= length <= data.Length && data != buffer
      requires Streamed(start + data[..i]) && index == |start + data[..i]| % BLOCK && index + (length - i) < BLOCK
      modifies buffer
      ensures Streamed(start + data[..length])
    {
      hide Chain;
      ghost var read := start + data[..i];
      KeepShort(compress, BLOCK, initial, read, data[i..length]);
      assert |Rest(BLOCK, read + data[i..length])| == index + (length - i);
      assert start + data[..length] == read + data[i..length];
      Copy(buffer, index, data, i, length - i);
    }

    /** `md5_done`: the padding and the length go in like any other bytes. */
    method Done()
      requires Valid()
      modifies this, buffer, digest, digestSum
      ensures Shaped() && digest[..] == Hash(old(msg))
      ensures digestSum[..] == Xor(old(digestSum[..]), digest[..])
    {
      hide Chain, Rest, Counts, LengthField, Padded;
      Pad();
      var bytes := encode(state);
      forall i | 0 <= i < 16 {
        digest[i] := bytes[i];
      }
      assert digest[..] == bytes;
      AddDigest(digestSum, digest);
    }

    /** The padding, and the length before it. */
    method Pad()
      requires Valid()
      modifies this, buffer
      ensures Valid() && msg == Padded(BLOCK, old(msg), LengthField(|old(msg)|))
    {
      hide Chain, Rest, Counts, Gap, LengthField, Streamed, Zeros;
      ghost var start := msg;
      var bits := EncodeCount();
      UsedSpace(|msg|, count1, count0);
      var index := count0 / 8 % BLOCK;
      var padLen := if index < 56 then 56 - index else 120 - index;
      PadLength(|msg|);
      var pad := new bv8[BLOCK](i => if i == 0 then 0x80 else 0);
      ghost var gap := Gap(BLOCK, |msg|, 8);
      PadBytes(pad[..], gap);
      Block(pad, padLen);
      Block(bits, 8);
      assert msg == start + ([0x80] + Zeros(gap)) + LengthField(|start|);
      assert start + ([0x80] + Zeros(gap)) == start + [0x80] + Zeros(gap);
    }

    /** The number of bits, before the padding. */
    method EncodeCount() returns (bits: array<bv8>)
      requires Counts(|msg|, count1, count0)
      ensures fresh(bits) && bits.Length == 8 && bits[..8] == LengthField(|msg|)
    {
      hide Octet, Counts, LengthField;
      var high, low := count1, count0;
      forall i: nat | i < 8 ensures LengthField(|msg|)[i] == if i < 4 then Octet(low, i) else Octet(high, i - 4) {
        FieldByte(|msg|, high, low, i);
      }
      bits := new bv8[8](i requires 0 <= i < 8 => if i < 4 then Octet(low, i) else Octet(high, i - 4));
    }
  }

  lemma PadBytes(pad: seq<bv8>, gap: nat)
    requires gap + 1 <= |pad| && forall i :: 0 <= i < |pad| ==> pad[i] == if i == 0 then 0x80 else 0
    ensures pad[..gap + 1] == [0x80] + Zeros(gap)
  {
  }

  /** Within the limit the index does not wrap. */
  lemma IndexFits(i0: nat, i: nat, length: nat)
    requires 0 < i0 <= 64 && i0 <= i && (i - i0) % 64 == 0 && i <= length && length < TWO32 - 64 + i0
    ensures i < TWO32 && (i + 63) % TWO32 == i + 63
  {
    assert i - i0 <= TWO32 - 128;
  }

  /** A whole message, in chunks: the digest does not depend on where the message is cut. */
  method Digest<S(!new)>(compress: (S, seq<bv8>) -> S, initial: S, encode: S -> seq<bv8>, chunks: seq<seq<bv8>>)
    returns (d: seq<bv8>)
    requires forall s {:trigger encode(s)} :: |encode(s)| == 16
    requires forall i {:trigger chunks[i]} :: 0 <= i < |chunks| ==> |chunks[i]| <= TWO32 - 64
    ensures var msg := Concat(chunks);
      d == encode(Chain(compress, BLOCK, initial, Padded(BLOCK, msg, LengthField(|msg|))))
  {
    hide Chain, Padded, LengthField, Counts, Rest, Zeros, Xor;
    var engine := new Engine(compress, initial, encode);
    ConcatAll(chunks);
    var i := 0;
    while i < |chunks|
      invariant i <= |chunks| && engine.Valid() && engine.msg == Concat(chunks[..i])
      invariant engine.compress == compress && engine.initial == initial && engine.encode == encode
      invariant fresh(engine) && fresh(engine.buffer) && fresh(engine.digest) && fresh(engine.digestSum)
    {
      hide Engine.Valid;
      ConcatStep(chunks, i);
      var chunk := chunks[i];
      var data := new bv8[|chunk|](k requires 0 <= k < |chunk| => chunk[k]);
      assert data[..|chunk|] == chunk;
      engine.Block(data, |chunk|);
      i := i + 1;
    }
    engine.Done();
    d := engine.digest[..];
  }
}
