/** Hash functions as folds over blocks: the part that all engines of libsum share. */
module Blocks {
  import opened Division

  /** Fold the compression function over the whole blocks of `data`. */
  function Chain<S>(f: (S, seq<bv8>) -> S, b: nat, start: S, data: seq<bv8>): S
    requires b > 0
    decreases |data|
  {
    if |data| < b then start else Chain(f, b, f(start, data[..b]), data[b..])
  }

  /** The bytes after the last whole block. */
  function Rest(b: nat, data: seq<bv8>): (rest: seq<bv8>)
    requires b > 0
    ensures |rest| == |data| % b
  {
    data[|data| - |data| % b..]
  }

  /** `data` without its first block. */
  lemma DropBlock(b: nat, data: seq<bv8>)
    requires 0 < b <= |data|
    ensures Rest(b, data[b..]) == Rest(b, data)
    ensures |data[b..]| % b == |data| % b
  {
    LessOne(|data|, b);
    var kept := |data| % b;
    assert kept <= |data| - b by {
      LessOrEqual(|data| - b, b);
    }
    assert data[b..][|data| - b - kept..] == data[|data| - kept..];
  }

  lemma LessOrEqual(n: nat, b: nat)
    requires b > 0
    ensures 0 <= n % b <= n && n % b < b
  {
  }

  lemma OneBlock<S>(f: (S, seq<bv8>) -> S, b: nat, start: S, block: seq<bv8>)
    requires |block| == b > 0
    ensures Chain(f, b, start, block) == f(start, block)
  {
    assert block[..b] == block && block[b..] == [];
    assert Chain(f, b, f(start, block), []) == f(start, block);
  }

  /** Bytes that do not complete a block are kept. */
  lemma {:induction false} KeepShort<S>(f: (S, seq<bv8>) -> S, b: nat, start: S, data: seq<bv8>, more: seq<bv8>)
    requires b > 0 && |Rest(b, data)| + |more| < b
    ensures Chain(f, b, start, data + more) == Chain(f, b, start, data)
    ensures Rest(b, data + more) == Rest(b, data) + more
    decreases |data|
  {
    if |data| < b {
      Remainder(|data|, b, 0, |data|);
      Remainder(|data| + |more|, b, 0, |data| + |more|);
      assert Rest(b, data) == data;
    } else {
      DropBlock(b, data);
      DropBlock(b, data + more);
      assert (data + more)[b..] == data[b..] + more && (data + more)[..b] == data[..b];
      KeepShort(f, b, f(start, data[..b]), data[b..], more);
    }
  }

  /** Bytes that complete a block are compressed with what was kept. */
  lemma {:induction false} CompleteBlock<S>(f: (S, seq<bv8>) -> S, b: nat, start: S, data: seq<bv8>, more: seq<bv8>)
    requires b > 0 && |Rest(b, data)| + |more| == b
    ensures Chain(f, b, start, data + more) == f(Chain(f, b, start, data), Rest(b, data) + more)
    ensures Rest(b, data + more) == []
    decreases |data|
  {
    if |data| < b {
      Remainder(|data|, b, 0, |data|);
      Remainder(b, b, 1, 0);
      assert Rest(b, data) == data && (data + more)[..b] == data + more;
      assert Chain(f, b, f(start, data + more), []) == f(start, data + more);
    } else {
      DropBlock(b, data);
      DropBlock(b, data + more);
      assert (data + more)[b..] == data[b..] + more && (data + more)[..b] == data[..b];
      CompleteBlock(f, b, f(start, data[..b]), data[b..], more);
    }
  }

  function Zeros(n: nat): seq<bv8> { seq(n, _ => 0) }

  lemma AllZeros(a: seq<bv8>)
    requires forall i :: 0 <= i < |a| ==> a[i] == 0
    ensures a == Zeros(|a|)
  {
  }

  /** The zero bytes of the padding. */
  function Gap(b: nat, used: nat, tail: nat): (k: nat)
    requires b > 0
    ensures k < b
  {
    var over := (used + 1 + tail) % b;
    if over == 0 then 0 else b - over
  }

  /** They are as few as make the padded message whole blocks. */
  lemma GapIsLeast(b: nat, used: nat, tail: nat, j: nat)
    requires b > 0 && j <= Gap(b, used, tail)
    ensures (used + 1 + j + tail) % b == 0 <==> j == Gap(b, used, tail)
  {
    var n := used + 1 + tail;
    var q, over := n / b, n % b;
    assert n == b * q + over;
    if over > 0 {
      if j == b - over {
        assert n + j == b * (q + 1) + 0 by { assert b * (q + 1) == b * q + b; }
        Remainder(n + j, b, q + 1, 0);
      } else {
        Remainder(n + j, b, q, over + j);
      }
    }
  }

  /** A message, a one bit, zero bits, and the length: sections 3.1 and 3.2 of RFC 1321, and
      section 5.1 of FIPS 180-4, for messages of whole bytes. */
  function Padded(b: nat, msg: seq<bv8>, length: seq<bv8>): (r: seq<bv8>)
    requires b > 0
    ensures |r| % b == 0
  {
    GapIsLeast(b, |msg|, |length|, Gap(b, |msg|, |length|));
    msg + [0x80] + Zeros(Gap(b, |msg|, |length|)) + length
  }

  /** Only the bytes after the last whole block decide how many zeros there are. */
  lemma GapOfRest(b: nat, used: nat, tail: nat)
    requires b > 0
    ensures Gap(b, used, tail) == Gap(b, used % b, tail)
  {
    var q := used / b;
    var s := used % b + 1 + tail;
    var q', r' := s / b, s % b;
    assert used + 1 + tail == b * (q + q') + r';
    Remainder(used + 1 + tail, b, q + q', r');
  }

  /** The padding when the length fits in the last block. */
  lemma PaddedShort<S>(f: (S, seq<bv8>) -> S, b: nat, start: S, msg: seq<bv8>, field: seq<bv8>)
    requires |field| < b && |msg| % b + |field| < b
    ensures var more := [0x80] + Zeros(b - |field| - 1 - |msg| % b) + field;
      Chain(f, b, start, Padded(b, msg, field)) == f(Chain(f, b, start, msg), Rest(b, msg) + more)
  {
    hide Chain, Rest;
    GapOfRest(b, |msg|, |field|);
    GapShort(b, |msg| % b, |field|);
    var more := [0x80] + Zeros(b - |field| - 1 - |msg| % b) + field;
    assert Padded(b, msg, field) == msg + more;
    CompleteBlock(f, b, start, msg, more);
  }

  /** The padding when the length needs another block. */
  lemma PaddedLong<S>(f: (S, seq<bv8>) -> S, b: nat, start: S, msg: seq<bv8>, field: seq<bv8>)
    requires |field| < b && |msg| % b + |field| >= b
    ensures var more := [0x80] + Zeros(b - 1 - |msg| % b);
      Chain(f, b, start, Padded(b, msg, field))
      == f(f(Chain(f, b, start, msg), Rest(b, msg) + more), Zeros(b - |field|) + field)
  {
    hide Chain, Rest;
    GapOfRest(b, |msg|, |field|);
    GapLong(b, |msg| % b, |field|);
    var more := [0x80] + Zeros(b - 1 - |msg| % b);
    assert Padded(b, msg, field) == msg + more + (Zeros(b - |field|) + field);
    CompleteBlock(f, b, start, msg, more);
    CompleteBlock(f, b, start, msg + more, Zeros(b - |field|) + field);
    assert [] + (Zeros(b - |field|) + field) == Zeros(b - |field|) + field;
  }

  lemma GapShort(b: nat, used: nat, tail: nat)
    requires used + tail < b
    ensures Gap(b, used, tail) == b - tail - 1 - used
  {
    if used + 1 + tail == b {
      Remainder(b, b, 1, 0);
    } else {
      Remainder(used + 1 + tail, b, 0, used + 1 + tail);
    }
  }

  lemma GapLong(b: nat, used: nat, tail: nat)
    requires used < b && tail < b && used + tail >= b
    ensures Gap(b, used, tail) == 2 * b - tail - 1 - used
  {
    Remainder(used + 1 + tail, b, 1, used + 1 + tail - b);
  }

  /** Byte `i` of a number, the least significant being number 0. */
  function Octet(n: nat, i: nat): bv8 {
    if i == 0 then (n % 256) as bv8 else Octet(n / 256, i - 1)
  }

  lemma {:induction false} SmallOctet(n: nat, i: nat)
    requires n < 256
    ensures Octet(n, i) == if i == 0 then n as bv8 else 0
  {
    if i > 0 {
      SmallOctet(0, i - 1);
    }
  }

  /** The last `size` bytes of a number, the most significant first. */
  function BigEndianBytes(n: nat, size: nat): seq<bv8> { seq(size, i requires 0 <= i < size => Octet(n, size - 1 - i)) }

  /** The last `size` bytes of a number, the least significant first. */
  function LittleEndianBytes(n: nat, size: nat): seq<bv8> { seq(size, i requires 0 <= i < size => Octet(n, i)) }

  function XorByte(a: bv8, b: bv8): bv8 { a ^ b }

  /** What was read up to `pos`, and then up to `end`. */
  lemma MoreRead(start: seq<bv8>, data: seq<bv8>, pos: nat, end: nat)
    requires pos <= end <= |data|
    ensures start + data[..pos] + data[pos..end] == start + data[..end]
  {
  }

  /** Adds a digest to the sum of the digests, without carry. */
  method AddDigest(sum: array<bv8>, digest: array<bv8>)
    requires sum.Length == digest.Length && sum != digest
    modifies sum
    ensures sum[..] == Xor(old(sum[..]), digest[..])
  {
    var i := 0;
    while i < sum.Length
      invariant i <= sum.Length
      invariant forall k :: 0 <= k < i ==> sum[k] == XorByte(old(sum[k]), digest[k])
      invariant forall k :: i <= k < sum.Length ==> sum[k] == old(sum[k])
    {
      sum[i] := XorByte(sum[i], digest[i]);
      i := i + 1;
    }
  }

  /** The digests of several files, added without carry. */
  function Xor(a: seq<bv8>, b: seq<bv8>): seq<bv8>
    requires |a| == |b|
  {
    seq(|a|, i requires 0 <= i < |a| => XorByte(a[i], b[i]))
  }

  /** `memcpy` between different arrays. */
  method Copy(to: array<bv8>, at: nat, from: array<bv8>, pos: nat, n: nat)
    requires to != from && at + n <= to.Length && pos + n <= from.Length
    modifies to
    ensures to[..] == old(to[..at] + from[pos..pos + n] + to[at + n..])
  {
    forall i | 0 <= i < n {
      to[at + i] := from[pos + i];
    }
  }

  /** `memset` to zero. */
  method Clear(a: array<bv8>, at: nat, n: nat)
    requires at + n <= a.Length
    modifies a
    ensures a[..] == old(a[..at]) + Zeros(n) + old(a[at + n..])
  {
    forall i | at <= i < at + n {
      a[i] := 0;
    }
  }

  /** The kept bytes, the mark and zeros. */
  lemma Layout(buf: seq<bv8>, rest: seq<bv8>, n: nat, field: seq<bv8>)
    requires |rest| < n <= |buf| && buf[..|rest|] == rest && buf[|rest|] == 0x80
    requires forall k :: |rest| < k < n ==> buf[k] == 0
    ensures buf[..n] + field == rest + ([0x80] + Zeros(n - 1 - |rest|) + field)
    ensures field == [] ==> buf[..n] == rest + ([0x80] + Zeros(n - 1 - |rest|))
  {
    assert buf[..n] == rest + ([0x80] + Zeros(n - 1 - |rest|));
  }

  function Pow256(k: nat): (p: nat)
    ensures p > 0
  {
    if k == 0 then 1 else 256 * Pow256(k - 1)
  }

  /** The octets of a number made of a high and a low part. */
  lemma {:induction false} OctetOfParts(hi: nat, lo: nat, k: nat, i: nat)
    requires lo < Pow256(k)
    ensures Octet(hi * Pow256(k) + lo, i) == if i < k then Octet(lo, i) else Octet(hi, i - k)
  {
    if k > 0 {
      var p := Pow256(k - 1);
      var n := hi * Pow256(k) + lo;
      assert n == 256 * (hi * p + lo / 256) + lo % 256;
      assert n / 256 == hi * p + lo / 256 && n % 256 == lo % 256;
      if i > 0 {
        OctetOfParts(hi, lo / 256, k - 1, i - 1);
      }
    }
  }
}
