/** 64-bit words and their bytes. */
module Words64 {

  /** Addition modulo 2^64. */
  function Add(x: bv64, y: bv64): bv64 { x + y }

  lemma AddCommutes(x: bv64, y: bv64)
    ensures Add(x, y) == Add(y, x)
  {
  }

  /** A word from eight bytes, the most significant first. */
  function Join(b0: bv8, b1: bv8, b2: bv8, b3: bv8, b4: bv8, b5: bv8, b6: bv8, b7: bv8): bv64 {
    ((b0 as bv64) << 56) | ((b1 as bv64) << 48) | ((b2 as bv64) << 40) | ((b3 as bv64) << 32)
    | ((b4 as bv64) << 24) | ((b5 as bv64) << 16) | ((b6 as bv64) << 8) | (b7 as bv64)
  }

  /** Byte `k` of a word, the least significant being number 0. */
  function Byte(w: bv64, k: nat): bv8
    requires k < 8
  {
    if k == 0 then (w & 0xff) as bv8
    else if k == 1 then ((w >> 8) & 0xff) as bv8
    else if k == 2 then ((w >> 16) & 0xff) as bv8
    else if k == 3 then ((w >> 24) & 0xff) as bv8
    else if k == 4 then ((w >> 32) & 0xff) as bv8
    else if k == 5 then ((w >> 40) & 0xff) as bv8
    else if k == 6 then ((w >> 48) & 0xff) as bv8
    else (w >> 56) as bv8
  }

  function BigEndian(b: seq<bv8>): bv64
    requires |b| == 8
  {
    Join(b[0], b[1], b[2], b[3], b[4], b[5], b[6], b[7])
  }

  /** The eight bytes of a word, the most significant first. */
  function WordBytes(w: bv64): (d: seq<bv8>)
    ensures |d| == 8
  {
    [Byte(w, 7), Byte(w, 6), Byte(w, 5), Byte(w, 4), Byte(w, 3), Byte(w, 2), Byte(w, 1), Byte(w, 0)]
  }

  /** Word `t` of a block. */
  function BlockWord(block: seq<bv8>, t: nat): bv64
    requires t < 16
  {
    if |block| == 128 then BigEndian(block[8 * t..8 * t + 8]) else 0
  }

  /** The bytes of several words. */
  function WordsBytes(words: seq<bv64>): (d: seq<bv8>)
    ensures |d| == 8 * |words|
  {
    if words == [] then [] else WordsBytes(words[..|words| - 1]) + WordBytes(words[|words| - 1])
  }

  lemma WordsSnoc(words: seq<bv64>, w: bv64, all: seq<bv64>)
    requires all == words + [w]
    ensures WordsBytes(all) == WordsBytes(words) + WordBytes(w)
  {
    hide WordBytes;
    assert all[..|words|] == words;
  }

  lemma FourWords(a: bv64, b: bv64, c: bv64, d: bv64)
    ensures WordsBytes([a, b, c, d]) == WordBytes(a) + WordBytes(b) + WordBytes(c) + WordBytes(d)
  {
    hide WordBytes, WordsBytes;
    OneWord(a);
    WordsSnoc([a], b, [a, b]);
    WordsSnoc([a, b], c, [a, b, c]);
    WordsSnoc([a, b, c], d, [a, b, c, d]);
  }

  lemma OneWord(a: bv64)
    ensures WordsBytes([a]) == WordBytes(a)
  {
    hide WordBytes;
    assert WordsBytes([]) == [];
  }

  lemma EightWords(a: bv64, b: bv64, c: bv64, d: bv64, e: bv64, f: bv64, g: bv64, h: bv64)
    ensures WordsBytes([a, b, c, d, e, f, g, h])
         == WordBytes(a) + WordBytes(b) + WordBytes(c) + WordBytes(d) + WordBytes(e) + WordBytes(f) + WordBytes(g)
            + WordBytes(h)
  {
    hide WordBytes, WordsBytes;
    FourWords(a, b, c, d);
    WordsSnoc([a, b, c, d], e, [a, b, c, d, e]);
    WordsSnoc([a, b, c, d, e], f, [a, b, c, d, e, f]);
    WordsSnoc([a, b, c, d, e, f], g, [a, b, c, d, e, f, g]);
    WordsSnoc([a, b, c, d, e, f, g], h, [a, b, c, d, e, f, g, h]);
  }

  // How a little-endian host reads and writes them.

  /** A word as the host reads it: the least significant byte first. */
  function HostWord(b: seq<bv8>): bv64
    requires |b| == 8
  {
    Join(b[7], b[6], b[5], b[4], b[3], b[2], b[1], b[0])
  }

  function HostBytes(w: bv64): (d: seq<bv8>)
    ensures |d| == 8
  {
    [Byte(w, 0), Byte(w, 1), Byte(w, 2), Byte(w, 3), Byte(w, 4), Byte(w, 5), Byte(w, 6), Byte(w, 7)]
  }

  lemma HostBytesAt(w: bv64, k: nat)
    requires k < 8
    ensures HostBytes(w)[k] == Byte(w, k)
  {
    hide Byte;
  }

  lemma HostWordOfBytes(w: bv64)
    ensures HostWord(HostBytes(w)) == w
  {
    hide Join, Byte;
    JoinBytes(w);
  }

  lemma JoinBytes(w: bv64)
    ensures Join(Byte(w, 7), Byte(w, 6), Byte(w, 5), Byte(w, 4), Byte(w, 3), Byte(w, 2), Byte(w, 1), Byte(w, 0)) == w
  {
  }

  /** `REVERSE64`. */
  function Reverse64(w: bv64): bv64 {
    var tmp := (w >> 32) | (w << 32);
    var tmp' := ((tmp & 0xff00ff00ff00ff00) >> 8) | ((tmp & 0x00ff00ff00ff00ff) << 8);
    ((tmp' & 0xffff0000ffff0000) >> 16) | ((tmp' & 0x0000ffff0000ffff) << 16)
  }

  lemma ReverseJoin(b0: bv8, b1: bv8, b2: bv8, b3: bv8, b4: bv8, b5: bv8, b6: bv8, b7: bv8)
    ensures Reverse64(Join(b7, b6, b5, b4, b3, b2, b1, b0)) == Join(b0, b1, b2, b3, b4, b5, b6, b7)
  {
  }

  lemma ReverseHostWord(b: seq<bv8>)
    requires |b| == 8
    ensures Reverse64(HostWord(b)) == BigEndian(b)
  {
    hide Join, Reverse64;
    ReverseJoin(b[0], b[1], b[2], b[3], b[4], b[5], b[6], b[7]);
  }

  lemma ReverseByte(w: bv64, k: nat)
    requires k < 8
    ensures Byte(Reverse64(w), k) == Byte(w, 7 - k)
  {
    hide Byte, Join, Reverse64;
    var b := HostBytes(w);
    HostWordOfBytes(w);
    ReverseHostWord(b);
    HostBytesAt(w, 7 - k);
    BytesOfJoin(b[0], b[1], b[2], b[3], b[4], b[5], b[6], b[7]);
  }

  lemma BytesOfJoin(b0: bv8, b1: bv8, b2: bv8, b3: bv8, b4: bv8, b5: bv8, b6: bv8, b7: bv8)
    ensures var w := Join(b0, b1, b2, b3, b4, b5, b6, b7);
      && Byte(w, 0) == b7 && Byte(w, 1) == b6 && Byte(w, 2) == b5 && Byte(w, 3) == b4
      && Byte(w, 4) == b3 && Byte(w, 5) == b2 && Byte(w, 6) == b1 && Byte(w, 7) == b0
  {
  }

  /** A word stored after its bytes were reversed has the most significant byte first. */
  lemma ReversedBytes(w: bv64)
    ensures HostBytes(Reverse64(w)) == WordBytes(w)
  {
    hide Byte, Reverse64;
    forall k: nat | k < 8 ensures Byte(Reverse64(w), k) == Byte(w, 7 - k) {
      ReverseByte(w, k);
    }
  }

  lemma OneMoreWord(d: seq<bv8>, before: seq<bv8>, r: seq<bv64>, k: nat)
    requires |d| == |before| && 8 * k + 8 <= |d| && k < |r|
    requires before[..8 * k] == WordsBytes(r[..k]) && d[..8 * k] == before[..8 * k]
    requires d[8 * k..8 * k + 8] == WordBytes(r[k])
    ensures d[..8 * k + 8] == WordsBytes(r[..k + 1])
  {
    hide WordBytes;
    assert r[..k + 1][..k] == r[..k];
    assert d[..8 * k + 8] == d[..8 * k] + d[8 * k..8 * k + 8];
  }

  lemma NoWords(d: seq<bv8>, r: seq<bv64>)
    requires d == [] && r == []
    ensures d == WordsBytes(r)
  {
  }
}
