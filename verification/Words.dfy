/** 32-bit words and their bytes. */
module Words {

  /** Addition modulo 2^32. */
  function Add(x: bv32, y: bv32): bv32 { x + y }

  lemma AddCommutes(x: bv32, y: bv32)
    ensures Add(x, y) == Add(y, x)
  {
  }

  /** A word from four bytes, the most significant first. */
  function BigEndian(b0: bv8, b1: bv8, b2: bv8, b3: bv8): bv32 {
    ((b0 as bv32) << 24) | ((b1 as bv32) << 16) | ((b2 as bv32) << 8) | (b3 as bv32)
  }

  /** Word `t` of a block. */
  function BlockWord(block: seq<bv8>, t: nat): bv32
    requires t < 16
  {
    if |block| == 64 then BigEndian(block[4 * t], block[4 * t + 1], block[4 * t + 2], block[4 * t + 3]) else 0
  }

  /** The bytes of several words. */
  function WordsBytes(words: seq<bv32>): (d: seq<bv8>)
    ensures |d| == 4 * |words|
  {
    if words == [] then [] else WordsBytes(words[..|words| - 1]) + WordBytes(words[|words| - 1])
  }

  lemma WordsSnoc(words: seq<bv32>, w: bv32, all: seq<bv32>)
    requires all == words + [w]
    ensures WordsBytes(all) == WordsBytes(words) + WordBytes(w)
  {
    hide WordBytes;
    assert all[..|words|] == words;
  }

  lemma FourWords(a: bv32, b: bv32, c: bv32, d: bv32)
    ensures WordsBytes([a, b, c, d]) == WordBytes(a) + WordBytes(b) + WordBytes(c) + WordBytes(d)
  {
    hide WordBytes, WordsBytes;
    OneWord(a);
    WordsSnoc([a], b, [a, b]);
    WordsSnoc([a, b], c, [a, b, c]);
    WordsSnoc([a, b, c], d, [a, b, c, d]);
  }

  lemma OneWord(a: bv32)
    ensures WordsBytes([a]) == WordBytes(a)
  {
    hide WordBytes;
    assert WordsBytes([]) == [];
  }

  lemma EightWords(a: bv32, b: bv32, c: bv32, d: bv32, e: bv32, f: bv32, g: bv32, h: bv32)
    ensures WordsBytes([a, b, c, d, e, f, g, h])
         == WordBytes(a) + WordBytes(b) + WordBytes(c) + WordBytes(d) + WordBytes(e) + WordBytes(f) + WordBytes(g)
            + WordBytes(h)
  {
    hide WordBytes, WordsBytes;
    FourWords(a, b, c, d);
    WordsSnoc([a, b, c, d], e, [a, b, c, d, e]);
    WordsSnoc([a, b, c, d, e], f, [a, b, c, d, e, f]);
    WordsSnoc([a, b, c, d, e, f], g, [a, b, c, d, e, f, g]);
    WordsSnoc([a, b, c, d, e, f, g], h, [a, b, c, d, e, f, g, h]);
  }

  /** The four bytes of a word, the most significant first. */
  function WordBytes(w: bv32): (d: seq<bv8>)
    ensures |d| == 4
  {
    [(w >> 24) as bv8, ((w >> 16) & 0xff) as bv8, ((w >> 8) & 0xff) as bv8, (w & 0xff) as bv8]
  }

  // How a little-endian host reads and writes them.

  /** A word as the host reads it: the least significant byte first. */
  function HostWord(b0: bv8, b1: bv8, b2: bv8, b3: bv8): bv32 { BigEndian(b3, b2, b1, b0) }

  /** `REVERSE32`. */
  function Reverse32(w: bv32): bv32 {
    var tmp := (w >> 16) | (w << 16);
    ((tmp & 0xff00ff00) >> 8) | ((tmp & 0x00ff00ff) << 8)
  }

  lemma ReverseHostWord(b0: bv8, b1: bv8, b2: bv8, b3: bv8)
    ensures Reverse32(HostWord(b0, b1, b2, b3)) == BigEndian(b0, b1, b2, b3)
  {
  }

  function Byte0(w: bv32): bv8 { (w & 0xff) as bv8 }

  function Byte1(w: bv32): bv8 { ((w >> 8) & 0xff) as bv8 }

  function Byte2(w: bv32): bv8 { ((w >> 16) & 0xff) as bv8 }

  function Byte3(w: bv32): bv8 { (w >> 24) as bv8 }

  lemma BytesMakeWord(w: bv32)
    ensures BigEndian(Byte3(w), Byte2(w), Byte1(w), Byte0(w)) == w
  {
  }

  /** A word stored after its bytes were reversed has the most significant byte first. */
  lemma ReversedBytes(w: bv32)
    ensures [Byte0(Reverse32(w)), Byte1(Reverse32(w)), Byte2(Reverse32(w)), Byte3(Reverse32(w))] == WordBytes(w)
  {
  }

  lemma OneMoreWord(d: seq<bv8>, before: seq<bv8>, r: seq<bv32>, k: nat)
    requires |d| == |before| && 4 * k + 4 <= |d| && k < |r|
    requires before[..4 * k] == WordsBytes(r[..k]) && d[..4 * k] == before[..4 * k]
    requires [d[4 * k], d[4 * k + 1], d[4 * k + 2], d[4 * k + 3]] == WordBytes(r[k])
    ensures d[..4 * k + 4] == WordsBytes(r[..k + 1])
  {
    hide WordBytes;
    assert r[..k + 1][..k] == r[..k];
    assert d[..4 * k + 4] == d[..4 * k] + [d[4 * k], d[4 * k + 1], d[4 * k + 2], d[4 * k + 3]];
  }

  lemma NoWords(d: seq<bv8>, r: seq<bv32>)
    requires d == [] && r == []
    ensures d == WordsBytes(r)
  {
  }

  /** Byte `k` of a word, the most significant being number 0. */
  function WordByte(w: bv32, k: nat): bv8
    requires k < 4
  {
    if k == 0 then (w >> 24) as bv8
    else if k == 1 then ((w >> 16) & 0xff) as bv8
    else if k == 2 then ((w >> 8) & 0xff) as bv8
    else (w & 0xff) as bv8
  }

  lemma {:induction false} ByteAt(words: seq<bv32>, i: nat)
    requires i < 4 * |words|
    ensures WordsBytes(words)[i] == WordByte(words[i / 4], i % 4)
  {
    hide WordBytes, WordByte;
    var last := |words| - 1;
    if i < 4 * last {
      ByteAt(words[..last], i);
    } else {
      assert i / 4 == last && i % 4 == i - 4 * last;
      WordByteAt(words[last], i % 4);
    }
  }

  lemma WordByteAt(w: bv32, k: nat)
    requires k < 4
    ensures WordBytes(w)[k] == WordByte(w, k)
  {
  }
}
