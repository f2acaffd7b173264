/** The bytes of a dependency log, one by one, as the comment at the top of deps.c lays them out. */
module DepsLayout {
  import opened DepsFormat
  import opened DepsLog
  import DepsReplay

  /** The four bytes from `at` on stand for `n`, the least significant first. */
  predicate WordAt(b: seq<byte>, at: nat, n: int) {
    && at + 4 <= |b|
    && n == (b[at] as int) + 0x100 * (b[at + 1] as int) + 0x1_0000 * (b[at + 2] as int)
            + 0x100_0000 * (b[at + 3] as int)
  }

  lemma WordIs(b: seq<byte>, at: nat, n: nat)
    requires n < 0x1_0000_0000 && at + 4 <= |b| && b[at..at + 4] == Enc32(n)
    ensures WordAt(b, at, n)
  {
    Dec32Enc32(b, at, n);
  }

  /** A node record: the size of what follows, the path, as many zeros as make a multiple of four, and
      the complement of the id. */
  lemma NodeLayout(path: Path, id: nat)
    requires id <= 0x7fff_ffff && |path| < 0x8_0000
    ensures var b := Encode(Node(path), id);
      && |b| % 4 == 0 && |path| + 8 <= |b| < |path| + 12
      && WordAt(b, 0, |b| - 4) && b[4..4 + |path|] == path
      && (forall i :: 4 + |path| <= i < |b| - 4 ==> b[i] == 0)
      && WordAt(b, |b| - 4, 0xffff_ffff - id)
  {
    hide Enc32, WordAt, Encode, Zeros, NodeSize, NodeBody;
    var b, sz := Encode(Node(path), id), NodeSize(path);
    var size, checksum := Enc32(sz), Enc32(0xffff_ffff - id);
    NodeParts(path, id);
    FourParts(b, size, path, sz, checksum);
    hide *;
    assert |b| == sz + 4;
    WordIs(b, 0, sz);
    WordIs(b, sz, 0xffff_ffff - id);
    Multiple(sz);
  }

  lemma Multiple(sz: nat)
    requires sz % 4 == 0
    ensures (sz + 4) % 4 == 0
  {
  }

  lemma NodeParts(path: Path, id: nat)
    requires id <= 0x7fff_ffff
    ensures Encode(Node(path), id)
         == Enc32(NodeSize(path)) + (path + Zeros(NodeSize(path) - |path| - 4) + Enc32(0xffff_ffff - id))
  {
    hide Enc32, NodeSize, Zeros;
  }

  lemma FourParts(b: seq<byte>, size: seq<byte>, path: seq<byte>, sz: nat, checksum: seq<byte>)
    requires |path| + 4 <= sz && |size| == |checksum| == 4
    requires b == size + (path + Zeros(sz - |path| - 4) + checksum)
    ensures |b| == sz + 4 && b[0..0 + 4] == size && b[4..4 + |path|] == path
    ensures forall i :: 4 + |path| <= i < sz ==> b[i] == 0
    ensures b[sz..sz + 4] == checksum
  {
  }

  /** A dependency record: the size with the highest bit set, the id of the output, the two halves of its
      time, and the ids of the dependencies. */
  lemma DepsRecordLayout(id: nat, mtime: int, ids: seq<nat>, n: nat)
    requires id <= 0x7fff_ffff && |ids| < 0x2_0000 && IsInt64(mtime)
    requires forall k {:trigger ids[k]} :: 0 <= k < |ids| ==> ids[k] <= 0x7fff_ffff
    ensures var b := Encode(Deps(id, mtime, ids), n);
      && |b| == 16 + 4 * |ids|
      && WordAt(b, 0, 0x8000_0000 + 12 + 4 * |ids|) && WordAt(b, 4, id)
      && (exists low, high :: WordAt(b, 8, low) && WordAt(b, 12, high)
            && 0x1_0000_0000 * high + low == if mtime >= 0 then mtime else 0x1_0000_0000_0000_0000 + mtime)
      && forall k {:trigger ids[k]} :: 0 <= k < |ids| ==> WordAt(b, 16 + 4 * k, ids[k])
  {
    hide Enc32, WordAt, EncAll, Low, High;
    var b := Encode(Deps(id, mtime, ids), n);
    var low, high, rest := Low(mtime), High(mtime), EncAll(ids);
    Halves(mtime);
    var size := 0x8000_0000 + 12 + 4 * |ids|;
    assert b == Enc32(size) + (Enc32(id) + Enc32(low) + Enc32(high) + rest);
    assert b[0..4] == Enc32(size) && b[4..8] == Enc32(id) && b[8..12] == Enc32(low) && b[12..16] == Enc32(high);
    WordIs(b, 0, size);
    WordIs(b, 4, id);
    WordIs(b, 8, low);
    WordIs(b, 12, high);
    assert WordAt(b, 8, low) && WordAt(b, 12, high);
    forall k {:trigger ids[k]} | 0 <= k < |ids| ensures WordAt(b, 16 + 4 * k, ids[k]) {
      DepsReplay.EncAllAt(ids, k);
      assert b[16 + 4 * k..16 + 4 * k + 4] == rest[4 * k..4 * k + 4];
      WordIs(b, 16 + 4 * k, ids[k]);
    }
  }

  lemma Halves(mtime: int)
    requires IsInt64(mtime)
    ensures 0 <= Low(mtime) < 0x1_0000_0000 && 0 <= High(mtime) < 0x1_0000_0000
    ensures 0x1_0000_0000 * High(mtime) + Low(mtime)
         == if mtime >= 0 then mtime else 0x1_0000_0000_0000_0000 + mtime
  {
    JoinHalves(mtime);
  }

  // ---------------------------------------------------------------------------------------
  // The whole log
  // ---------------------------------------------------------------------------------------

  /** Where record `k` is in the log. */
  function Place(rs: seq<Record>, k: nat): nat
    requires k <= |rs|
  {
    16 + |EncodeAll(rs[..k])|
  }

  /** Record `k` is in its place, with the number of nodes before it as the next id. */
  predicate InPlace(log: seq<byte>, rs: seq<Record>, k: nat)
    requires k < |rs|
  {
    var record := Encode(rs[k], |Nodes(rs[..k])|);
    Place(rs, k) + |record| <= |log| && log[Place(rs, k)..Place(rs, k) + |record|] == record
  }

  /** A log in use starts with its name and the version 4, and then has its records one after the other. */
  lemma LogLayout(log: Log)
    requires log.Valid()
    ensures 16 <= |log.bytes| == Place(log.records, |log.records|)
    ensures forall i :: 0 <= i < 12 ==> log.bytes[i] as int == "# ninjadeps\n"[i] as int
    ensures WordAt(log.bytes, 12, 4)
    ensures forall k: nat :: k < |log.records| ==> InPlace(log.bytes, log.records, k)
  {
    hide EncodeAll, Encode, RecordsFit, IdsMatch, WordAt, InPlace;
    var rs := log.records;
    assert rs[..|rs|] == rs;
    HeaderBytes(log.bytes, EncodeAll(rs));
    forall k: nat | k < |rs| ensures InPlace(log.bytes, rs, k) {
      RecordInPlace(log.bytes, rs, k);
    }
  }

  lemma HeaderBytes(b: seq<byte>, rest: seq<byte>)
    requires b == Header() + rest
    ensures forall i :: 0 <= i < 12 ==> b[i] as int == "# ninjadeps\n"[i] as int
    ensures WordAt(b, 12, 4)
  {
    hide Enc32, WordAt;
    assert b[12..12 + 4] == Enc32(4);
    WordIs(b, 12, 4);
  }

  lemma RecordInPlace(log: seq<byte>, rs: seq<Record>, k: nat)
    requires log == Header() + EncodeAll(rs) && k < |rs|
    ensures InPlace(log, rs, k)
  {
    hide EncodeAll, Encode, Header, Nodes, InPlace, Place;
    RecordPlace(rs, k);
    var from, record := |EncodeAll(rs[..k])|, Encode(rs[k], |Nodes(rs[..k])|);
    Behind(log, Header(), EncodeAll(rs), from, |record|);
    Located(log, rs, k, 16 + from, record);
  }

  lemma Located(log: seq<byte>, rs: seq<Record>, k: nat, place: nat, record: seq<byte>)
    requires k < |rs| && place == 16 + |EncodeAll(rs[..k])| && record == Encode(rs[k], |Nodes(rs[..k])|)
    requires place + |record| <= |log| && log[place..place + |record|] == record
    ensures InPlace(log, rs, k)
  {
    hide EncodeAll, Encode, Nodes;
  }

  lemma Behind(log: seq<byte>, front: seq<byte>, rest: seq<byte>, from: nat, n: nat)
    requires log == front + rest && from + n <= |rest|
    ensures log[|front| + from..|front| + from + n] == rest[from..from + n]
  {
  }

  lemma {:induction false} RecordPlace(rs: seq<Record>, k: nat)
    requires k < |rs|
    ensures var from, record := |EncodeAll(rs[..k])|, Encode(rs[k], |Nodes(rs[..k])|);
      from + |record| <= |EncodeAll(rs)| && EncodeAll(rs)[from..from + |record|] == record
  {
    hide Encode, Nodes;
    var front := rs[..|rs| - 1];
    if k == |front| {
      assert rs[..k] == front;
    } else {
      assert rs[..k] == front[..k];
      RecordPlace(front, k);
      var from, record := |EncodeAll(rs[..k])|, Encode(rs[k], |Nodes(rs[..k])|);
      assert EncodeAll(rs)[from..from + |record|] == EncodeAll(front)[from..from + |record|];
    }
  }
}
