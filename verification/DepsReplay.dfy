/** What was written to a deps log is what is read from it. */
module DepsReplay {
  import opened Wrappers
  import opened DepsFormat
  import opened Division

  /** The entries that a list of records stands for. */
  function Replayed(rs: seq<Record>, wanted: Path -> bool): seq<Entry> {
    if rs == [] then [] else Apply(Replayed(rs[..|rs| - 1], wanted), rs[|rs| - 1], wanted)
  }

  function Apply(entries: seq<Entry>, r: Record, wanted: Path -> bool): seq<Entry> {
    match r
    case Node(path) => entries + [Entry(path, [], 0)]
    case Deps(id, mtime, ids) =>
      if id < |entries| && forall k {:trigger ids[k]} :: 0 <= k < |ids| ==> ids[k] < |entries| then
        var entry := entries[id].(mtime := mtime);
        entries[id := if wanted(entry.node) then entry.(deps := Names(entries, ids)) else entry]
      else entries
  }

  /** Entry `k` is for the node of record `k` of the node records. */
  lemma {:induction false} EntriesAreNodes(rs: seq<Record>, wanted: Path -> bool)
    ensures |Replayed(rs, wanted)| == |Nodes(rs)|
    ensures forall k {:trigger Nodes(rs)[k]} :: 0 <= k < |Nodes(rs)| ==> Replayed(rs, wanted)[k].node == Nodes(rs)[k]
  {
    if rs != [] {
      EntriesAreNodes(rs[..|rs| - 1], wanted);
    }
  }

  lemma {:induction false} StripPadding(path: Path, k: nat)
    requires path != [] && path[|path| - 1] != 0
    ensures Strip(path + Zeros(k)) == path
  {
    var b := path + Zeros(k);
    if k == 0 {
      assert b == path;
    } else {
      assert b[..|b| - 1] == path + Zeros(k - 1);
      StripPadding(path, k - 1);
    }
  }

  /** A node record is read back. */
  lemma NodeReads(path: Path, entries: seq<Entry>)
    requires RecordOk(Node(path), |entries|)
    ensures ReadNode(NodeBody(path, |entries|), entries) == Complete(entries + [Entry(path, [], 0)], 0)
  {
    hide Dec32, Enc32, Strip;
    var body := NodeBody(path, |entries|);
    var sz := |body|;
    assert body[sz - 4..sz] == Enc32(TWO32 - 1 - |entries|);
    Dec32Enc32(body, sz - 4, TWO32 - 1 - |entries|);
    assert body[..sz - 4] == path + Zeros(sz - |path| - 4);
    StripPadding(path, sz - |path| - 4);
  }

  lemma {:induction false} EncAllAt(ids: seq<nat>, k: nat)
    requires k < |ids|
    ensures EncAll(ids)[4 * k..4 * k + 4] == Enc32(ids[k])
  {
    hide Enc32;
    var n := |ids| - 1;
    var front := EncAll(ids[..n]);
    if k < n {
      EncAllAt(ids[..n], k);
      InFront(EncAll(ids), front, Enc32(ids[n]), 4 * k);
    } else {
      AtEnd(EncAll(ids), front, Enc32(ids[n]));
    }
  }

  lemma InFront(all: seq<byte>, front: seq<byte>, rest: seq<byte>, at: nat)
    requires all == front + rest && at + 4 <= |front|
    ensures all[at..at + 4] == front[at..at + 4]
  {
  }

  lemma AtEnd(all: seq<byte>, front: seq<byte>, rest: seq<byte>)
    requires all == front + rest && |rest| == 4
    ensures all[|front|..|front| + 4] == rest
  {
  }

  lemma IdsRead(id: nat, mtime: int, ids: seq<nat>)
    requires forall k {:trigger ids[k]} :: 0 <= k < |ids| ==> ids[k] < TWO32
    ensures IdsIn(DepsBody(id, mtime, ids), |ids|) == ids
  {
    hide Dec32, Enc32;
    var body := DepsBody(id, mtime, ids);
    forall k | 0 <= k < |ids| ensures Dec32(body, 12 + 4 * k) == ids[k] {
      EncAllAt(ids, k);
      assert body[12 + 4 * k..12 + 4 * k + 4] == EncAll(ids)[4 * k..4 * k + 4];
      Dec32Enc32(body, 12 + 4 * k, ids[k]);
    }
  }

  /** A dependency record is read back. */
  lemma DepsReads(r: Record, wanted: Path -> bool, entries: seq<Entry>)
    requires r.Deps? && RecordOk(r, |entries|)
    ensures ReadDeps(DepsBody(r.id, r.mtime, r.ids), wanted, entries) == Complete(Apply(entries, r, wanted), 0)
  {
    hide Dec32, Enc32, EncAll, Low, High, Join;
    var body := DepsBody(r.id, r.mtime, r.ids);
    assert body[0..4] == Enc32(r.id) && body[4..8] == Enc32(Low(r.mtime)) && body[8..12] == Enc32(High(r.mtime));
    Dec32Enc32(body, 0, r.id);
    Dec32Enc32(body, 4, Halves(r.mtime).0);
    Dec32Enc32(body, 8, Halves(r.mtime).1);
    JoinHalves(r.mtime);
    IdsRead(r.id, r.mtime, r.ids);
  }

  function Halves(m: int): (p: (nat, nat))
    ensures p.0 == Low(m) < TWO32 && p.1 == High(m) < TWO32
  {
    (Low(m), High(m))
  }

  function BodyOf(r: Record, n: nat): seq<byte> {
    if r.Node? then NodeBody(r.path, n) else DepsBody(r.id, r.mtime, r.ids)
  }

  /** One record at the front of a log. */
  lemma OneRecord(r: Record, rest: seq<byte>, wanted: Path -> bool, entries: seq<Entry>, nrecord: nat)
    requires RecordOk(r, |entries|)
    ensures ReadAll(Encode(r, |entries|) + rest, wanted, entries, nrecord)
         == ReadAll(rest, wanted, Apply(entries, r, wanted), nrecord + 1)
  {
    hide Dec32, Enc32, NodeBody, DepsBody, ReadAll, ReadRecord, Apply, RecordOk, Encode, BodyOf;
    var body := BodyOf(r, |entries|);
    EncodedSize(r, |entries|);
    var field := if r.Deps? then TWO31 + |body| else |body|;
    var log := Encode(r, |entries|) + rest;
    SplitRecord(Enc32(field), body, rest);
    Dec32Enc32(log, 0, field);
    BodyReads(r, wanted, entries);
    NextRead(log, wanted, entries, nrecord);
  }

  /** A record is its size field and its body. */
  lemma EncodedSize(r: Record, n: nat)
    requires RecordOk(r, n)
    ensures var body := BodyOf(r, n);
      && Encode(r, n) == Enc32(if r.Deps? then TWO31 + |body| else |body|) + body
      && 8 <= |body| <= MAX_RECORD_SIZE && |body| % 4 == 0
  {
    hide Enc32, Unpadded, EncAll;
    match r
    case Node(path) => assert |BodyOf(r, n)| == NodeSize(path);
    case Deps(id, mtime, ids) =>
      assert |BodyOf(r, n)| == DepsSize(|ids|);
      FourTimes(|ids|);
  }

  lemma FourTimes(n: nat)
    ensures DepsSize(n) % 4 == 0
  {
    Remainder(12 + 4 * n, 4, 3 + n, 0);
  }

  lemma SplitRecord(size: seq<byte>, body: seq<byte>, rest: seq<byte>)
    requires |size| == 4
    ensures var log := size + body + rest;
      log[0..4] == size && log[4..4 + |body|] == body && log[4 + |body|..] == rest
  {
  }

  lemma BodyReads(r: Record, wanted: Path -> bool, entries: seq<Entry>)
    requires RecordOk(r, |entries|) && |BodyOf(r, |entries|)| % 4 == 0
    ensures ReadRecord(BodyOf(r, |entries|), r.Deps?, wanted, entries) == Complete(Apply(entries, r, wanted), 0)
  {
    hide NodeBody, DepsBody, ReadNode, ReadDeps, Apply;
    if r.Node? {
      NodeReads(r.path, entries);
      ApplyNode(entries, r, wanted);
    } else {
      DepsReads(r, wanted, entries);
    }
  }

  /** One step of reading, when the record is a good one. */
  lemma NextRead(log: seq<byte>, wanted: Path -> bool, entries: seq<Entry>, nrecord: nat)
    requires |log| >= 4
    requires var sz := Dec32(log, 0) % TWO31; 0 < sz <= MAX_RECORD_SIZE && sz % 4 == 0 && |log| >= 4 + sz
    requires ReadRecord(log[4..4 + Dec32(log, 0) % TWO31], Dec32(log, 0) >= TWO31, wanted, entries).Complete?
    ensures var sz := Dec32(log, 0) % TWO31;
      ReadAll(log, wanted, entries, nrecord)
      == ReadAll(log[4 + sz..], wanted, ReadRecord(log[4..4 + sz], Dec32(log, 0) >= TWO31, wanted, entries).entries,
        nrecord + 1)
  {
    hide Dec32, ReadRecord;
  }

  lemma ApplyNode(entries: seq<Entry>, r: Record, wanted: Path -> bool)
    requires r.Node?
    ensures Apply(entries, r, wanted) == entries + [Entry(r.path, [], 0)]
  {
  }

  lemma LastRecordOk(rs: seq<Record>)
    requires RecordsOk(rs) && rs != []
    ensures RecordsOk(rs[..|rs| - 1]) && RecordOk(rs[|rs| - 1], |Nodes(rs[..|rs| - 1])|)
  {
    hide RecordFits, Named;
    assert Named(rs[|rs| - 1]);
    var front := rs[..|rs| - 1];
    assert forall i {:trigger front[i]} :: 0 <= i < |front| ==> front[i] == rs[i];
  }

  /** All records are read back, whatever follows them; what follows is read after them. */
  lemma {:induction false} RecordsRead(rs: seq<Record>, rest: seq<byte>, wanted: Path -> bool)
    requires RecordsOk(rs)
    ensures ReadAll(EncodeAll(rs) + rest, wanted, [], 0) == ReadAll(rest, wanted, Replayed(rs, wanted), |rs|)
  {
    hide ReadAll, Encode, RecordOk, Apply;
    if rs == [] {
      assert EncodeAll(rs) + rest == rest;
    } else {
      var front, last := rs[..|rs| - 1], rs[|rs| - 1];
      LastRecordOk(rs);
      EntriesAreNodes(front, wanted);
      var entries := Replayed(front, wanted);
      assert EncodeAll(rs) + rest == EncodeAll(front) + (Encode(last, |entries|) + rest);
      RecordsRead(front, Encode(last, |entries|) + rest, wanted);
      OneRecord(last, rest, wanted, entries, |front|);
    }
  }

  /** A log that was written, with up to three more bytes of a record that was cut off. */
  lemma WrittenLogReads(rs: seq<Record>, torn: seq<byte>, wanted: Path -> bool)
    requires RecordsOk(rs) && |torn| < 4
    ensures ReadAll(EncodeAll(rs) + torn, wanted, [], 0) == Complete(Replayed(rs, wanted), |rs|)
  {
    RecordsRead(rs, torn, wanted);
  }

  // ---------------------------------------------------------------------------------------
  // Appending
  // ---------------------------------------------------------------------------------------

  /** The size of a record of `size` bytes may be misread, after `k` left-over bytes, as one that is
      accepted: the low part of its size, which is all that is left of it, is too small to give it away. */
  predicate MayPass(k: nat, size: nat) {
    || (k == 2 && (size % 0x8000 == 0 || (size % 0x8000 == 4 && size > 0x4_0000)))
    || (k == 3 && size % 128 == 0)
  }

  /** The size that is read is one that the rest of the file has room for. */
  predicate SizePasses(log: seq<byte>)
    requires |log| >= 4
  {
    var sz := Dec32(log, 0) % TWO31;
    0 < sz <= 0x8_0000 && sz % 4 == 0 && 4 + sz <= |log|
  }

  function SizeField(size: nat, dep: bool): (b: seq<byte>)
    ensures |b| == 4
  {
    Enc32(if dep then TWO31 + size else size)
  }

  /** Left-over bytes before a record. */
  function Leftover(torn: seq<byte>, body: seq<byte>, dep: bool): (log: seq<byte>)
    ensures |log| == |torn| + 4 + |body|
  {
    torn + SizeField(|body|, dep) + body
  }

  /** Left-over bytes that get past the checks of the size exist exactly for those sizes. */
  lemma TornSize(k: nat, body: seq<byte>, dep: bool)
    requires 0 < k < 4 && 8 <= |body| <= MAX_RECORD_SIZE && |body| % 4 == 0
    ensures (exists torn: seq<byte> :: |torn| == k && SizePasses(Leftover(torn, body, dep))) <==> MayPass(k, |body|)
  {
    hide SizePasses, MayPass, Leftover;
    forall torn: seq<byte> | |torn| == k && SizePasses(Leftover(torn, body, dep)) ensures MayPass(k, |body|) {
      OnlyThose(torn, body, dep);
    }
    if MayPass(k, |body|) {
      var torn := PassingBytes(k, body, dep);
      assert |torn| == k && SizePasses(Leftover(torn, body, dep));
    }
  }

  /** Bytes that get past the checks: those of the smallest size. */
  lemma PassingBytes(k: nat, body: seq<byte>, dep: bool) returns (torn: seq<byte>)
    requires 0 < k < 4 && 8 <= |body| <= MAX_RECORD_SIZE && |body| % 4 == 0 && MayPass(k, |body|)
    ensures |torn| == k && SizePasses(Leftover(torn, body, dep))
  {
    hide Leftover, Dec32;
    torn := if k == 2 then [4, 0] else [4, 0, 0];
    MisreadSize(torn, body, dep);
    var low := |body| % 0x8000;
    if k == 2 && low != 0 {
      assert |body| >= 0x4_0004;
    }
  }

  lemma OnlyThose(torn: seq<byte>, body: seq<byte>, dep: bool)
    requires 0 < |torn| < 4 && 8 <= |body| <= MAX_RECORD_SIZE && |body| % 4 == 0
    requires SizePasses(Leftover(torn, body, dep))
    ensures MayPass(|torn|, |body|)
  {
    hide Leftover, Dec32;
    MisreadSize(torn, body, dep);
    if |torn| == 2 {
      LowPart(torn[0] as int + 256 * (torn[1] as int), |body|);
    }
  }

  lemma LowPart(t: nat, size: nat)
    requires 8 <= size <= MAX_RECORD_SIZE && size % 4 == 0
    requires t + 65536 * (size % 0x8000) <= MAX_RECORD_SIZE && t + 65536 * (size % 0x8000) <= size + 2
    ensures MayPass(2, size)
  {
    var low, q := size % 0x8000, size / 0x8000;
    assert low % 4 == 0 by {
      assert low == 4 * (size / 4 - 0x2000 * q);
    }
    assert low <= 8;
  }

  /** What is read as the size: the left-over bytes, and above them the low part of the size. */
  lemma MisreadSize(torn: seq<byte>, body: seq<byte>, dep: bool)
    requires 0 < |torn| < 4 && |body| <= MAX_RECORD_SIZE
    ensures Dec32(Leftover(torn, body, dep), 0) % TWO31 ==
      if |torn| == 1 then torn[0] as int + 256 * |body|
      else if |torn| == 2 then torn[0] as int + 256 * (torn[1] as int) + 65536 * (|body| % 0x8000)
      else torn[0] as int + 256 * (torn[1] as int) + 65536 * (torn[2] as int) + 16777216 * (|body| % 128)
  {
    hide SizeField, Dec32;
    var b := SizeField(|body|, dep);
    SizeBytes(|body|, dep);
    MisreadWord(torn, b, body);
    if |torn| == 1 {
      MisreadOne(torn[0] as int, b[0] as int, b[1] as int, b[2] as int, |body|);
    } else if |torn| == 2 {
      MisreadTwo(torn[0] as int + 256 * (torn[1] as int), b[0] as int, b[1] as int, |body|);
    } else {
      TopByte(torn[0] as int + 256 * (torn[1] as int) + 65536 * (torn[2] as int), b[0] as int, |body|);
    }
  }

  /** The word that is read: bytes that were left over, and the first bytes of the field. */
  lemma MisreadWord(torn: seq<byte>, b: seq<byte>, rest: seq<byte>)
    requires 0 < |torn| < 4 && |b| == 4
    ensures Dec32(torn + b + rest, 0) ==
      if |torn| == 1 then torn[0] as int + 256 * (b[0] as int) + 65536 * (b[1] as int) + 16777216 * (b[2] as int)
      else if |torn| == 2 then torn[0] as int + 256 * (torn[1] as int) + 65536 * (b[0] as int)
        + 16777216 * (b[1] as int)
      else torn[0] as int + 256 * (torn[1] as int) + 65536 * (torn[2] as int) + 16777216 * (b[0] as int)
  {
    var log := torn + b + rest;
    assert |torn| == 1 ==> log[1] == b[0] && log[2] == b[1] && log[3] == b[2];
    assert |torn| == 2 ==> log[2] == b[0] && log[3] == b[1];
    assert |torn| == 3 ==> log[3] == b[0];
  }

  lemma MisreadOne(t: nat, b0: nat, b1: nat, b2: nat, size: nat)
    requires t < 256 && b0 + 256 * b1 + 65536 * b2 == size <= MAX_RECORD_SIZE
    ensures (t + 256 * b0 + 65536 * b1 + 16777216 * b2) % TWO31 == t + 256 * size
  {
    assert t + 256 * b0 + 65536 * b1 + 16777216 * b2 == t + 256 * size;
  }

  lemma MisreadTwo(t: nat, b0: nat, b1: nat, size: nat)
    requires t < 65536 && b0 + 256 * b1 == size % 65536
    ensures (t + 65536 * b0 + 16777216 * b1) % TWO31 == t + 65536 * (size % 0x8000)
  {
    var m, q := size % 65536, size / 65536;
    var low := if m < 0x8000 then m else m - 0x8000;
    assert size == 65536 * q + m;
    if m < 0x8000 {
      Remainder(size, 0x8000, 2 * q, low);
    } else {
      Remainder(size, 0x8000, 2 * q + 1, low);
    }
    assert t + 65536 * b0 + 16777216 * b1 == t + 65536 * m;
    Remainder(t + 65536 * m, TWO31, if m == low then 0 else 1, t + 65536 * low);
  }

  /** The lowest three bytes of the field are those of the size. */
  lemma SizeBytes(size: nat, dep: bool)
    requires size <= MAX_RECORD_SIZE
    ensures var b := SizeField(size, dep);
      && b[0] as int + 256 * (b[1] as int) + 65536 * (b[2] as int) == size
      && b[0] as int + 256 * (b[1] as int) == size % 65536 && b[0] as int == size % 256
  {
    if dep {
      HighBit(size);
    }
  }

  lemma HighBit(size: nat)
    requires size <= MAX_RECORD_SIZE
    ensures (TWO31 + size) % 256 == size % 256 && (TWO31 + size) / 256 % 256 == size / 256 % 256
    ensures (TWO31 + size) / 65536 % 256 == size / 65536
  {
    assert (TWO31 + size) / 256 == 0x80_0000 + size / 256;
    assert (TWO31 + size) / 65536 == 0x8000 + size / 65536;
  }

  lemma TopByte(t: nat, top: nat, size: nat)
    requires t < 0x100_0000 && top == size % 256
    ensures (t + 0x100_0000 * top) % TWO31 == t + 0x100_0000 * (size % 128)
  {
    var low := size % 128;
    assert top == low || top == low + 128;
    Remainder(t + 0x100_0000 * top, TWO31, if top == low then 0 else 1, t + 0x100_0000 * low);
  }

  /** What reading a log and one more record comes to, when there may be left-over bytes in between. */
  function ReadAppended(rs: seq<Record>, r: Record, torn: seq<byte>, wanted: Path -> bool): Outcome {
    ReadAll(EncodeAll(rs) + torn + Encode(r, |Nodes(rs)|), wanted, [], 0)
  }

  /** The record reads back. */
  predicate AppendedWell(rs: seq<Record>, r: Record, torn: seq<byte>, wanted: Path -> bool) {
    ReadAppended(rs, r, torn, wanted) == Complete(Apply(Replayed(rs, wanted), r, wanted), |rs| + 1)
  }

  /** The first bytes are taken for the size `size` again, and those after them for a record that makes
      `entries` into `after`. */
  predicate ReadsAs(log: seq<byte>, size: nat, wanted: Path -> bool, entries: seq<Entry>, after: seq<Entry>)
    requires size % 4 == 0
  {
    && |log| >= 4 + size && Dec32(log, 0) % TWO31 == size
    && var o := ReadRecord(log[4..4 + size], Dec32(log, 0) >= TWO31, wanted, entries); o.Complete? && o.entries == after
  }

  /** Any record appended to a log reads back exactly if no bytes of a torn record are left in front of
      it, or those bytes and the first bytes of its size happen to make up its size again, and the record
      itself, with its bytes shifted, is one that says the same. */
  lemma AppendedReads(rs: seq<Record>, r: Record, torn: seq<byte>, wanted: Path -> bool)
    requires RecordsOk(rs) && RecordOk(r, |Nodes(rs)|) && |torn| < 4
    ensures |BodyOf(r, |Nodes(rs)|)| % 4 == 0
    ensures AppendedWell(rs, r, torn, wanted) <==>
      torn == []
      || ReadsAs(torn + Encode(r, |Nodes(rs)|), |BodyOf(r, |Nodes(rs)|)|, wanted, Replayed(rs, wanted),
        Apply(Replayed(rs, wanted), r, wanted))
  {
    hide ReadAll, EncodeAll, Encode, Apply, Dec32, Enc32, RecordsFit, AllNamed, Named, RecordFits, BodyOf, RecordOk;
    var n, entries := |Nodes(rs)|, Replayed(rs, wanted);
    EntriesAreNodes(rs, wanted);
    var rest := torn + Encode(r, n);
    assert EncodeAll(rs) + torn + Encode(r, n) == EncodeAll(rs) + rest;
    RecordsRead(rs, rest, wanted);
    EncodedSize(r, n);
    if torn == [] {
      assert rest == Encode(r, n) + [];
      OneRecord(r, [], wanted, entries, |rs|);
      NothingLeft(Apply(entries, r, wanted), wanted, |rs| + 1);
    }
    OneMoreRead(rest, |BodyOf(r, n)|, wanted, entries, Apply(entries, r, wanted), |rs|);
  }

  /** The number of records read tells where reading stopped. */
  lemma {:induction false} CountGrows(log: seq<byte>, wanted: Path -> bool, entries: seq<Entry>, nrecord: nat)
    ensures var o := ReadAll(log, wanted, entries, nrecord);
      o.Complete? ==> o.nrecord >= nrecord && (o.nrecord == nrecord ==> |log| < 4)
    decreases |log|
  {
    hide Dec32, ReadRecord;
    if |log| >= 4 {
      var sz := Dec32(log, 0) % TWO31;
      if !(sz > MAX_RECORD_SIZE || sz == 0 || |log| < 4 + sz || sz % 4 != 0) {
        var r := ReadRecord(log[4..4 + sz], Dec32(log, 0) >= TWO31, wanted, entries);
        if r.Complete? {
          CountGrows(log[4 + sz..], wanted, r.entries, nrecord + 1);
        }
      }
    }
  }

  /** Exactly one record is read if it takes up all but the last few bytes. */
  lemma OneMoreRead(log: seq<byte>, size: nat, wanted: Path -> bool, entries: seq<Entry>, after: seq<Entry>,
                    nrecord: nat)
    requires size % 4 == 0 && 0 < size <= MAX_RECORD_SIZE && 4 + size <= |log| < 8 + size
    ensures ReadAll(log, wanted, entries, nrecord) == Complete(after, nrecord + 1)
       <==> ReadsAs(log, size, wanted, entries, after)
  {
    hide Dec32, ReadRecord;
    var sz := Dec32(log, 0) % TWO31;
    if 0 < sz <= MAX_RECORD_SIZE && sz % 4 == 0 && 4 + sz <= |log| {
      var o := ReadRecord(log[4..4 + sz], Dec32(log, 0) >= TWO31, wanted, entries);
      if o.Complete? {
        CountGrows(log[4 + sz..], wanted, o.entries, nrecord + 1);
        if |log[4 + sz..]| < 4 {
          SameMultiple(sz, size, |log| - 4 - size);
        }
      }
    }
  }

  lemma SameMultiple(a: nat, b: nat, t: nat)
    requires a % 4 == 0 && b % 4 == 0 && t < 4 && a <= t + b < a + 4
    ensures a == b
  {
  }

  /** Where no left-over bytes can get past the checks of the size, a record reads back exactly if there
      are none, and otherwise the log is bad there. */
  lemma OrdinaryAppended(rs: seq<Record>, r: Record, torn: seq<byte>, wanted: Path -> bool)
    requires RecordsOk(rs) && RecordOk(r, |Nodes(rs)|) && |torn| < 4
    requires !MayPass(|torn|, |BodyOf(r, |Nodes(rs)|)|)
    ensures AppendedWell(rs, r, torn, wanted) <==> torn == []
    ensures torn != [] ==> ReadAppended(rs, r, torn, wanted) == Bad(Replayed(rs, wanted))
  {
    hide ReadAll, EncodeAll, Encode, Apply, RecordsFit, AllNamed, Named, RecordFits, BodyOf, RecordOk;
    hide MayPass, SizePasses;
    AppendedReads(rs, r, torn, wanted);
    if torn != [] {
      var n, entries, body := |Nodes(rs)|, Replayed(rs, wanted), BodyOf(r, |Nodes(rs)|);
      EntriesAreNodes(rs, wanted);
      var rest := torn + Encode(r, n);
      assert EncodeAll(rs) + torn + Encode(r, n) == EncodeAll(rs) + rest;
      RecordsRead(rs, rest, wanted);
      EncodedSize(r, n);
      assert rest == Leftover(torn, body, r.Deps?);
      if SizePasses(rest) {
        OnlyThose(torn, body, r.Deps?);
        assert false;
      }
      SizeRefused(rest, wanted, entries, |rs|);
    }
  }

  /** One left-over byte spoils a log to which a short record is appended. */
  lemma LeftoverByteSpoils(wanted: Path -> bool)
    ensures RecordsOk([]) && RecordOk(Node([97]), 0) && ReadAppended([], Node([97]), [0], wanted) == Bad([])
  {
    hide ReadAll, Encode;
    assert Nodes([]) == [] && NodeSize([97]) == 8;
    OrdinaryAppended([], Node([97]), [0], wanted);
  }

  lemma NothingLeft(entries: seq<Entry>, wanted: Path -> bool, nrecord: nat)
    ensures ReadAll([], wanted, entries, nrecord) == Complete(entries, nrecord)
  {
  }

  lemma SizeRefused(log: seq<byte>, wanted: Path -> bool, entries: seq<Entry>, nrecord: nat)
    requires |log| >= 4 && !SizePasses(log)
    ensures ReadAll(log, wanted, entries, nrecord) == Bad(entries)
  {
    hide Dec32;
  }

  // ---------------------------------------------------------------------------------------
  // Empty paths
  // ---------------------------------------------------------------------------------------

  /** The record of an empty path has size four, which the reader does not accept. */
  lemma EmptyNodeIsBad(entries: seq<Entry>, rest: seq<byte>, wanted: Path -> bool, nrecord: nat)
    ensures ReadAll(Encode(Node([]), |entries|) + rest, wanted, entries, nrecord) == Bad(entries)
  {
    hide Dec32, Enc32, ReadDeps;
    var log := Encode(Node([]), |entries|) + rest;
    assert log[0..4] == Enc32(4);
    Dec32Enc32(log, 0, 4);
    assert |log[4..8]| == 4;
  }

  /** The bytes of the records after the first `k`. */
  lemma {:induction false} EncodeSplit(rs: seq<Record>, k: nat) returns (rest: seq<byte>)
    requires k < |rs|
    ensures EncodeAll(rs) == EncodeAll(rs[..k]) + Encode(rs[k], |Nodes(rs[..k])|) + rest
  {
    hide Encode;
    var front, last := rs[..|rs| - 1], rs[|rs| - 1];
    if k == |rs| - 1 {
      rest := [];
    } else {
      var more := EncodeSplit(front, k);
      assert front[..k] == rs[..k];
      rest := more + Encode(last, |Nodes(front)|);
    }
  }

  lemma {:induction false} PrefixFits(rs: seq<Record>, k: nat)
    requires RecordsFit(rs) && k <= |rs|
    ensures RecordsFit(rs[..k])
  {
    if k == |rs| {
      assert rs[..k] == rs;
    } else {
      PrefixFits(rs[..|rs| - 1], k);
      assert rs[..|rs| - 1][..k] == rs[..k];
    }
  }

  /** A log is read as far as its first empty path, and is bad if there is one. */
  lemma ReadsUpToEmptyPath(rs: seq<Record>, k: nat, wanted: Path -> bool)
    requires RecordsFit(rs) && k < |rs| && AllNamed(rs[..k]) && rs[k] == Node([])
    ensures ReadAll(EncodeAll(rs), wanted, [], 0) == Bad(Replayed(rs[..k], wanted))
  {
    hide ReadAll, EncodeAll, Encode, Replayed, RecordsFit, AllNamed;
    PrefixFits(rs, k);
    var rest := EncodeSplit(rs, k);
    var entries := Replayed(rs[..k], wanted);
    EntriesAreNodes(rs[..k], wanted);
    assert EncodeAll(rs) == EncodeAll(rs[..k]) + (Encode(Node([]), |entries|) + rest);
    RecordsRead(rs[..k], Encode(Node([]), |entries|) + rest, wanted);
    EmptyNodeIsBad(entries, rest, wanted, k);
  }

  lemma FirstEmptyPath(rs: seq<Record>) returns (k: nat)
    requires !AllNamed(rs)
    ensures k < |rs| && AllNamed(rs[..k]) && rs[k] == Node([])
  {
    var i :| 0 <= i < |rs| && !Named(rs[i]);
    k := 0;
    while Named(rs[k])
      invariant k <= i && forall j {:trigger rs[j]} :: 0 <= j < k ==> Named(rs[j])
      decreases i - k
    {
      k := k + 1;
    }
  }

  /** A log that was written reads back exactly if it has no record of an empty path. */
  lemma ReadsBackUnlessEmptyPath(rs: seq<Record>, wanted: Path -> bool)
    requires RecordsFit(rs)
    ensures ReadAll(EncodeAll(rs), wanted, [], 0).Complete? <==> forall path :: Node(path) in rs ==> path != []
    ensures AllNamed(rs) ==> ReadAll(EncodeAll(rs), wanted, [], 0) == Complete(Replayed(rs, wanted), |rs|)
  {
    hide ReadAll, RecordsFit;
    if AllNamed(rs) {
      WrittenLogReads(rs, [], wanted);
      assert EncodeAll(rs) + [] == EncodeAll(rs);
    } else {
      var k := FirstEmptyPath(rs);
      ReadsUpToEmptyPath(rs, k, wanted);
      assert Node([]) in rs;
    }
  }

  /** The smallest bad log: one record, of an empty path. */
  lemma EmptyPathIsBad(wanted: Path -> bool)
    ensures RecordsFit([Node([])]) && ReadAll(EncodeAll([Node([])]), wanted, [], 0).Bad?
  {
    hide ReadAll, Encode, EncodeAll;
    var rs := [Node([])];
    assert rs[..0] == [] && RecordsFit([]) && Nodes([]) == [];
    assert AllNamed(rs[..0]);
    ReadsUpToEmptyPath(rs, 0, wanted);
  }

  // ---------------------------------------------------------------------------------------
  // The map that entries stand for
  // ---------------------------------------------------------------------------------------

  /** The time and the dependencies of an output, if it has any: the last entry counts. */
  function Lookup(entries: seq<Entry>, path: Path): Option<(int, seq<Path>)> {
    if entries == [] then None
    else
      var last := entries[|entries| - 1];
      if last.node == path && last.deps != [] then Some((last.mtime, last.deps))
      else Lookup(entries[..|entries| - 1], path)
  }

  ghost predicate Distinct(entries: seq<Entry>) {
    forall i, j {:trigger entries[i], entries[j]} :: 0 <= i < j < |entries| ==> entries[i].node != entries[j].node
  }

  lemma LookupSnoc(entries: seq<Entry>, e: Entry, path: Path)
    ensures Lookup(entries + [e], path)
         == if e.node == path && e.deps != [] then Some((e.mtime, e.deps)) else Lookup(entries, path)
  {
    assert (entries + [e])[..|entries|] == entries;
  }

  lemma {:induction false} LookupUpdate(entries: seq<Entry>, k: nat, e: Entry, path: Path)
    requires Distinct(entries) && k < |entries| && e.node == entries[k].node && e.deps != []
    ensures Lookup(entries[k := e], path) == if path == e.node then Some((e.mtime, e.deps)) else Lookup(entries, path)
  {
    var n := |entries| - 1;
    if k == n {
      assert entries[k := e] == entries[..n] + [e];
      LookupSnoc(entries[..n], e, path);
    } else {
      var last := entries[n];
      assert entries[k := e] == entries[..n][k := e] + [last];
      assert entries == entries[..n] + [last];
      LookupSnoc(entries[..n][k := e], last, path);
      LookupSnoc(entries[..n], last, path);
      LookupUpdate(entries[..n], k, e, path);
    }
  }
}
