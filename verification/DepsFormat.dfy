/** The records of samu's deps log (deps.c), byte by byte, and how a log is read. */
module DepsFormat {

  newtype byte = x: int | 0 <= x < 256

  type Path = seq<byte>

  const TWO31: nat := 0x8000_0000

  const TWO32: nat := 0x1_0000_0000

  const MAX_RECORD_SIZE: nat := 0x8_0000

  const INT32_MAX: nat := 0x7fff_ffff

  /** An entry: a node, the dependencies of the edge that built it, and the time of that. */
  datatype Entry = Entry(node: Path, deps: seq<Path>, mtime: int)

  datatype Record =
    | Node(path: Path)
    | Deps(id: nat, mtime: int, ids: seq<nat>)

  // ---------------------------------------------------------------------------------------
  // Integers
  // ---------------------------------------------------------------------------------------

  /** A 32-bit integer in the byte order of a little-endian system. */
  function Enc32(n: nat): (b: seq<byte>)
    ensures |b| == 4
  {
    [(n % 256) as byte, (n / 256 % 256) as byte, (n / 65536 % 256) as byte, (n / 16777216 % 256) as byte]
  }

  function Dec32(b: seq<byte>, k: nat): (n: nat)
    requires k + 4 <= |b|
    ensures n < TWO32
  {
    b[k] as int + 256 * (b[k + 1] as int) + 65536 * (b[k + 2] as int) + 16777216 * (b[k + 3] as int)
  }

  lemma Dec32Enc32(b: seq<byte>, k: nat, n: nat)
    requires n < TWO32 && k + 4 <= |b| && b[k..k + 4] == Enc32(n)
    ensures Dec32(b, k) == n
  {
    assert b[k..k + 4][0] == b[k] && b[k..k + 4][1] == b[k + 1];
    assert b[k..k + 4][2] == b[k + 2] && b[k..k + 4][3] == b[k + 3];
    var q, r := n / 256, n / 65536;
    assert q / 256 == r && r / 256 == n / 16777216;
  }

  /** The two halves of a 64-bit time. */
  function Low(m: int): nat { m % TWO32 }

  function High(m: int): nat { m / TWO32 % TWO32 }

  predicate IsInt64(m: int) { -0x8000_0000_0000_0000 <= m < 0x8000_0000_0000_0000 }

  function Join(hi: nat, lo: nat): int {
    var v := hi * TWO32 + lo;
    if v >= 0x8000_0000_0000_0000 then v - 0x1_0000_0000_0000_0000 else v
  }

  lemma JoinHalves(m: int)
    requires IsInt64(m)
    ensures Join(High(m), Low(m)) == m
  {
    var q := m / TWO32;
    assert m == TWO32 * q + Low(m);
    assert -0x8000_0000 <= q < 0x8000_0000;
    if q < 0 {
      assert High(m) == q + TWO32;
    }
  }

  // ---------------------------------------------------------------------------------------
  // Writing
  // ---------------------------------------------------------------------------------------

  /** The size field of a node record: the path, padding to four bytes, and the checksum. */
  function NodeSize(path: Path): (sz: nat)
    ensures sz % 4 == 0 && |path| + 4 <= sz < |path| + 8
  {
    (|path| + 7) / 4 * 4
  }

  function DepsSize(n: nat): nat { 12 + 4 * n }

  function Zeros(n: nat): seq<byte> { seq(n, _ => 0) }

  function EncAll(ids: seq<nat>): (b: seq<byte>)
    ensures |b| == 4 * |ids|
  {
    if ids == [] then [] else EncAll(ids[..|ids| - 1]) + Enc32(ids[|ids| - 1])
  }

  function NodeBody(path: Path, id: nat): (b: seq<byte>)
    ensures |b| == NodeSize(path)
  {
    path + Zeros(NodeSize(path) - |path| - 4) + Enc32(if id < TWO32 then TWO32 - 1 - id else 0)
  }

  function DepsBody(id: nat, mtime: int, ids: seq<nat>): (b: seq<byte>)
    ensures |b| == DepsSize(|ids|)
  {
    Enc32(id) + Enc32(Low(mtime)) + Enc32(High(mtime)) + EncAll(ids)
  }

  /** A record as it is written when `n` nodes were written before. */
  function Encode(r: Record, n: nat): seq<byte> {
    match r
    case Node(path) => Enc32(NodeSize(path)) + NodeBody(path, n)
    case Deps(id, mtime, ids) => Enc32(TWO31 + DepsSize(|ids|)) + DepsBody(id, mtime, ids)
  }

  /** The node paths of a list of records, in the order of their ids. */
  function Nodes(rs: seq<Record>): seq<Path> {
    if rs == [] then []
    else
      var front, last := Nodes(rs[..|rs| - 1]), rs[|rs| - 1];
      if last.Node? then front + [last.path] else front
  }

  function EncodeAll(rs: seq<Record>): seq<byte> {
    if rs == [] then []
    else EncodeAll(rs[..|rs| - 1]) + Encode(rs[|rs| - 1], |Nodes(rs[..|rs| - 1])|)
  }

  /** A path without NUL at its end. */
  predicate Unpadded(path: Path) { path == [] || path[|path| - 1] != 0 }

  /** A path that is read back as it was written: not empty, and without NUL at its end. */
  predicate PathOk(path: Path) { path != [] && Unpadded(path) }

  /** A record that may be written after `n` nodes: ids are dense, a dependency record refers to
      nodes that were written before, and the sizes are in the limits. The path may be empty. */
  ghost predicate RecordFits(r: Record, n: nat) {
    match r
    case Node(path) => Unpadded(path) && NodeSize(path) + 4 < MAX_RECORD_SIZE && n < INT32_MAX
    case Deps(id, mtime, ids) =>
      && id < n <= INT32_MAX && (forall k {:trigger ids[k]} :: 0 <= k < |ids| ==> ids[k] < n)
      && IsInt64(mtime) && DepsSize(|ids|) + 4 < MAX_RECORD_SIZE
  }

  ghost predicate RecordsFit(rs: seq<Record>) {
    rs == [] || (RecordsFit(rs[..|rs| - 1]) && RecordFits(rs[|rs| - 1], |Nodes(rs[..|rs| - 1])|))
  }

  /** The record does not name an empty path. */
  predicate Named(r: Record) { r.Node? ==> r.path != [] }

  predicate AllNamed(rs: seq<Record>) {
    forall i {:trigger rs[i]} :: 0 <= i < |rs| ==> Named(rs[i])
  }

  /** A record that is read back. */
  ghost predicate RecordOk(r: Record, n: nat) { RecordFits(r, n) && Named(r) }

  ghost predicate RecordsOk(rs: seq<Record>) { RecordsFit(rs) && AllNamed(rs) }

  // ---------------------------------------------------------------------------------------
  // Reading
  // ---------------------------------------------------------------------------------------

  /** What reading a log comes to. After a bad record, `entries` are what is kept of it. */
  datatype Outcome =
    | Complete(entries: seq<Entry>, nrecord: nat)
    | Bad(entries: seq<Entry>)

  /** A path without the NULs at its end. */
  function Strip(b: seq<byte>): (p: Path)
    ensures p <= b && (p == [] || p[|p| - 1] != 0)
  {
    if b == [] || b[|b| - 1] != 0 then b else Strip(b[..|b| - 1])
  }

  function IdsIn(body: seq<byte>, n: nat): (ids: seq<nat>)
    requires 12 + 4 * n <= |body|
    ensures |ids| == n
  {
    seq(n, i requires 0 <= i < n => Dec32(body, 12 + 4 * i))
  }

  function Names(entries: seq<Entry>, ids: seq<nat>): seq<Path>
    requires forall k {:trigger ids[k]} :: 0 <= k < |ids| ==> ids[k] < |entries|
  {
    seq(|ids|, k requires 0 <= k < |ids| => entries[ids[k]].node)
  }

  /** A node record: the checksum must be the complement of the next id. */
  function ReadNode(body: seq<byte>, entries: seq<Entry>): Outcome
    requires |body| % 4 == 0
  {
    var sz := |body|;
    if sz <= 4 then Bad(entries)
    else if |entries| != TWO32 - 1 - Dec32(body, sz - 4) then Bad(entries)
    else if |entries| == INT32_MAX then Bad(entries)
    else
      var path := Strip(body[..sz - 4]);
      if path == [] then Bad(entries)
      else Complete(entries + [Entry(path, [], 0)], 0)
  }

  /** A dependency record. The dependencies are only kept for a node that is `wanted`: one that is
      built by an edge that keeps them. */
  function ReadDeps(body: seq<byte>, wanted: Path -> bool, entries: seq<Entry>): Outcome
    requires |body| % 4 == 0
  {
    var sz := |body|;
    if sz < 12 then Bad(entries)
    else
      var id := Dec32(body, 0);
      if id >= |entries| then Bad(entries)
      else
        var entry := entries[id].(mtime := Join(Dec32(body, 8), Dec32(body, 4)));
        if !wanted(entry.node) then Complete(entries[id := entry], 0)
        else
          var ids := IdsIn(body, (sz - 12) / 4);
          if exists k {:trigger ids[k]} :: 0 <= k < |ids| && ids[k] >= |entries| then Bad(entries[id := entry])
          else Complete(entries[id := entry.(deps := Names(entries, ids))], 0)
  }

  function ReadRecord(body: seq<byte>, isdep: bool, wanted: Path -> bool, entries: seq<Entry>): Outcome
    requires |body| % 4 == 0
  {
    if isdep then ReadDeps(body, wanted, entries) else ReadNode(body, entries)
  }

  /** The records after the header. Up to three bytes at the end are ignored. */
  function ReadAll(log: seq<byte>, wanted: Path -> bool, entries: seq<Entry>, nrecord: nat): Outcome
    decreases |log|
  {
    if |log| < 4 then Complete(entries, nrecord)
    else
      var sz := Dec32(log, 0) % TWO31;
      if sz > MAX_RECORD_SIZE || sz == 0 || |log| < 4 + sz || sz % 4 != 0 then Bad(entries)
      else
        var r := ReadRecord(log[4..4 + sz], Dec32(log, 0) >= TWO31, wanted, entries);
        if r.Bad? then r else ReadAll(log[4 + sz..], wanted, r.entries, nrecord + 1)
  }
}
