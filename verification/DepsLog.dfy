/** samu's deps log (deps.c): recording, reading, and compaction. */
module DepsLog {
  import opened DepsFormat
  import opened DepsReplay

  /** The header: the text "# ninjadeps" and a newline, and version 4. */
  function Header(): (h: seq<byte>)
    ensures |h| == 16
  {
    [35, 32, 110, 105, 110, 106, 97, 100, 101, 112, 115, 10] + Enc32(4)
  }

  /** A whole log file. */
  function ReadFile(file: seq<byte>, wanted: Path -> bool): Outcome {
    if Header() <= file then ReadAll(file[16..], wanted, [], 0) else Bad([])
  }

  // ---------------------------------------------------------------------------------------
  // Writing
  // ---------------------------------------------------------------------------------------

  /** Each node record's path has the number of the record as its id, and no other path has one. */
  ghost predicate IdsMatch(nodes: seq<Path>, ids: map<Path, nat>) {
    && (forall k {:trigger nodes[k]} :: 0 <= k < |nodes| ==> nodes[k] in ids && ids[nodes[k]] == k)
    && (forall p {:trigger p in ids} :: p in ids ==> ids[p] < |nodes| && nodes[ids[p]] == p)
  }

  lemma NodesSnoc(rs: seq<Record>, r: Record)
    ensures Nodes(rs + [r]) == if r.Node? then Nodes(rs) + [r.path] else Nodes(rs)
    ensures EncodeAll(rs + [r]) == EncodeAll(rs) + Encode(r, |Nodes(rs)|)
    ensures RecordsFit(rs + [r]) <==> RecordsFit(rs) && RecordFits(r, |Nodes(rs)|)
  {
    hide Encode, RecordFits;
    assert (rs + [r])[..|rs|] == rs;
  }

  lemma NamedSnoc(rs: seq<Record>, r: Record)
    ensures AllNamed(rs + [r]) <==> AllNamed(rs) && Named(r)
  {
    hide Named;
    assert forall i {:trigger rs[i]} :: 0 <= i < |rs| ==> rs[i] == (rs + [r])[i];
    assert (rs + [r])[|rs|] == r;
  }

  lemma ReplayedSnoc(rs: seq<Record>, r: Record, wanted: Path -> bool)
    ensures Replayed(rs + [r], wanted) == Apply(Replayed(rs, wanted), r, wanted)
  {
    hide Apply;
    assert (rs + [r])[..|rs|] == rs;
  }

  function IdsOf(ids: map<Path, nat>, deps: seq<Path>): (r: seq<nat>)
    requires forall k {:trigger deps[k]} :: 0 <= k < |deps| ==> deps[k] in ids
    ensures |r| == |deps|
  {
    seq(|deps|, k requires 0 <= k < |deps| => ids[deps[k]])
  }

  lemma DepsOk(nodes: seq<Path>, ids: map<Path, nat>, out: Path, deps: seq<Path>, mtime: int)
    requires IdsMatch(nodes, ids) && |nodes| <= INT32_MAX && IsInt64(mtime) && out in ids
    requires forall k {:trigger deps[k]} :: 0 <= k < |deps| ==> deps[k] in ids
    ensures DepsSize(|deps|) + 4 < MAX_RECORD_SIZE ==> RecordFits(Deps(ids[out], mtime, IdsOf(ids, deps)), |nodes|)
  {
  }

  lemma NodeFits(path: Path, n: nat)
    requires Unpadded(path)
    ensures NodeSize(path) + 4 < MAX_RECORD_SIZE && n < INT32_MAX ==> RecordFits(Node(path), n)
  {
    hide NodeSize;
  }

  lemma NextId(nodes: seq<Path>, ids: map<Path, nat>, path: Path)
    requires IdsMatch(nodes, ids) && path !in ids
    ensures IdsMatch(nodes + [path], ids[path := |nodes|])
  {
  }

  class Log {
    var bytes: seq<byte>
    var ids: map<Path, nat>
    var entrieslen: nat
    ghost var records: seq<Record>

    ghost predicate Valid()
      reads this
    {
      && RecordsFit(records)
      && bytes == Header() + EncodeAll(records)
      && entrieslen == |Nodes(records)|
      && IdsMatch(Nodes(records), ids)
    }

    /** A new log with its header. */
    constructor ()
      ensures Valid() && records == [] && ids == map[] && entrieslen == 0
    {
      bytes := Header();
      ids := map[];
      entrieslen := 0;
      records := [];
    }

    method Write(b: seq<byte>)
      modifies `bytes
      ensures bytes == old(bytes) + b
    {
      bytes := bytes + b;
    }

    /** `recordid`: an id for a node, and its record, unless it has one. A node may have an empty
        path, after which the log does not read back. */
    method RecordId(path: Path) returns (fatal: bool, added: bool)
      requires Valid() && Unpadded(path)
      modifies this
      ensures fatal <==> path !in old(ids) && (old(entrieslen) == 0x7fff_ffff || NodeSize(path) + 4 >= 0x8_0000)
      ensures !fatal ==> Valid() && path in ids && (added <==> path !in old(ids)) && ids.Keys == old(ids.Keys) + {path}
      ensures !fatal ==> records == if added then old(records) + [Node(path)] else old(records)
      ensures !fatal ==> entrieslen == if added then old(entrieslen) + 1 else old(entrieslen)
      ensures !fatal ==> forall p {:trigger p in ids} :: p in old(ids) ==> p in ids && ids[p] == old(ids)[p]
    {
      hide EncodeAll, RecordsFit, AllNamed, Enc32, Header, IdsMatch, Nodes, NodeSize, Zeros, Encode, RecordFits;
      NodesBounded(records);
      NodesSnoc(records, Node(path));
      NodeFits(path, entrieslen);
      if path in ids {
        return false, false;
      }
      if entrieslen == INT32_MAX {
        return true, false;
      }
      NextId(Nodes(records), ids, path);
      ids := ids[path := entrieslen];
      entrieslen := entrieslen + 1;
      var sz := NodeSize(path);
      if sz + 4 >= MAX_RECORD_SIZE {
        return true, false;
      }
      var chk := TWO32 - 1 - ids[path];
      WriteNode(path, sz, chk);
      NodeWritten(old(bytes), path, old(entrieslen));
      records := records + [Node(path)];
      fatal, added := false, true;
    }

    /** The size, the path, its padding and the checksum. */
    method WriteNode(path: Path, sz: nat, chk: nat)
      requires sz == NodeSize(path)
      modifies `bytes
      ensures bytes == old(bytes) + Enc32(sz) + path + Zeros(sz - |path| - 4) + Enc32(chk)
    {
      hide Enc32, NodeSize;
      Write(Enc32(sz));
      Write(path);
      Write(Zeros(sz - |path| - 4));
      Write(Enc32(chk));
    }

    /** `recorddeps`: the dependencies of an output. All the nodes have ids. */
    method RecordDeps(out: Path, deps: seq<Path>, mtime: int) returns (fatal: bool)
      requires Valid() && IsInt64(mtime) && out in ids
      requires forall k {:trigger deps[k]} :: 0 <= k < |deps| ==> deps[k] in ids
      modifies `bytes, `records
      ensures fatal <==> 12 + 4 * |deps| + 4 >= 0x8_0000
      ensures !fatal ==> Valid() && ids == old(ids) && entrieslen == old(entrieslen)
      ensures !fatal ==> records == old(records) + [Deps(ids[out], mtime, IdsOf(ids, deps))]
    {
      hide EncodeAll, RecordsFit, Enc32, Low, High, RecordFits, IdsMatch, IsInt64, EncAll, IdsOf;
      ghost var r := Deps(ids[out], mtime, IdsOf(ids, deps));
      NodesBounded(records);
      NodesSnoc(records, r);
      DepsOk(Nodes(records), ids, out, deps, mtime);
      var sz := DepsSize(|deps|);
      if sz + 4 >= MAX_RECORD_SIZE {
        return true;
      }
      Write(Enc32(TWO31 + sz));
      Write(Enc32(ids[out]));
      var m := Low(mtime);
      Write(Enc32(m));
      m := High(mtime);
      Write(Enc32(m));
      WriteIds(deps);
      assert bytes == old(bytes) + Encode(r, entrieslen);
      records := records + [r];
      fatal := false;
    }

    method WriteIds(deps: seq<Path>)
      requires forall k {:trigger deps[k]} :: 0 <= k < |deps| ==> deps[k] in ids
      modifies `bytes
      ensures bytes == old(bytes) + EncAll(IdsOf(ids, deps))
    {
      hide Enc32;
      ghost var all := IdsOf(ids, deps);
      var i := 0;
      assert all[..0] == [];
      while i < |deps|
        invariant i <= |deps| && bytes == old(bytes) + EncAll(all[..i])
      {
        assert all[..i + 1][..i] == all[..i];
        Write(Enc32(ids[deps[i]]));
        i := i + 1;
      }
      assert all[..|all|] == all;
    }
  }

  lemma {:induction false} NodesBounded(rs: seq<Record>)
    requires RecordsFit(rs)
    ensures |Nodes(rs)| <= INT32_MAX
    ensures forall k {:trigger Nodes(rs)[k]} :: 0 <= k < |Nodes(rs)| ==> NodeSize(Nodes(rs)[k]) + 4 < MAX_RECORD_SIZE
  {
    hide NodeSize;
    if rs != [] {
      NodesBounded(rs[..|rs| - 1]);
    }
  }

  /** A log reads back exactly if it has no record of an empty path. */
  lemma ReadsBack(log: Log, wanted: Path -> bool)
    requires log.Valid()
    ensures ReadFile(log.bytes, wanted).Complete? <==> [] !in log.ids
    ensures [] !in log.ids ==> ReadFile(log.bytes, wanted) == Complete(Replayed(log.records, wanted), |log.records|)
  {
    hide ReadAll, EncodeAll, RecordsFit, Header;
    var rs := log.records;
    assert log.bytes[16..] == EncodeAll(rs);
    ReadsBackUnlessEmptyPath(rs, wanted);
    NamedNodes(rs);
    if !AllNamed(rs) {
      var k :| 0 <= k < |Nodes(rs)| && Nodes(rs)[k] == [];
    }
  }

  lemma {:induction false} NamedNodes(rs: seq<Record>)
    ensures AllNamed(rs) <==> [] !in Nodes(rs)
  {
    hide Nodes, AllNamed, EncodeAll, Encode, RecordsFit, RecordFits;
    if rs == [] {
      NoNodes();
    } else {
      var front, r := rs[..|rs| - 1], rs[|rs| - 1];
      NamedNodes(front);
      NodesSnoc(front, r);
      NamedSnoc(front, r);
      assert front + [r] == rs;
    }
  }

  lemma NoNodes()
    ensures Nodes([]) == [] && AllNamed([])
  {
  }

  // ---------------------------------------------------------------------------------------
  // Compaction
  // ---------------------------------------------------------------------------------------

  /** Entries that a log can be written for. */
  ghost predicate EntriesOk(entries: seq<Entry>, wanted: Path -> bool) {
    forall i {:trigger entries[i]} :: 0 <= i < |entries| ==> EntryOk(entries[i], wanted)
  }

  ghost predicate EntryOk(e: Entry, wanted: Path -> bool) {
    && PathOk(e.node) && IsInt64(e.mtime) && (e.deps != [] ==> wanted(e.node))
    && forall j {:trigger e.deps[j]} :: 0 <= j < |e.deps| ==> PathOk(e.deps[j])
  }

  /** The log says what the entries say. */
  ghost predicate Says(rs: seq<Record>, wanted: Path -> bool, entries: seq<Entry>) {
    forall p {:trigger Lookup(Replayed(rs, wanted), p)} {:trigger Lookup(entries, p)} ::
      Lookup(Replayed(rs, wanted), p) == Lookup(entries, p)
  }

  lemma NodeSaysNothing(rs: seq<Record>, path: Path, wanted: Path -> bool, entries: seq<Entry>)
    requires Says(rs, wanted, entries)
    ensures Says(rs + [Node(path)], wanted, entries)
  {
    ReplayedSnoc(rs, Node(path), wanted);
    forall p ensures Lookup(Replayed(rs + [Node(path)], wanted), p) == Lookup(entries, p) {
      LookupSnoc(Replayed(rs, wanted), Entry(path, [], 0), p);
    }
  }

  lemma DistinctNodes(rs: seq<Record>, ids: map<Path, nat>, wanted: Path -> bool)
    requires IdsMatch(Nodes(rs), ids)
    ensures Distinct(Replayed(rs, wanted))
    ensures |Replayed(rs, wanted)| == |Nodes(rs)|
    ensures forall p {:trigger p in ids} :: p in ids ==> Replayed(rs, wanted)[ids[p]].node == p
  {
    EntriesAreNodes(rs, wanted);
    var entries := Replayed(rs, wanted);
    forall i, j | 0 <= i < j < |entries| ensures entries[i].node != entries[j].node {
      assert Nodes(rs)[i] in ids && Nodes(rs)[j] in ids;
    }
  }

  /** A dependency record of an entry makes the log say the entry too. */
  lemma DepsSay(rs: seq<Record>, ids: map<Path, nat>, e: Entry, wanted: Path -> bool, entries: seq<Entry>)
    requires Says(rs, wanted, entries) && IdsMatch(Nodes(rs), ids) && e.deps != [] && wanted(e.node) && e.node in ids
    requires forall k {:trigger e.deps[k]} :: 0 <= k < |e.deps| ==> e.deps[k] in ids
    ensures Says(rs + [Deps(ids[e.node], e.mtime, IdsOf(ids, e.deps))], wanted, entries + [e])
  {
    var r := Deps(ids[e.node], e.mtime, IdsOf(ids, e.deps));
    var all := Replayed(rs, wanted);
    DistinctNodes(rs, ids, wanted);
    ReplayedSnoc(rs, r, wanted);
    AppliedEntry(all, ids, e, wanted);
    forall p ensures Lookup(Replayed(rs + [r], wanted), p) == Lookup(entries + [e], p) {
      LookupUpdate(all, ids[e.node], e, p);
      LookupSnoc(entries, e, p);
    }
  }

  lemma AppliedEntry(all: seq<Entry>, ids: map<Path, nat>, e: Entry, wanted: Path -> bool)
    requires e.node in ids && wanted(e.node) && forall k {:trigger e.deps[k]} :: 0 <= k < |e.deps| ==> e.deps[k] in ids
    requires forall p {:trigger p in ids} :: p in ids ==> ids[p] < |all| && all[ids[p]].node == p
    ensures Apply(all, Deps(ids[e.node], e.mtime, IdsOf(ids, e.deps)), wanted) == all[ids[e.node] := e]
  {
    var r := IdsOf(ids, e.deps);
    forall k | 0 <= k < |r| ensures r[k] < |all| && all[r[k]].node == e.deps[k] {
      assert e.deps[k] in ids;
    }
    assert Names(all, r) == e.deps;
  }

  lemma SkippedEntry(rs: seq<Record>, wanted: Path -> bool, entries: seq<Entry>, e: Entry)
    requires Says(rs, wanted, entries) && e.deps == []
    ensures Says(rs, wanted, entries + [e])
  {
    forall p ensures Lookup(Replayed(rs, wanted), p) == Lookup(entries + [e], p) {
      LookupSnoc(entries, e, p);
    }
  }

  /** Everything about an entry fits in its records. */
  predicate Fits(e: Entry) {
    e.deps != [] ==>
      && NodeSize(e.node) + 4 < MAX_RECORD_SIZE && DepsSize(|e.deps|) + 4 < MAX_RECORD_SIZE
      && forall j {:trigger e.deps[j]} :: 0 <= j < |e.deps| ==> NodeSize(e.deps[j]) + 4 < MAX_RECORD_SIZE
  }

  ghost predicate AllFit(entries: seq<Entry>) {
    forall i {:trigger entries[i]} :: 0 <= i < |entries| ==> Fits(entries[i])
  }

  ghost function SetOf(paths: seq<Path>): set<Path> { set p | p in paths }

  /** The paths that need an id for an entry to be written. */
  ghost function NamesOf(e: Entry): set<Path> {
    if e.deps == [] then {} else {e.node} + SetOf(e.deps)
  }

  ghost function Mentioned(entries: seq<Entry>): set<Path> {
    if entries == [] then {} else Mentioned(entries[..|entries| - 1]) + NamesOf(entries[|entries| - 1])
  }

  /** How many entries have dependencies. */
  ghost function Kept(entries: seq<Entry>): nat {
    if entries == [] then 0
    else Kept(entries[..|entries| - 1]) + if entries[|entries| - 1].deps == [] then 0 else 1
  }

  lemma {:induction false} MentionedMore(entries: seq<Entry>, i: nat)
    requires i <= |entries|
    ensures Mentioned(entries[..i]) <= Mentioned(entries)
  {
    hide NamesOf;
    if i < |entries| {
      MentionedMore(entries[..|entries| - 1], i);
      assert entries[..|entries| - 1][..i] == entries[..i];
    } else {
      assert entries[..i] == entries;
    }
  }

  lemma {:induction false} Subset<T>(a: set<T>, b: set<T>)
    requires a <= b
    ensures |a| <= |b|
    ensures a < b ==> |a| < |b|
  {
    if a != {} {
      var x :| x in a;
      Subset(a - {x}, b - {x});
    } else if b != {} {
      var x :| x in b;
    }
  }

  /** There are as many ids as node records. */
  lemma {:induction false} IdsCount(nodes: seq<Path>, ids: map<Path, nat>)
    requires IdsMatch(nodes, ids)
    ensures |ids.Keys| == |nodes|
  {
    if nodes == [] {
      assert ids.Keys == {};
    } else {
      var front, last := nodes[..|nodes| - 1], nodes[|nodes| - 1];
      var rest := map p | p in ids && p != last :: ids[p];
      assert last in ids;
      forall k | 0 <= k < |front| ensures front[k] in rest && rest[front[k]] == k {
        assert nodes[k] in ids && ids[nodes[k]] == k;
      }
      forall p | p in rest ensures rest[p] < |front| && front[rest[p]] == p {
        assert ids[p] < |nodes| && nodes[ids[p]] == p;
      }
      IdsCount(front, rest);
      assert ids.Keys == rest.Keys + {last};
    }
  }

  /** The ids of a log are within the limit, and so are the sizes of their records. */
  lemma KnownFits(log: Log)
    requires log.Valid()
    ensures |log.ids.Keys| == log.entrieslen <= INT32_MAX
    ensures forall p {:trigger p in log.ids} :: p in log.ids ==> NodeSize(p) + 4 < MAX_RECORD_SIZE
  {
    hide EncodeAll, NodeSize;
    NodesBounded(log.records);
    IdsCount(Nodes(log.records), log.ids);
  }

  /** The rewrite of a log: one record for every entry with dependencies, and an id and a record for every
      path that is mentioned in them. It gives up exactly if there
      are too many nodes, or if something about an entry is too large for a record. */
  method Rewrite(entries: seq<Entry>, ghost wanted: Path -> bool) returns (fatal: bool, log: Log)
    requires EntriesOk(entries, wanted)
    ensures fresh(log)
    ensures !fatal ==> log.Valid() && [] !in log.ids && Says(log.records, wanted, entries)
    ensures !fatal ==> log.ids.Keys == Mentioned(entries)
    ensures !fatal ==> |log.records| == |Mentioned(entries)| + Kept(entries)
    ensures fatal <==> |Mentioned(entries)| > INT32_MAX || !AllFit(entries)
  {
    hide Says, EntryOk, Fits, Log.Valid, Mentioned, Kept, Rewritten;
    log := new Log();
    NothingSaid(log, wanted);
    var i := 0;
    assert entries[..0] == [];
    while i < |entries|
      invariant i <= |entries| && fresh(log) && Rewritten(log, entries[..i], wanted)
      invariant forall k {:trigger entries[k]} :: 0 <= k < i ==> Fits(entries[k])
    {
      assert entries[..i + 1] == entries[..i] + [entries[i]];
      fatal := RewriteEntry(log, entries[i], entries[..i], wanted);
      if fatal {
        TooMuch(entries, i);
        return;
      }
      i := i + 1;
    }
    assert entries[..|entries|] == entries;
    AllRewritten(log, entries, wanted);
    fatal := false;
  }

  /** The log says what the entries `done` say, with an id for each path in them and a record for each of
      those that have dependencies. */
  ghost predicate Rewritten(log: Log, done: seq<Entry>, wanted: Path -> bool)
    reads log
  {
    && log.Valid() && [] !in log.ids && Says(log.records, wanted, done)
    && log.ids.Keys == Mentioned(done) && |log.records| - log.entrieslen == Kept(done)
  }

  lemma AllRewritten(log: Log, entries: seq<Entry>, wanted: Path -> bool)
    requires Rewritten(log, entries, wanted)
    ensures log.Valid() && [] !in log.ids && Says(log.records, wanted, entries)
    ensures log.ids.Keys == Mentioned(entries) && |log.records| == |Mentioned(entries)| + Kept(entries)
    ensures |Mentioned(entries)| <= INT32_MAX
  {
    hide Says, Mentioned, Kept, Log.Valid;
    KnownFits(log);
  }

  /** What is too much for the first entries is too much for all. */
  lemma TooMuch(entries: seq<Entry>, i: nat)
    requires i < |entries| && (|Mentioned(entries[..i + 1])| > INT32_MAX || !Fits(entries[i]))
    ensures |Mentioned(entries)| > INT32_MAX || !AllFit(entries)
  {
    hide Fits, Mentioned;
    MentionedMore(entries, i + 1);
    Subset(Mentioned(entries[..i + 1]), Mentioned(entries));
  }

  /** An entry without dependencies is left out. */
  method RewriteEntry(log: Log, entry: Entry, ghost before: seq<Entry>, ghost wanted: Path -> bool)
    returns (fatal: bool)
    requires EntryOk(entry, wanted) && Rewritten(log, before, wanted)
    modifies log
    ensures !fatal ==> Rewritten(log, before + [entry], wanted) && Fits(entry)
    ensures fatal ==> |Mentioned(before + [entry])| > INT32_MAX || !Fits(entry)
  {
    hide Says, EntryOk, NamesOf, Fits, Log.Valid, Mentioned, Kept;
    MentionedNext(before, entry);
    if entry.deps == [] {
      SkippedEntry(log.records, wanted, before, entry);
      SkippedFits(entry);
      fatal := false;
    } else {
      fatal := WriteEntry(log, entry, before, wanted);
    }
  }

  lemma MentionedNext(before: seq<Entry>, e: Entry)
    ensures Mentioned(before + [e]) == Mentioned(before) + NamesOf(e)
    ensures Kept(before + [e]) == Kept(before) + if e.deps == [] then 0 else 1
  {
    hide NamesOf;
    assert (before + [e])[..|before|] == before;
  }

  lemma SkippedFits(e: Entry)
    requires e.deps == []
    ensures Fits(e) && NamesOf(e) == {}
  {
  }

  lemma NothingSaid(log: Log, wanted: Path -> bool)
    requires log.Valid() && log.records == [] && log.ids == map[] && log.entrieslen == 0
    ensures Rewritten(log, [], wanted)
  {
    hide Log.Valid;
  }

  method WriteEntry(log: Log, entry: Entry, ghost before: seq<Entry>, ghost wanted: Path -> bool) returns (fatal: bool)
    requires log.Valid() && [] !in log.ids
    requires entry.deps != [] && EntryOk(entry, wanted) && Says(log.records, wanted, before)
    modifies log
    ensures !fatal ==> log.Valid() && [] !in log.ids && Says(log.records, wanted, before + [entry])
    ensures !fatal ==> log.ids.Keys == old(log.ids.Keys) + NamesOf(entry)
    ensures !fatal ==> |log.records| - log.entrieslen == old(|log.records| - log.entrieslen) + 1
    ensures fatal <==> |old(log.ids.Keys) + NamesOf(entry)| > INT32_MAX || !Fits(entry)
  {
    hide Says, NodeSize, DepsSize, IsInt64, Unpadded, EntryOk, Log.Valid, Fits, NamesOf, SetOf;
    EntryPaths(entry, wanted);
    fatal := WriteNodes(log, entry, before, wanted);
    if !fatal {
      KnownFits(log);
      EntryFits(log, entry);
      fatal := WriteDeps(log, entry, before, wanted);
    }
  }

  /** What is left to decide about an entry once its paths have ids. */
  lemma EntryFits(log: Log, e: Entry)
    requires log.Valid() && NamesOf(e) <= log.ids.Keys && e.deps != []
    ensures Fits(e) <==> 12 + 4 * |e.deps| + 4 < 0x8_0000
    ensures e.node in log.ids && forall k {:trigger e.deps[k]} :: 0 <= k < |e.deps| ==> e.deps[k] in log.ids
  {
    hide NodeSize, Log.Valid;
    KnownFits(log);
    assert forall k {:trigger e.deps[k]} :: 0 <= k < |e.deps| ==> e.deps[k] in NamesOf(e);
  }

  /** The record of an entry whose paths have ids. */
  method WriteDeps(log: Log, entry: Entry, ghost before: seq<Entry>, ghost wanted: Path -> bool) returns (fatal: bool)
    requires log.Valid() && Says(log.records, wanted, before) && entry.deps != [] && wanted(entry.node)
    requires IsInt64(entry.mtime) && entry.node in log.ids
    requires forall k {:trigger entry.deps[k]} :: 0 <= k < |entry.deps| ==> entry.deps[k] in log.ids
    modifies log
    ensures fatal <==> 12 + 4 * |entry.deps| + 4 >= 0x8_0000
    ensures !fatal ==> log.Valid() && log.ids == old(log.ids) && Says(log.records, wanted, before + [entry])
    ensures !fatal ==> log.entrieslen == old(log.entrieslen) && |log.records| == |old(log.records)| + 1
  {
    hide Says, IsInt64, Log.Valid;
    LogIds(log);
    DepsSay(log.records, log.ids, entry, wanted, before);
    fatal := log.RecordDeps(entry.node, entry.deps, entry.mtime);
  }

  lemma LogIds(log: Log)
    requires log.Valid()
    ensures IdsMatch(Nodes(log.records), log.ids)
  {
  }

  lemma EntryPaths(e: Entry, wanted: Path -> bool)
    requires EntryOk(e, wanted)
    ensures Unpadded(e.node) && e.node != [] && IsInt64(e.mtime) && (e.deps != [] ==> wanted(e.node))
    ensures forall j {:trigger e.deps[j]} :: 0 <= j < |e.deps| ==> Unpadded(e.deps[j]) && e.deps[j] != []
  {
  }

  /** Gives ids to the node of an entry and to its dependencies. */
  method WriteNodes(log: Log, entry: Entry, ghost before: seq<Entry>, ghost wanted: Path -> bool) returns (fatal: bool)
    requires log.Valid() && [] !in log.ids && entry.deps != [] && Says(log.records, wanted, before)
    requires Unpadded(entry.node) && entry.node != []
    requires forall j {:trigger entry.deps[j]} :: 0 <= j < |entry.deps| ==>
      Unpadded(entry.deps[j]) && entry.deps[j] != []
    modifies log
    ensures !fatal ==> log.Valid() && [] !in log.ids && Says(log.records, wanted, before)
    ensures !fatal ==> log.ids.Keys == old(log.ids.Keys) + NamesOf(entry)
    ensures !fatal ==> |log.records| - log.entrieslen == old(|log.records| - log.entrieslen)
    ensures fatal ==> |old(log.ids.Keys) + NamesOf(entry)| > INT32_MAX || !Fits(entry)
  {
    hide Says, NodeSize, Unpadded, Log.Valid, SetOf, NamesOf, Fits;
    ghost var all := log.ids.Keys + NamesOf(entry);
    EntryNames(entry);
    fatal := WriteNode(log, entry.node, all, before, wanted);
    if !fatal {
      fatal := WriteDepNodes(log, entry.deps, all, before, wanted);
    }
  }

  /** Gives ids to dependencies. */
  method WriteDepNodes(log: Log, deps: seq<Path>, ghost all: set<Path>, ghost before: seq<Entry>,
      ghost wanted: Path -> bool)
    returns (fatal: bool)
    requires log.Valid() && [] !in log.ids && Says(log.records, wanted, before)
    requires forall j {:trigger deps[j]} :: 0 <= j < |deps| ==> Unpadded(deps[j]) && deps[j] != []
    requires log.ids.Keys <= all && SetOf(deps) <= all
    modifies log
    ensures !fatal ==> log.Valid() && [] !in log.ids && Says(log.records, wanted, before)
    ensures !fatal ==> log.ids.Keys == old(log.ids.Keys) + SetOf(deps)
    ensures !fatal ==> |log.records| - log.entrieslen == old(|log.records| - log.entrieslen)
    ensures fatal ==>
      || |all| > INT32_MAX
      || exists j {:trigger deps[j]} :: 0 <= j < |deps| && NodeSize(deps[j]) + 4 >= MAX_RECORD_SIZE
  {
    hide Says, NodeSize, Unpadded, Log.Valid, SetOf;
    SetOfPrefix(deps, 0);
    var j := 0;
    while j < |deps|
      invariant j <= |deps| && log.Valid() && Says(log.records, wanted, before) && [] !in log.ids
      invariant log.ids.Keys == old(log.ids.Keys) + SetOf(deps[..j]) && log.ids.Keys <= all
      invariant |log.records| - log.entrieslen == old(|log.records| - log.entrieslen)
    {
      SetOfPrefix(deps, j);
      fatal := WriteNode(log, deps[j], all, before, wanted);
      if fatal {
        return;
      }
      j := j + 1;
    }
    assert deps[..|deps|] == deps;
    fatal := false;
  }

  lemma SetOfPrefix(paths: seq<Path>, j: nat)
    requires j <= |paths|
    ensures SetOf(paths[..0]) == {}
    ensures j < |paths| ==> paths[j] in SetOf(paths) && SetOf(paths[..j + 1]) == SetOf(paths[..j]) + {paths[j]}
  {
    if j < |paths| {
      assert paths[..j + 1] == paths[..j] + [paths[j]];
    }
  }

  lemma EntryNames(e: Entry)
    requires e.deps != []
    ensures NamesOf(e) == {e.node} + SetOf(e.deps)
    ensures NodeSize(e.node) + 4 >= MAX_RECORD_SIZE ==> !Fits(e)
    ensures forall j {:trigger e.deps[j]} :: 0 <= j < |e.deps| && NodeSize(e.deps[j]) + 4 >= MAX_RECORD_SIZE ==>
      !Fits(e)
  {
    hide NodeSize, DepsSize;
  }

  /** Gives an id to one of the paths in `all`. */
  method WriteNode(log: Log, path: Path, ghost all: set<Path>, ghost before: seq<Entry>, ghost wanted: Path -> bool)
    returns (fatal: bool)
    requires log.Valid() && [] !in log.ids && Says(log.records, wanted, before) && Unpadded(path) && path != []
    requires log.ids.Keys <= all && path in all
    modifies log
    ensures !fatal ==> log.Valid() && [] !in log.ids && Says(log.records, wanted, before)
    ensures !fatal ==> log.ids.Keys == old(log.ids.Keys) + {path}
    ensures !fatal ==> |log.records| - log.entrieslen == old(|log.records| - log.entrieslen)
    ensures fatal ==> |all| > INT32_MAX || NodeSize(path) + 4 >= MAX_RECORD_SIZE
  {
    hide Says, NodeSize, Unpadded, Log.Valid;
    NodeSaysNothing(log.records, path, wanted, before);
    KnownFits(log);
    TooMany(log.ids.Keys, path, all);
    var added;
    fatal, added := log.RecordId(path);
  }

  /** One more path than there are ids. */
  lemma TooMany(known: set<Path>, path: Path, all: set<Path>)
    requires known <= all && path in all
    ensures path !in known && |known| >= INT32_MAX ==> |all| > INT32_MAX
  {
    if path !in known {
      Subset(known, all);
    }
  }

  // ---------------------------------------------------------------------------------------
  // Reading
  // ---------------------------------------------------------------------------------------

  /** Whatever is read from a file, a log can be written for it. */
  lemma RecordGivesOk(body: seq<byte>, isdep: bool, wanted: Path -> bool, entries: seq<Entry>)
    requires |body| % 4 == 0 && EntriesOk(entries, wanted)
    ensures EntriesOk(ReadRecord(body, isdep, wanted, entries).entries, wanted)
  {
    hide Dec32;
    if isdep && |body| >= 12 {
      JoinIsInt64(Dec32(body, 8), Dec32(body, 4));
      var id := Dec32(body, 0);
      if id < |entries| {
        assert EntryOk(entries[id], wanted);
      }
    }
  }

  lemma JoinIsInt64(hi: nat, lo: nat)
    requires hi < TWO32 && lo < TWO32
    ensures IsInt64(Join(hi, lo))
  {
  }

  lemma {:induction false} ReadGivesOk(log: seq<byte>, wanted: Path -> bool, entries: seq<Entry>, nrecord: nat)
    requires EntriesOk(entries, wanted)
    ensures EntriesOk(ReadAll(log, wanted, entries, nrecord).entries, wanted)
    decreases |log|
  {
    hide ReadRecord, EntriesOk, Dec32;
    if |log| >= 4 {
      var sz := Dec32(log, 0) % TWO31;
      if !(sz > MAX_RECORD_SIZE || sz == 0 || |log| < 4 + sz || sz % 4 != 0) {
        var r := ReadRecord(log[4..4 + sz], Dec32(log, 0) >= TWO31, wanted, entries);
        RecordGivesOk(log[4..4 + sz], Dec32(log, 0) >= TWO31, wanted, entries);
        if r.Complete? {
          ReadGivesOk(log[4 + sz..], wanted, r.entries, nrecord + 1);
        }
      }
    }
  }

  lemma NodeWritten(b: seq<byte>, path: Path, n: nat)
    requires n < TWO32
    ensures b + Enc32(NodeSize(path)) + path + Zeros(NodeSize(path) - |path| - 4) + Enc32(TWO32 - 1 - n) ==
      b + Encode(Node(path), n)
  {
    hide Enc32;
    var size, zeros, check := Enc32(NodeSize(path)), Zeros(NodeSize(path) - |path| - 4), Enc32(TWO32 - 1 - n);
    assert b + size + path + zeros + check == b + (size + (path + zeros + check));
  }

  /** The loop of `depsinit` over the records, `pos` being the position in the file. */
  method Replay(log: seq<byte>, wanted: Path -> bool) returns (r: Outcome)
    ensures r == ReadAll(log, wanted, [], 0)
  {
    hide Dec32, ReadAll;
    var entries: seq<Entry>, nrecord: nat, pos: nat := [], 0, 0;
    assert log[0..] == log;
    while true
      invariant pos <= |log|
      invariant ReadAll(log[pos..], wanted, entries, nrecord) == ReadAll(log, wanted, [], 0)
      decreases |log| - pos
    {
      FirstRecord(log[pos..], wanted, entries, nrecord);
      if |log| - pos < 4 {
        return Complete(entries, nrecord);
      }
      var word := Dec32(log[pos..], 0);
      pos := pos + 4;
      var isdep := word >= TWO31;
      var sz := word % TWO31;
      if sz > MAX_RECORD_SIZE {
        return Bad(entries);
      }
      if sz == 0 || |log| - pos < sz {
        return Bad(entries);
      }
      if sz % 4 != 0 {
        return Bad(entries);
      }
      var body := log[pos..pos + sz];
      RecordAt(log, pos, sz);
      pos := pos + sz;
      if isdep {
        r := DepsRecord(body, wanted, entries);
      } else {
        r := NodeRecord(body, entries);
      }
      if r.Bad? {
        return;
      }
      entries := r.entries;
      nrecord := nrecord + 1;
    }
  }

  lemma FirstRecord(l: seq<byte>, wanted: Path -> bool, entries: seq<Entry>, nrecord: nat)
    ensures ReadAll(l, wanted, entries, nrecord) ==
      if |l| < 4 then Complete(entries, nrecord)
      else
        var sz := Dec32(l, 0) % TWO31;
        if sz > MAX_RECORD_SIZE || sz == 0 || |l| < 4 + sz || sz % 4 != 0 then Bad(entries)
        else
          var r := ReadRecord(l[4..4 + sz], Dec32(l, 0) >= TWO31, wanted, entries);
          if r.Bad? then r else ReadAll(l[4 + sz..], wanted, r.entries, nrecord + 1)
  {
    hide Dec32, ReadRecord;
  }

  lemma RecordAt(log: seq<byte>, pos: nat, sz: nat)
    requires 4 <= pos && pos + sz <= |log|
    ensures log[pos - 4..][4..4 + sz] == log[pos..pos + sz] && log[pos - 4..][4 + sz..] == log[pos + sz..]
  {
  }

  method NodeRecord(body: seq<byte>, entries: seq<Entry>) returns (r: Outcome)
    requires |body| % 4 == 0
    ensures r == ReadNode(body, entries)
  {
    hide Dec32, Strip;
    var sz := |body|;
    if sz <= 4 || |entries| != TWO32 - 1 - Dec32(body, sz - 4) || |entries| == INT32_MAX {
      return Bad(entries);
    }
    var len := sz - 4;
    while len > 0 && body[len - 1] == 0
      invariant 0 <= len <= sz - 4 && Strip(body[..len]) == Strip(body[..sz - 4])
    {
      StripStep(body, len);
      len := len - 1;
    }
    StripStep(body, len);
    if len == 0 {
      return Bad(entries);
    }
    r := Complete(entries + [Entry(body[..len], [], 0)], 0);
  }

  lemma StripStep(body: seq<byte>, len: nat)
    requires len <= |body|
    ensures Strip(body[..len]) == if len > 0 && body[len - 1] == 0 then Strip(body[..len - 1]) else body[..len]
  {
    if len > 0 {
      assert body[..len][..len - 1] == body[..len - 1];
    }
  }

  method DepsRecord(body: seq<byte>, wanted: Path -> bool, entries: seq<Entry>) returns (r: Outcome)
    requires |body| % 4 == 0
    ensures r == ReadDeps(body, wanted, entries)
  {
    hide Dec32;
    if |body| < 12 {
      return Bad(entries);
    }
    var sz := |body| - 12;
    var id := Dec32(body, 0);
    if id >= |entries| {
      return Bad(entries);
    }
    var entry := entries[id].(mtime := Join(Dec32(body, 8), Dec32(body, 4)));
    if !wanted(entry.node) {
      return Complete(entries[id := entry], 0);
    }
    sz := sz / 4;
    ghost var ids := IdsIn(body, sz);
    var deps: seq<Path> := [];
    var i := 0;
    while i < sz
      invariant i <= sz && |deps| == i
      invariant forall k {:trigger ids[k]} :: 0 <= k < i ==> ids[k] < |entries| && deps[k] == entries[ids[k]].node
    {
      var dep := Dec32(body, 12 + 4 * i);
      assert ids[i] == dep;
      if dep >= |entries| {
        return Bad(entries[id := entry]);
      }
      deps := deps + [entries[dep].node];
      i := i + 1;
    }
    assert deps == Names(entries, ids);
    r := Complete(entries[id := entry.(deps := deps)], 0);
  }

  /** Is a log worth compacting? */
  predicate Compacts(nrecord: nat, nentries: nat) { !(nrecord <= 1000 || nrecord < 3 * nentries) }

  predicate Keeps(r: Outcome) { r.Complete? && !Compacts(r.nrecord, |r.entries|) }

  /** The file has one record for every entry with dependencies, and one for every path in them. */
  ghost predicate Compacted(file: seq<byte>, entries: seq<Entry>) {
    exists rs :: Written(file, rs) && |Nodes(rs)| == |Mentioned(entries)| &&
      |rs| == |Mentioned(entries)| + Kept(entries)
  }

  lemma RewrittenFile(log: Log, entries: seq<Entry>)
    requires log.Valid() && [] !in log.ids && log.ids.Keys == Mentioned(entries)
    requires |log.records| == |Mentioned(entries)| + Kept(entries)
    ensures Compacted(log.bytes, entries)
  {
    hide EncodeAll, Header, Mentioned, Kept, RecordsFit;
    IdsCount(Nodes(log.records), log.ids);
    NamedNodes(log.records);
    assert Written(log.bytes, log.records);
  }

  /** The paths that entries are for. */
  ghost function NodesOf(entries: seq<Entry>): set<Path> {
    set i | 0 <= i < |entries| :: entries[i].node
  }

  /** Every path that has to be written has an entry of its own, and there are not too many. */
  ghost predicate Closed(entries: seq<Entry>) {
    && |entries| <= INT32_MAX
    && forall i {:trigger entries[i]} :: 0 <= i < |entries| ==> NamesOf(entries[i]) <= NodesOf(entries)
  }

  lemma RecordGivesClosed(body: seq<byte>, isdep: bool, wanted: Path -> bool, entries: seq<Entry>)
    requires |body| % 4 == 0 && Closed(entries)
    ensures Closed(ReadRecord(body, isdep, wanted, entries).entries)
  {
    hide Dec32, Strip, Join;
    var after := ReadRecord(body, isdep, wanted, entries).entries;
    assert forall i {:trigger entries[i]} :: 0 <= i < |entries| ==> after[i].node == entries[i].node;
    assert NodesOf(entries) <= NodesOf(after);
    forall i {:trigger after[i]} | 0 <= i < |after| ensures NamesOf(after[i]) <= NodesOf(after) {
      if i < |entries| {
        assert NamesOf(entries[i]) <= NodesOf(entries);
        assert after[i].node in NodesOf(after);
        forall j | 0 <= j < |after[i].deps| ensures after[i].deps[j] in NodesOf(after) {
          if after[i].deps == entries[i].deps {
            assert entries[i].deps[j] in NamesOf(entries[i]);
          }
        }
      }
    }
  }

  lemma {:induction false} ReadGivesClosed(log: seq<byte>, wanted: Path -> bool, entries: seq<Entry>, nrecord: nat)
    requires Closed(entries)
    ensures Closed(ReadAll(log, wanted, entries, nrecord).entries)
    decreases |log|
  {
    hide ReadRecord, Closed, Dec32;
    FirstRecord(log, wanted, entries, nrecord);
    if |log| >= 4 {
      var sz := Dec32(log, 0) % TWO31;
      if !(sz > MAX_RECORD_SIZE || sz == 0 || |log| < 4 + sz || sz % 4 != 0) {
        var r := ReadRecord(log[4..4 + sz], Dec32(log, 0) >= TWO31, wanted, entries);
        RecordGivesClosed(log[4..4 + sz], Dec32(log, 0) >= TWO31, wanted, entries);
        if r.Complete? {
          ReadGivesClosed(log[4 + sz..], wanted, r.entries, nrecord + 1);
        }
      }
    }
  }

  lemma {:induction false} MentionedWithin(entries: seq<Entry>, all: set<Path>)
    requires forall i {:trigger entries[i]} :: 0 <= i < |entries| ==> NamesOf(entries[i]) <= all
    ensures Mentioned(entries) <= all
  {
    if entries != [] {
      MentionedWithin(entries[..|entries| - 1], all);
    }
  }

  lemma {:induction false} NodesCount(entries: seq<Entry>)
    ensures |NodesOf(entries)| <= |entries|
  {
    if entries != [] {
      var front, last := entries[..|entries| - 1], entries[|entries| - 1];
      NodesCount(front);
      assert NodesOf(entries) == NodesOf(front) + {last.node};
    } else {
      assert NodesOf(entries) == {};
    }
  }

  /** What is read from a file never mentions too many paths. */
  lemma NeverTooMany(entries: seq<Entry>)
    requires Closed(entries)
    ensures |Mentioned(entries)| <= INT32_MAX
  {
    MentionedWithin(entries, NodesOf(entries));
    NodesCount(entries);
    Subset(Mentioned(entries), NodesOf(entries));
  }

  /** Whatever is read from a log that was written fits in records again. */
  lemma {:induction false} ReplayedFits(rs: seq<Record>, wanted: Path -> bool)
    requires RecordsFit(rs)
    ensures AllFit(Replayed(rs, wanted))
  {
    hide NodeSize, DepsSize, RecordFits;
    if rs != [] {
      var front, r := rs[..|rs| - 1], rs[|rs| - 1];
      ReplayedFits(front, wanted);
      EntriesAreNodes(front, wanted);
      NodesBounded(front);
      var entries := Replayed(front, wanted);
      forall i {:trigger entries[i]} | 0 <= i < |entries| ensures NodeSize(entries[i].node) + 4 < MAX_RECORD_SIZE {
        assert entries[i].node == Nodes(front)[i];
      }
      AppliedFits(Replayed(front, wanted), r, wanted);
    }
  }

  lemma AppliedFits(entries: seq<Entry>, r: Record, wanted: Path -> bool)
    requires AllFit(entries) && RecordFits(r, |entries|)
    requires forall i {:trigger entries[i]} :: 0 <= i < |entries| ==> NodeSize(entries[i].node) + 4 < MAX_RECORD_SIZE
    ensures AllFit(Apply(entries, r, wanted))
  {
    hide NodeSize;
  }

  /** The file was written with these records. */
  ghost predicate Written(file: seq<byte>, rs: seq<Record>) {
    RecordsOk(rs) && file == Header() + EncodeAll(rs)
  }

  /** Reading the file gives the same time and dependencies for every output as the entries. */
  ghost predicate Answers(file: seq<byte>, wanted: Path -> bool, entries: seq<Entry>) {
    && ReadFile(file, wanted).Complete?
    && forall p {:trigger Lookup(entries, p)} :: Lookup(ReadFile(file, wanted).entries, p) == Lookup(entries, p)
  }

  /** `depsinit`: a log is read, and written anew when it is missing, bad, or has many more records
      than entries. Reading the log that is there afterwards gives the dependencies of the entries
      in memory, which for a log that was written are those of its records. It gives up exactly if the
      log is to be written anew and something in it is too large for that. */
  method Init(present: bool, file: seq<byte>, wanted: Path -> bool) returns (fatal: bool, entries: seq<Entry>,
      file': seq<byte>)
    ensures entries == if present then ReadFile(file, wanted).entries else []
    ensures var r := ReadFile(file, wanted);
      var keep := present && r.Complete? && (r.nrecord <= 1000 || r.nrecord < 3 * |r.entries|);
      && (fatal <==> !keep && !AllFit(entries))
      && (!fatal ==> if keep then file' == file else Compacted(file', entries))
    ensures !fatal ==> Answers(file', wanted, entries)
    ensures forall rs {:trigger Written(file, rs)} :: present && Written(file, rs) ==>
              !fatal && entries == Replayed(rs, wanted) && Answers(file', wanted, Replayed(rs, wanted))
  {
    hide ReadAll, Lookup, Header, EncodeAll, AllFit, EntriesOk, Says, RecordsOk, Log.Valid, Replayed, Compacted;
    entries := [];
    var keep := false;
    if present && Header() <= file {
      assert file[16..] == file[16..|file|];
      var r := Replay(file[16..], wanted);
      entries := r.entries;
      keep := Keeps(r);
    }
    ReadFacts(present, file, wanted, entries);
    forall rs | present && Written(file, rs) ensures AllFit(entries) && entries == Replayed(rs, wanted) {
      WrittenFacts(file, rs, wanted);
    }
    if keep {
      return false, entries, file;
    }
    var log;
    fatal, log := Rewrite(entries, wanted);
    file' := [];
    if !fatal {
      file' := log.bytes;
      ReadsBack(log, wanted);
      SaysAnswers(log, wanted, entries);
      RewrittenFile(log, entries);
    }
  }

  /** The compaction of a log that was written: it never fails, and reading what it writes gives the
      same time and dependencies for every output as the log, and as its records. */
  method Compact(file: seq<byte>, ghost rs: seq<Record>, wanted: Path -> bool) returns (file': seq<byte>)
    requires Written(file, rs)
    ensures Answers(file', wanted, ReadFile(file, wanted).entries) && Answers(file', wanted, Replayed(rs, wanted))
  {
    hide ReadAll, Lookup, Header, EncodeAll, AllFit, EntriesOk, Says, RecordsOk, Log.Valid, Replayed;
    WrittenFacts(file, rs, wanted);
    assert file[16..] == file[16..|file|];
    var r := Replay(file[16..], wanted);
    ReadFacts(true, file, wanted, r.entries);
    var fatal, log := Rewrite(r.entries, wanted);
    ReadsBack(log, wanted);
    SaysAnswers(log, wanted, r.entries);
    file' := log.bytes;
  }

  lemma ReadFacts(present: bool, file: seq<byte>, wanted: Path -> bool, entries: seq<Entry>)
    requires entries == if present then ReadFile(file, wanted).entries else []
    ensures EntriesOk(entries, wanted) && |Mentioned(entries)| <= INT32_MAX
  {
    hide ReadAll, Header, Mentioned;
    if present && Header() <= file {
      ReadGivesOk(file[16..], wanted, [], 0);
      ReadGivesClosed(file[16..], wanted, [], 0);
    }
    NeverTooMany(entries);
  }

  lemma WrittenFacts(file: seq<byte>, rs: seq<Record>, wanted: Path -> bool)
    requires Written(file, rs)
    ensures ReadFile(file, wanted) == Complete(Replayed(rs, wanted), |rs|) && AllFit(Replayed(rs, wanted))
  {
    hide Header, EncodeAll, ReadFile, AllFit;
    WrittenFile(rs, wanted);
    ReplayedFits(rs, wanted);
  }

  lemma SaysAnswers(log: Log, wanted: Path -> bool, entries: seq<Entry>)
    requires ReadFile(log.bytes, wanted) == Complete(Replayed(log.records, wanted), |log.records|)
    requires Says(log.records, wanted, entries)
    ensures Answers(log.bytes, wanted, entries)
  {
    hide ReadFile, Lookup, Replayed;
  }

  lemma WrittenFile(rs: seq<Record>, wanted: Path -> bool)
    requires RecordsOk(rs)
    ensures ReadFile(Header() + EncodeAll(rs), wanted) == Complete(Replayed(rs, wanted), |rs|)
  {
    hide Header, EncodeAll, ReadAll;
    WrittenLogReads(rs, [], wanted);
    assert (Header() + EncodeAll(rs))[16..] == EncodeAll(rs) + [];
  }
}
