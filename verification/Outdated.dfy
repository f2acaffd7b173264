/** What the dirty check of samu (isdirty in build.c) says about files, and what the recording of a
    finished edge (edgedone and shouldprune) comes to in the next build. */
module Outdated {
  import opened Wrappers
  import opened BuildGraph
  import opened Planning

  /** No existing input of `e` that is not order-only is newer than `time`. */
  ghost predicate NoneNewer(g: Graph, e: nat, time: int)
    requires g.WellFormed() && g.IsEdge(e)
  {
    assert g.EdgeOk(e);
    forall j: nat :: j < g.edges[e].inorder && g.nodes[g.edges[e].ins[j]].mtime != -2 ==>
      g.nodes[g.edges[e].ins[j]].mtime <= time
  }

  /** Comparing with the newest input is comparing with all of them. */
  lemma NewestDecides(g: Graph, e: nat, time: int)
    requires g.WellFormed() && g.IsEdge(e) && g.EdgeOk(e)
    ensures var newest := Newest(g, e, g.edges[e].inorder);
      && (NoneNewer(g, e, time) <==> newest.Some? ==> newest.value <= time)
      && (newest.Some? ==> newest.value != -2)
  {
    NewestIsMax(g, e, g.edges[e].inorder);
  }

  /** An output of an edge with a command is up to date exactly if it exists; no input is newer, unless
      the edge is `restat` and the output has a record; it has a record, or the edge is a generator; no
      input is newer than the record; and the command is the recorded one, or the edge is a generator. */
  lemma UpToDateMeans(g: Graph, e: nat, n: nat)
    requires g.WellFormed() && g.IsEdge(e) && g.IsNode(n) && !g.edges[e].phony
    ensures g.EdgeOk(e)
    ensures var edge, node := g.edges[e], g.nodes[n];
      !IsDirty(g, n, e, Newest(g, e, edge.inorder)) <==>
        && node.mtime != -2
        && (NoneNewer(g, e, node.mtime) || (edge.restat && node.logmtime != -2))
        && (node.logmtime != -2 || edge.generator)
        && (node.logmtime != -2 ==> NoneNewer(g, e, node.logmtime))
        && (node.sameHash || edge.generator)
  {
    assert g.EdgeOk(e);
    hide Newest;
    NewestDecides(g, e, g.nodes[n].mtime);
    NewestDecides(g, e, g.nodes[n].logmtime);
  }

  /** An output of a phony edge is out of date exactly if it does not exist and the edge has no inputs. */
  lemma PhonyMeans(g: Graph, e: nat, n: nat)
    requires g.WellFormed() && g.IsEdge(e) && g.IsNode(n) && g.edges[e].phony
    ensures g.EdgeOk(e)
    ensures IsDirty(g, n, e, Newest(g, e, g.edges[e].inorder)) <==> g.nodes[n].mtime == -2 && g.edges[e].ins == []
  {
    assert g.EdgeOk(e);
  }

  // ---------------------------------------------------------------------------------------
  // Recording
  // ---------------------------------------------------------------------------------------

  /** The files as the file system has them: `now` gives the mtime of every node. */
  function Stat(g: Graph, now: seq<int>): (g': Graph)
    requires |now| == |g.nodes|
    ensures |g'.nodes| == |g.nodes| && g'.edges == g.edges && g'.depth == g.depth && g'.stale == g.stale
    ensures forall n: nat {:trigger g'.nodes[n]} :: n < |g.nodes| ==> g'.nodes[n] == g.nodes[n].(mtime := now[n])
  {
    g.(nodes := seq(|g.nodes|, n requires 0 <= n < |g.nodes| => g.nodes[n].(mtime := now[n])))
  }

  lemma StatWellFormed(g: Graph, now: seq<int>)
    requires g.WellFormed() && |now| == |g.nodes|
    ensures Stat(g, now).WellFormed()
  {
    SameShape(g, Stat(g, now));
  }

  /** Only times and records differ. */
  ghost predicate SameFiles(g: Graph, g': Graph) {
    && |g'.nodes| == |g.nodes| && g'.edges == g.edges && g'.depth == g.depth && g'.stale == g.stale
    && forall n: nat {:trigger g'.nodes[n]} :: n < |g.nodes| ==>
         g'.nodes[n].gen == g.nodes[n].gen && g'.nodes[n].uses == g.nodes[n].uses
  }

  lemma SameShape(g: Graph, g': Graph)
    requires g.WellFormed() && SameFiles(g, g')
    ensures g'.WellFormed()
  {
    forall e: nat | g'.IsEdge(e) ensures g'.EdgeOk(e) {
      assert g.EdgeOk(e);
    }
    forall n: nat | g'.IsNode(n) ensures g'.NodeOk(n) {
      assert g.NodeOk(n);
      forall k | 0 <= k < |g'.nodes[n].uses| ensures g'.UseOk(n, g'.nodes[n].uses[k]) {
        assert g.UseOk(n, g.nodes[n].uses[k]);
      }
    }
  }

  /** The record an output gets: its mtime, or zero if it is missing; for an output that the run of a
      `restat` edge left as it was, the mtime of the newest input. */
  function RecordedTime(before: int, now: int, restat: bool, newest: Option<int>): int {
    if restat && before == now && newest.Some? then newest.value
    else if now == MTIME_MISSING then 0 else now
  }

  /** The graph that the next build finds after edge `e` has run: outputs of `e` are recorded, with the
      command that made them. */
  function Recorded(g: Graph, e: nat, now: seq<int>): (g': Graph)
    requires g.WellFormed() && g.IsEdge(e) && |now| == |g.nodes|
    requires Stat(g, now).WellFormed()
    ensures SameFiles(g, g')
  {
    assert Stat(g, now).EdgeOk(e);
    var newest := Newest(Stat(g, now), e, g.edges[e].inorder);
    g.(nodes := seq(|g.nodes|, n requires 0 <= n < |g.nodes| =>
      if g.nodes[n].gen == Some(e) then
        g.nodes[n].(mtime := now[n], sameHash := true,
          logmtime := RecordedTime(g.nodes[n].mtime, now[n], g.edges[e].restat, newest))
      else g.nodes[n].(mtime := now[n])))
  }

  /** What the search for the newest input sees are only the times. */
  lemma {:induction false} NewestSame(g: Graph, g': Graph, e: nat, i: nat)
    requires g.WellFormed() && g'.WellFormed() && SameFiles(g, g') && g.IsEdge(e) && i <= g.edges[e].inorder
    requires forall n: nat {:trigger g'.nodes[n]} :: n < |g.nodes| ==> g'.nodes[n].mtime == g.nodes[n].mtime
    ensures g.EdgeOk(e) && Newest(g', e, i) == Newest(g, e, i)
  {
    assert g.EdgeOk(e) && g'.EdgeOk(e);
    if i > 0 {
      NewestSame(g, g', e, i - 1);
    }
  }

  /** An output that was just recorded is clean in the next build exactly if it exists, and either no
      input is newer or the run of a `restat` edge left it as it was. */
  lemma RecordedIsClean(g: Graph, e: nat, now: seq<int>, n: nat)
    requires g.WellFormed() && g.IsEdge(e) && !g.edges[e].phony && |now| == |g.nodes|
    requires g.IsNode(n) && g.nodes[n].gen == Some(e)
    ensures Stat(g, now).WellFormed() && Recorded(g, e, now).WellFormed() && g.EdgeOk(e)
    ensures var g' := Recorded(g, e, now);
      !IsDirty(g', n, e, Newest(g', e, g.edges[e].inorder)) <==>
        && now[n] != -2
        && ((g.edges[e].restat && now[n] == g.nodes[n].mtime) || NoneNewer(g', e, now[n]))
  {
    StatWellFormed(g, now);
    assert g.EdgeOk(e);
    var g1, g' := Stat(g, now), Recorded(g, e, now);
    SameShape(g, g');
    NewestSame(g1, g', e, g.edges[e].inorder);
    assert g'.EdgeOk(e);
    hide Newest, NoneNewer;
    UpToDateMeans(g', e, n);
    var time := g'.nodes[n].logmtime;
    NewestDecides(g', e, time);
    NewestDecides(g', e, now[n]);
  }

  /** When all outputs of a finished edge exist and none of its inputs is newer, the next build finds
      none of them out of date. */
  lemma DoneStaysDone(g: Graph, e: nat, now: seq<int>)
    requires g.WellFormed() && g.IsEdge(e) && !g.edges[e].phony && |now| == |g.nodes| && e !in g.stale
    ensures Stat(g, now).WellFormed() && Recorded(g, e, now).WellFormed() && g.EdgeOk(e)
    ensures var g' := Recorded(g, e, now);
      !OutDirty(g', e) <==> forall k :: 0 <= k < |g.edges[e].outs| ==>
        var n := g.edges[e].outs[k];
        && now[n] != -2
        && ((g.edges[e].restat && now[n] == g.nodes[n].mtime) || NoneNewer(g', e, now[n]))
  {
    StatWellFormed(g, now);
    assert g.EdgeOk(e);
    SameShape(g, Recorded(g, e, now));
    hide Recorded, IsDirty, Newest, NoneNewer;
    assert Recorded(g, e, now).EdgeOk(e);
    forall k | 0 <= k < |g.edges[e].outs| {
      RecordedIsClean(g, e, now, g.edges[e].outs[k]);
    }
  }
}
