/** How the build graph grows (graph.c and parse.c): each step keeps the shape that the scheduler
    counts on. */
module GraphSteps {
  import opened Wrappers
  import opened BuildGraph

  /** A node that is made for a new path. */
  function WithNode(g: Graph, mtime: int, logmtime: int, sameHash: bool): Graph {
    g.(nodes := g.nodes + [Node(None, [], mtime, logmtime, sameHash)])
  }

  /** An edge that has no inputs and outputs as yet. */
  function WithEdge(g: Graph, edge: Edge): Graph {
    g.(edges := g.edges + [edge])
  }

  /** Edge `e` produces node `n`. */
  function WithOutput(g: Graph, e: nat, n: nat): Graph
    requires g.IsEdge(e) && g.IsNode(n)
  {
    g.(edges := g.edges[e := g.edges[e].(outs := g.edges[e].outs + [n])],
      nodes := g.nodes[n := g.nodes[n].(gen := Some(e))])
  }

  /** The entries for the inputs of edge `e` from position `at` on move up by one. */
  function Moved(u: Use, e: nat, at: nat): (r: Use)
    ensures r.edge == u.edge
  {
    if u.edge == e && u.pos >= at then Use(e, u.pos + 1) else u
  }

  function MovedAll(uses: seq<Use>, e: nat, at: nat): (r: seq<Use>)
    ensures |r| == |uses|
  {
    seq(|uses|, i requires 0 <= i < |uses| => Moved(uses[i], e, at))
  }

  /** The use arrays after node `n` became input `at` of edge `e`. */
  function UsesWith(nodes: seq<Node>, e: nat, at: nat, n: nat): (r: seq<Node>)
    ensures |r| == |nodes|
  {
    seq(|nodes|, m requires 0 <= m < |nodes| =>
      nodes[m].(uses := MovedAll(nodes[m].uses, e, at) + if m == n then [Use(e, at)] else []))
  }

  /** Node `n` becomes input `at` of edge `e`. */
  function WithInput(g: Graph, e: nat, at: nat, n: nat): Graph
    requires g.IsEdge(e) && at <= |g.edges[e].ins|
  {
    var edge := g.edges[e];
    g.(edges := g.edges[e := edge.(ins := edge.ins[..at] + [n] + edge.ins[at..])], nodes := UsesWith(g.nodes, e, at, n))
  }

  function WithInorder(g: Graph, e: nat, k: nat): Graph
    requires g.IsEdge(e)
  {
    g.(edges := g.edges[e := g.edges[e].(inorder := k)])
  }

  lemma NodeKeeps(g: Graph, mtime: int, logmtime: int, sameHash: bool)
    requires g.WellFormed()
    ensures WithNode(g, mtime, logmtime, sameHash).WellFormed()
  {
    var g' := WithNode(g, mtime, logmtime, sameHash);
    forall e: nat | g'.IsEdge(e) ensures g'.EdgeOk(e) {
      assert g.EdgeOk(e);
    }
    forall n: nat | g'.IsNode(n) ensures g'.NodeOk(n) {
      if g.IsNode(n) {
        assert g.NodeOk(n);
        UsesKept(g, g', n);
      }
    }
  }

  /** Uses of edges that keep their inputs. */
  lemma UsesKept(g: Graph, g': Graph, n: nat)
    requires g.IsNode(n) && g.NodeOk(n) && g'.IsNode(n) && g'.nodes[n].uses == g.nodes[n].uses
    requires |g.edges| <= |g'.edges| && forall e: nat {:trigger g'.edges[e]} :: g.IsEdge(e) ==>
      g'.edges[e].ins == g.edges[e].ins
    ensures forall k :: 0 <= k < |g'.nodes[n].uses| ==> g'.UseOk(n, g'.nodes[n].uses[k])
  {
    forall k | 0 <= k < |g'.nodes[n].uses| ensures g'.UseOk(n, g'.nodes[n].uses[k]) {
      assert g.UseOk(n, g.nodes[n].uses[k]);
      assert g'.edges[g.nodes[n].uses[k].edge].ins == g.edges[g.nodes[n].uses[k].edge].ins;
    }
  }

  lemma EdgeKeeps(g: Graph, edge: Edge)
    requires g.WellFormed() && edge.outs == edge.ins == [] && edge.inorder == 0
    requires edge.pool.Some? ==> edge.pool.value < |g.depth|
    ensures WithEdge(g, edge).WellFormed()
  {
    var g' := WithEdge(g, edge);
    forall e: nat | g'.IsEdge(e) ensures g'.EdgeOk(e) {
      if g.IsEdge(e) {
        assert g.EdgeOk(e);
      }
    }
    forall n: nat | g'.IsNode(n) ensures g'.NodeOk(n) {
      assert g.NodeOk(n);
      UsesKept(g, g', n);
    }
  }

  lemma OutputKeeps(g: Graph, e: nat, n: nat)
    requires g.WellFormed() && g.IsEdge(e) && g.IsNode(n) && g.nodes[n].gen.None?
    ensures WithOutput(g, e, n).WellFormed()
  {
    var g' := WithOutput(g, e, n);
    forall f: nat | g'.IsEdge(f) ensures g'.EdgeOk(f) {
      assert g.EdgeOk(f);
      forall k | 0 <= k < |g'.edges[f].outs| ensures g'.IsNode(g'.edges[f].outs[k])
        && g'.nodes[g'.edges[f].outs[k]].gen == Some(f) {
        if k < |g.edges[f].outs| {
          assert g.nodes[g.edges[f].outs[k]].gen == Some(f);
        }
      }
    }
    forall m: nat | g'.IsNode(m) ensures g'.NodeOk(m) {
      assert g.NodeOk(m);
      UsesKept(g, g', m);
      if m == n {
        assert g'.edges[e].outs[|g.edges[e].outs|] == n;
      }
    }
  }

  lemma InorderKeeps(g: Graph, e: nat, k: nat)
    requires g.WellFormed() && g.IsEdge(e) && k <= |g.edges[e].ins|
    ensures WithInorder(g, e, k).WellFormed()
  {
    var g' := WithInorder(g, e, k);
    forall f: nat | g'.IsEdge(f) ensures g'.EdgeOk(f) {
      assert g.EdgeOk(f);
    }
    forall n: nat | g'.IsNode(n) ensures g'.NodeOk(n) {
      assert g.NodeOk(n);
      UsesKept(g, g', n);
    }
  }

  /** An input may come in anywhere: every input position is still recorded exactly once. */
  lemma InputKeeps(g: Graph, e: nat, at: nat, n: nat)
    requires g.WellFormed() && g.IsEdge(e) && at <= |g.edges[e].ins| && g.IsNode(n)
    ensures WithInput(g, e, at, n).WellFormed()
  {
    var g' := WithInput(g, e, at, n);
    forall f: nat | g'.IsEdge(f) ensures g'.EdgeOk(f) {
      InputEdge(g, e, at, n, f);
    }
    forall m: nat | g'.IsNode(m) ensures g'.NodeOk(m) {
      InputNode(g, e, at, n, m);
    }
  }

  lemma KeptUse(g: Graph, e: nat, at: nat, n: nat, m: nat, u: Use)
    requires g.IsEdge(e) && at <= |g.edges[e].ins| && g.IsNode(m) && u in g.nodes[m].uses
    ensures Moved(u, e, at) in WithInput(g, e, at, n).nodes[m].uses
  {
    var k :| 0 <= k < |g.nodes[m].uses| && g.nodes[m].uses[k] == u;
    assert WithInput(g, e, at, n).nodes[m].uses[k] == Moved(u, e, at);
  }

  lemma InputEdge(g: Graph, e: nat, at: nat, n: nat, f: nat)
    requires g.WellFormed() && g.IsEdge(e) && at <= |g.edges[e].ins| && g.IsNode(n) && g.IsEdge(f)
    ensures WithInput(g, e, at, n).EdgeOk(f)
  {
    var g' := WithInput(g, e, at, n);
    assert g.EdgeOk(f);
    forall j | 0 <= j < |g'.edges[f].ins|
      ensures g'.IsNode(g'.edges[f].ins[j]) && Use(f, j) in g'.nodes[g'.edges[f].ins[j]].uses
    {
      if f == e && j == at {
        var uses := g'.nodes[n].uses;
        assert uses[|uses| - 1] == Use(e, at);
      } else {
        var j' := if f == e && j > at then j - 1 else j;
        var m := g.edges[f].ins[j'];
        assert g'.edges[f].ins[j] == m;
        KeptUse(g, e, at, n, m, Use(f, j'));
        assert Moved(Use(f, j'), e, at) == Use(f, j);
      }
    }
  }

  lemma InputNode(g: Graph, e: nat, at: nat, n: nat, m: nat)
    requires g.WellFormed() && g.IsEdge(e) && at <= |g.edges[e].ins| && g.IsNode(n) && g.IsNode(m)
    ensures WithInput(g, e, at, n).NodeOk(m)
  {
    var g' := WithInput(g, e, at, n);
    assert g.NodeOk(m);
    var uses, uses' := g.nodes[m].uses, g'.nodes[m].uses;
    forall k | 0 <= k < |uses'| ensures g'.UseOk(m, uses'[k]) {
      if k < |uses| {
        assert g.UseOk(m, uses[k]);
      }
    }
    forall k, l | 0 <= k < l < |uses'| ensures uses'[k] != uses'[l] {
      if l < |uses| {
        assert uses[k] != uses[l];
      }
    }
  }

  // ---------------------------------------------------------------------------------------
  // Recorded dependencies
  // ---------------------------------------------------------------------------------------

  /** The edge that stands in for the producer of a dependency that has none (mkphony). */
  function PhonyEdge(n: nat): Edge { Edge([n], [], 0, true, None, false, false) }

  function WithPhony(g: Graph, n: nat): Graph
    requires g.IsNode(n)
  {
    g.(edges := g.edges + [PhonyEdge(n)], nodes := g.nodes[n := g.nodes[n].(gen := Some(|g.edges|))])
  }

  lemma PhonyKeeps(g: Graph, n: nat)
    requires g.WellFormed() && g.IsNode(n) && g.nodes[n].gen.None?
    ensures WithPhony(g, n).WellFormed()
  {
    var bare := Edge([], [], 0, true, None, false, false);
    EdgeKeeps(g, bare);
    var g1 := WithEdge(g, bare);
    OutputKeeps(g1, |g.edges|, n);
    assert bare.(outs := bare.outs + [n]) == PhonyEdge(n);
    assert WithOutput(g1, |g.edges|, n).edges == WithPhony(g, n).edges;
  }

  /** Dependency `n` as input `at` of edge `e`. */
  function WithDep(g: Graph, e: nat, at: nat, n: nat): (r: Graph)
    requires g.IsEdge(e) && at <= |g.edges[e].ins| && g.IsNode(n)
  {
    WithInput(if g.nodes[n].gen.None? then WithPhony(g, n) else g, e, at, n)
  }

  lemma DepKeeps(g: Graph, e: nat, at: nat, n: nat)
    requires g.WellFormed() && g.IsEdge(e) && at <= |g.edges[e].ins| && g.IsNode(n)
    ensures WithDep(g, e, at, n).WellFormed()
  {
    var g1 := g;
    if g.nodes[n].gen.None? {
      PhonyKeeps(g, n);
      g1 := WithPhony(g, n);
    }
    InputKeeps(g1, e, at, n);
  }
}
