/** The build graph that samu schedules over (graph.h): nodes are files, edges are build
    statements. Nodes, edges and pools are named by their index. */
module BuildGraph {
  import opened Wrappers

  /** One build statement. `inorder` is the index of the first order-only input. */
  datatype Edge = Edge(
    outs: seq<nat>, ins: seq<nat>, inorder: nat,
    phony: bool, pool: Option<nat>, generator: bool, restat: bool)

  /** One entry of a node's use array. The program stores only the edge; `pos` says which
      input position of that edge the entry was recorded for. */
  datatype Use = Use(edge: nat, pos: nat)

  /** One file. `mtime` is what the file system reports, `logmtime` what the build log
      recorded and `sameHash` whether the logged command hash is the current one. */
  datatype Node = Node(gen: Option<nat>, uses: seq<Use>, mtime: int, logmtime: int, sameHash: bool)

  /** `depth` gives the depth of every pool. `stale` marks the edges whose recorded
      dependencies are missing or outdated. */
  datatype Graph = Graph(nodes: seq<Node>, edges: seq<Edge>, depth: seq<nat>, stale: set<nat>)
  {
    predicate IsEdge(e: nat) { e < |edges| }

    predicate IsNode(n: nat) { n < |nodes| }

    /** The edge that produces input `j` of edge `e`, if there is one. */
    function Producer(e: nat, j: nat): (f: Option<nat>)
      requires WellFormed() && IsEdge(e) && j < |edges[e].ins|
      ensures f.Some? ==> IsEdge(f.value)
    {
      assert EdgeOk(e);
      assert NodeOk(edges[e].ins[j]);
      nodes[edges[e].ins[j]].gen
    }

    ghost predicate EdgeOk(e: nat)
      requires IsEdge(e)
    {
      var edge := edges[e];
      && edge.inorder <= |edge.ins|
      && (forall j :: 0 <= j < |edge.ins| ==> IsNode(edge.ins[j]) && Use(e, j) in nodes[edge.ins[j]].uses)
      && (forall k :: 0 <= k < |edge.outs| ==> IsNode(edge.outs[k]) && nodes[edge.outs[k]].gen == Some(e))
      && (forall k, l :: 0 <= k < l < |edge.outs| ==> edge.outs[k] != edge.outs[l])
      && (edge.pool.Some? ==> edge.pool.value < |depth|)
    }

    ghost predicate NodeOk(n: nat)
      requires IsNode(n)
    {
      var node := nodes[n];
      && (node.gen.Some? ==> IsEdge(node.gen.value) && n in edges[node.gen.value].outs)
      && (forall k :: 0 <= k < |node.uses| ==> UseOk(n, node.uses[k]))
      && (forall k, l :: 0 <= k < l < |node.uses| ==> node.uses[k] != node.uses[l])
    }

    ghost predicate UseOk(n: nat, u: Use) {
      IsEdge(u.edge) && u.pos < |edges[u.edge].ins| && edges[u.edge].ins[u.pos] == n
    }

    /** What the parser leaves behind: every input position is recorded exactly once in the
        use array of its node, outputs have one producer, and pools have a positive depth. */
    ghost predicate WellFormed() {
      && (forall e: nat {:trigger EdgeOk(e)} :: IsEdge(e) ==> EdgeOk(e))
      && (forall n: nat {:trigger NodeOk(n)} :: IsNode(n) ==> NodeOk(n))
      && |depth| > CONSOLE && depth[CONSOLE] == 1
      && (forall p :: 0 <= p < |depth| ==> depth[p] > 0)
    }
  }

  /** The modification time of a file that does not exist. */
  const MTIME_MISSING := -2

  /** The index of the predefined console pool, whose depth is one. */
  const CONSOLE: nat := 0
}
