/** The build graph while the manifest is parsed and recorded dependencies are loaded (parseedge in
    parse.c, edgeadddeps in graph.c). Whatever is added, it keeps the shape that planning and
    building require. */
module GraphStore {
  import opened Wrappers
  import opened BuildGraph
  import opened GraphSteps

  /** The outputs that no other edge has: a path that already has a producer, maybe because it
      was named before in the same list, is left out. */
  function NewOuts(nodes: seq<Node>, outs: seq<nat>): (r: seq<nat>)
    requires forall i :: 0 <= i < |outs| ==> outs[i] < |nodes|
  {
    if outs == [] then []
    else
      var front, n := NewOuts(nodes, outs[..|outs| - 1]), outs[|outs| - 1];
      if nodes[n].gen.Some? || n in front then front else front + [n]
  }

  /** The new outputs of a list are its elements without a producer, each once. */
  lemma {:induction false} NewOutsAre(nodes: seq<Node>, outs: seq<nat>)
    requires forall i :: 0 <= i < |outs| ==> outs[i] < |nodes|
    ensures forall n {:trigger n in NewOuts(nodes, outs)} :: n in NewOuts(nodes, outs) <==>
      n in outs && nodes[n].gen.None?
    ensures forall i, j :: 0 <= i < j < |NewOuts(nodes, outs)| ==> NewOuts(nodes, outs)[i] != NewOuts(nodes, outs)[j]
    ensures |NewOuts(nodes, outs)| <= |outs|
    ensures NewOuts(nodes, outs) == outs <==>
      (forall i :: 0 <= i < |outs| ==> nodes[outs[i]].gen.None?) && forall i, j :: 0 <= i < j < |outs| ==>
        outs[i] != outs[j]
  {
    if outs != [] {
      var front, n := outs[..|outs| - 1], outs[|outs| - 1];
      assert outs == front + [n];
      NewOutsAre(nodes, front);
      hide NewOuts;
      OneMoreOut(nodes, front, n);
      AllNew(nodes, front, n);
    }
  }

  lemma OneMoreOut(nodes: seq<Node>, front: seq<nat>, n: nat)
    requires n < |nodes| && forall i :: 0 <= i < |front| ==> front[i] < |nodes|
    ensures var taken := NewOuts(nodes, front);
      NewOuts(nodes, front + [n]) == if nodes[n].gen.Some? || n in taken then taken else taken + [n]
  {
    assert (front + [n])[..|front|] == front;
  }

  /** The whole list is new exactly if its front is, and its last element is new and not in the front. */
  lemma AllNew(nodes: seq<Node>, front: seq<nat>, n: nat)
    requires n < |nodes| && forall i :: 0 <= i < |front| ==> front[i] < |nodes|
    requires |NewOuts(nodes, front)| <= |front|
    requires forall m {:trigger m in NewOuts(nodes, front)} :: m in NewOuts(nodes, front) <==>
      m in front && nodes[m].gen.None?
    ensures NewOuts(nodes, front + [n]) == front + [n] <==>
      NewOuts(nodes, front) == front && nodes[n].gen.None? && n !in front
  {
    hide NewOuts;
    OneMoreOut(nodes, front, n);
    var taken, all := NewOuts(nodes, front), NewOuts(nodes, front + [n]);
    if all == front + [n] {
      assert |all| == |front| + 1;
      assert all[..|front|] == front;
    }
  }

  /** Every path has one node, and every node is found by its path. */
  ghost predicate NamesMatch(paths: seq<string>, names: map<string, nat>) {
    && (forall n {:trigger paths[n]} :: 0 <= n < |paths| ==> paths[n] in names && names[paths[n]] == n)
    && (forall path {:trigger path in names} :: path in names ==> names[path] < |paths| && paths[names[path]] == path)
  }

  class Store {
    var nodes: seq<Node>
    var edges: seq<Edge>
    /** The path of every node, and the table of all nodes by their paths. */
    var paths: seq<string>
    var names: map<string, nat>
    const depth: seq<nat>
    const stale: set<nat>

    function G(): Graph
      reads this
    {
      Graph(nodes, edges, depth, stale)
    }

    ghost predicate Valid()
      reads this
    {
      G().WellFormed() && |paths| == |nodes| && NamesMatch(paths, names)
    }

    constructor (depth: seq<nat>, stale: set<nat>)
      requires |depth| > CONSOLE && depth[CONSOLE] == 1 && forall p :: 0 <= p < |depth| ==> depth[p] > 0
      ensures Valid() && nodes == [] && edges == [] && names == map[] && this.depth == depth
    {
      this.nodes, this.edges, this.paths, this.names := [], [], [], map[];
      this.depth, this.stale := depth, stale;
    }

    /** `mknode`: the node of a path, which is made if there is none yet. */
    method MakeNode(path: string, mtime: int, logmtime: int, sameHash: bool) returns (n: nat)
      requires Valid()
      modifies `nodes, `paths, `names
      ensures Valid() && n < |nodes| && paths[n] == path && names == old(names)[path := n]
      ensures path in old(names) ==> n == old(names)[path] && nodes == old(nodes) && paths == old(paths)
      ensures path !in old(names) ==> n == |old(nodes)| && paths == old(paths) + [path]
      ensures path !in old(names) ==> nodes == old(nodes) + [Node(None, [], mtime, logmtime, sameHash)]
    {
      if path in names {
        return names[path];
      }
      NodeKeeps(G(), mtime, logmtime, sameHash);
      n := |nodes|;
      nodes := nodes + [Node(None, [], mtime, logmtime, sameHash)];
      paths := paths + [path];
      names := names[path := n];
    }

    /** `nodeuse`: the edge is recorded with the node. The positions of the inputs that come later
        move up by one; the program does not store positions. */
    method NodeUse(n: nat, e: nat, at: nat)
      requires n < |nodes|
      modifies `nodes
      ensures nodes == UsesWith(old(nodes), e, at, n)
    {
      nodes := UsesWith(nodes, e, at, n);
    }

    /** Edge `e` produces node `n`, which nothing produces so far. */
    method TakeOutput(e: nat, n: nat)
      requires Valid() && e < |edges| && n < |nodes| && nodes[n].gen.None?
      modifies `nodes, `edges
      ensures Valid() && nodes == old(nodes)[n := old(nodes)[n].(gen := Some(e))]
      ensures edges == old(edges)[e := old(edges)[e].(outs := old(edges)[e].outs + [n])]
    {
      OutputKeeps(G(), e, n);
      nodes := nodes[n := nodes[n].(gen := Some(e))];
      edges := edges[e := edges[e].(outs := edges[e].outs + [n])];
    }

    /** Edge `e` uses node `n` as its last input. */
    method TakeInput(e: nat, n: nat)
      requires Valid() && e < |edges| && n < |nodes|
      modifies `nodes, `edges
      ensures Valid() && nodes == UsesWith(old(nodes), e, |old(edges)[e].ins|, n)
      ensures edges == old(edges)[e := old(edges)[e].(ins := old(edges)[e].ins + [n])]
    {
      var ins := edges[e].ins;
      InputKeeps(G(), e, |ins|, n);
      NodeUse(n, e, |ins|);
      edges := edges[e := edges[e].(ins := ins + [n])];
      assert ins[..|ins|] + [n] + ins[|ins|..] == ins + [n];
    }

    /** `parseedge`: a build statement. It is refused if an output already has a producer, unless
        that is only to be warned of. */
    method AddStatement(outs: seq<nat>, ins: seq<nat>, edge: Edge, warn: bool) returns (ok: bool)
      requires Valid() && edge.inorder <= |ins| && edge.outs == edge.ins == []
      requires edge.pool.Some? ==> edge.pool.value < |depth|
      requires (forall i :: 0 <= i < |outs| ==> outs[i] < |nodes|) && (forall i :: 0 <= i < |ins| ==> ins[i] < |nodes|)
      modifies `nodes, `edges
      ensures Valid() && |nodes| == |old(nodes)|
      ensures ok <==> warn || NewOuts(old(nodes), outs) == outs
      ensures ok ==> edges == old(edges) + [edge.(outs := NewOuts(old(nodes), outs), ins := ins)]
      ensures ok ==> Produced(old(nodes), nodes, NewOuts(old(nodes), outs), |old(edges)|)
    {
      hide Valid, Produced, NewOuts;
      ghost var before := nodes;
      var e := |edges|;
      OpenEdge(edge.(inorder := 0));
      ok := AddOutputs(e, outs, warn);
      if ok {
        ghost var produced := nodes;
        AddInputs(e, ins);
        ProducedStill(before, produced, nodes, NewOuts(before, outs), e);
        SetInorder(e, edge.inorder);
      }
    }

    method OpenEdge(edge: Edge)
      requires Valid() && edge.outs == edge.ins == [] && edge.inorder == 0
        && (edge.pool.Some? ==> edge.pool.value < |depth|)
      modifies `edges
      ensures Valid() && edges == old(edges) + [edge]
    {
      EdgeKeeps(G(), edge);
      edges := edges + [edge];
    }

    method SetInorder(e: nat, k: nat)
      requires Valid() && e < |edges| && k <= |edges[e].ins|
      modifies `edges
      ensures Valid() && edges == old(edges)[e := old(edges)[e].(inorder := k)]
    {
      InorderKeeps(G(), e, k);
      edges := edges[e := edges[e].(inorder := k)];
    }

    /** The loop over the outputs. */
    method AddOutputs(e: nat, outs: seq<nat>, warn: bool) returns (ok: bool)
      requires Valid() && e < |edges| && edges[e].outs == [] && forall i :: 0 <= i < |outs| ==> outs[i] < |nodes|
      modifies `nodes, `edges
      ensures Valid() && |nodes| == |old(nodes)|
      ensures ok <==> warn || NewOuts(old(nodes), outs) == outs
      ensures ok ==> edges == old(edges)[e := old(edges)[e].(outs := NewOuts(old(nodes), outs))]
      ensures ok ==> Produced(old(nodes), nodes, NewOuts(old(nodes), outs), e)
    {
      hide Valid, NewOuts;
      ghost var before := nodes;
      NoOuts(before);
      assert edges == edges[e := edges[e].(outs := [])];
      assert outs[..0] == [];
      var i := 0;
      while i < |outs|
        invariant i <= |outs| && Valid() && |nodes| == |before|
        invariant edges == old(edges)[e := old(edges)[e].(outs := NewOuts(before, outs[..i]))]
        invariant Produced(before, nodes, NewOuts(before, outs[..i]), e)
        invariant warn || NewOuts(before, outs[..i]) == outs[..i]
      {
        var n := outs[i];
        NextIs(before, outs, i);
        assert outs[..i + 1] == outs[..i] + [n];
        if nodes[n].gen.Some? {
          Refused(before, outs, i);
          if !warn {
            return false;
          }
        } else {
          TakeOutput(e, n);
        }
        i := i + 1;
      }
      assert outs[..|outs|] == outs;
      ok := true;
    }

    /** The loop over the inputs. */
    method AddInputs(e: nat, ins: seq<nat>)
      requires Valid() && e < |edges| && edges[e].ins == [] && forall i :: 0 <= i < |ins| ==> ins[i] < |nodes|
      modifies `nodes, `edges
      ensures Valid() && SameProducers(old(nodes), nodes)
      ensures edges == old(edges)[e := old(edges)[e].(ins := ins)]
    {
      hide Valid;
      assert edges == edges[e := edges[e].(ins := ins[..0])];
      var i := 0;
      while i < |ins|
        invariant i <= |ins| && Valid() && SameProducers(old(nodes), nodes)
        invariant edges == old(edges)[e := old(edges)[e].(ins := ins[..i])]
      {
        TakeInput(e, ins[i]);
        assert ins[..i] + [ins[i]] == ins[..i + 1];
        i := i + 1;
      }
      assert ins[..|ins|] == ins;
    }

    /** `edgeadddeps`: recorded dependencies become inputs before the order-only ones. A dependency
        that nothing produces gets a phony edge, so that it may be missing. */
    method AddDeps(e: nat, deps: seq<nat>)
      requires Valid() && e < |edges| && forall i :: 0 <= i < |deps| ==> deps[i] < |nodes|
      modifies `nodes, `edges
      ensures Valid()
      ensures old(edges)[e].inorder <= |old(edges)[e].ins|
      ensures var edge, k := old(edges)[e], old(edges)[e].inorder;
        edges == old(edges)[e := edge.(ins := edge.ins[..k] + deps + edge.ins[k..], inorder := k + |deps|)]
          + Phonies(NewOuts(old(nodes), deps))
      ensures |nodes| == |old(nodes)| && forall i :: 0 <= i < |deps| ==> nodes[deps[i]].gen.Some?
      ensures forall m {:trigger nodes[m]} :: 0 <= m < |nodes| && old(nodes)[m].gen.Some? ==>
        nodes[m].gen == old(nodes)[m].gen
    {
      hide Graph.WellFormed, NewOuts, With, WithDep, UsesWith, Filled, Phonies;
      ghost var g, before := G(), nodes;
      OrderOnly(g, e);
      var edge := edges[e];
      NoDeps(g, e, deps);
      var i := 0;
      while i < |deps|
        invariant i <= |deps| && e < |edges| && edge == edges[e] == old(edges)[e] && |nodes| == |before|
        invariant g.WellFormed() && g == Graph(nodes, edges[e := With(edge, deps[..i])], depth, stale)
        invariant edges == old(edges) + Phonies(NewOuts(before, deps[..i]))
        invariant Filled(before, nodes, NewOuts(before, deps[..i]))
      {
        var n := deps[i];
        DepStep(g, edges, e, deps, i);
        FillStep(before, nodes, deps, i, e, edge.inorder + i, |edges|);
        g := WithDep(g, e, edge.inorder + i, n);
        if nodes[n].gen.None? {
          nodes := nodes[n := nodes[n].(gen := Some(|edges|))];
          edges := edges + [PhonyEdge(n)];
        }
        NodeUse(n, e, edge.inorder + i);
        i := i + 1;
      }
      assert deps[..|deps|] == deps;
      AllDeps(g, e, edge, before, nodes, deps);
      edges := edges[e := edge.(ins := edge.ins[..edge.inorder] + deps + edge.ins[edge.inorder..],
        inorder := edge.inorder + |deps|)];
      WithAll(edge, deps);
      assert G().edges == WithInorder(g, e, edge.inorder + |deps|).edges;
    }
  }

  /** An edge with dependencies put before its order-only inputs. */
  function With(edge: Edge, deps: seq<nat>): Edge
    requires edge.inorder <= |edge.ins|
  {
    edge.(ins := edge.ins[..edge.inorder] + deps + edge.ins[edge.inorder..])
  }

  lemma WithAll(edge: Edge, deps: seq<nat>)
    requires edge.inorder <= |edge.ins|
    ensures With(edge, deps) == edge.(ins := edge.ins[..edge.inorder] + deps + edge.ins[edge.inorder..])
  {
  }

  lemma NoDeps(g: Graph, e: nat, deps: seq<nat>)
    requires g.IsEdge(e) && g.edges[e].inorder <= |g.edges[e].ins|
    ensures g.edges[e := With(g.edges[e], deps[..0])] == g.edges
    ensures g.edges == g.edges + Phonies(NewOuts(g.nodes, deps[..0]))
    ensures Filled(g.nodes, g.nodes, NewOuts(g.nodes, deps[..0]))
  {
    var edge := g.edges[e];
    assert edge.ins[..edge.inorder] + [] + edge.ins[edge.inorder..] == edge.ins;
  }

  /** One more dependency in the graph. */
  lemma DepStep(g: Graph, edges: seq<Edge>, e: nat, deps: seq<nat>, i: nat)
    requires g.WellFormed() && e < |edges| && edges[e].inorder <= |edges[e].ins| && i < |deps| && deps[i] < |g.nodes|
    requires g.edges == edges[e := With(edges[e], deps[..i])]
    ensures var n, at := deps[i], edges[e].inorder + i;
      && at <= |g.edges[e].ins| && WithDep(g, e, at, n).WellFormed()
      && var nodes, edges' := if g.nodes[n].gen.None? then g.nodes[n := g.nodes[n].(gen := Some(|edges|))] else g.nodes,
                              if g.nodes[n].gen.None? then edges + [PhonyEdge(n)] else edges;
      && edges'[e] == edges[e]
      && WithDep(g, e, at, n) == g.(nodes := UsesWith(nodes, e, at, n),
        edges := edges'[e := With(edges[e], deps[..i + 1])])
  {
    hide Graph.WellFormed, UsesWith;
    var n, at := deps[i], edges[e].inorder + i;
    DepKeeps(g, e, at, n);
    InsertOne(edges[e].ins, edges[e].inorder, deps, i);
    var edges' := if g.nodes[n].gen.None? then edges + [PhonyEdge(n)] else edges;
    assert WithDep(g, e, at, n).edges == edges'[e := With(edges[e], deps[..i + 1])];
  }

  /** One more dependency with a producer. */
  lemma FillStep(before: seq<Node>, nodes: seq<Node>, deps: seq<nat>, i: nat, e: nat, at: nat, f: nat)
    requires i < |deps| && forall k :: 0 <= k < |deps| ==> deps[k] < |before|
    requires Filled(before, nodes, NewOuts(before, deps[..i]))
    ensures var n := deps[i];
      && n < |nodes| == |before|
      && NewOuts(before, deps[..i + 1]) == NewOuts(before, deps[..i]) + (if nodes[n].gen.None? then [n] else [])
      && Phonies(NewOuts(before, deps[..i + 1])) ==
        Phonies(NewOuts(before, deps[..i])) + (if nodes[n].gen.None? then [PhonyEdge(n)] else [])
      && Filled(before, UsesWith(if nodes[n].gen.None? then nodes[n := nodes[n].(gen := Some(f))] else nodes, e, at, n),
                NewOuts(before, deps[..i + 1]))
  {
    hide NewOuts, Phonies, UsesWith, Filled;
    var n, outs := deps[i], NewOuts(before, deps[..i]);
    NextIs(before, deps, i);
    FilledAt(before, nodes, outs, n);
    PhoniesSnoc(outs, n);
    FilledMore(before, nodes, outs, n, e, at, f);
    assert Phonies(outs) + [] == Phonies(outs) && outs + [] == outs;
  }

  lemma FilledAt(before: seq<Node>, nodes: seq<Node>, outs: seq<nat>, n: nat)
    requires Filled(before, nodes, outs) && n < |before|
    ensures |nodes| == |before| && (nodes[n].gen.Some? <==> n in outs || before[n].gen.Some?)
  {
  }

  lemma FilledMore(before: seq<Node>, nodes: seq<Node>, outs: seq<nat>, n: nat, e: nat, at: nat, f: nat)
    requires Filled(before, nodes, outs) && n < |nodes|
    ensures if nodes[n].gen.None? then Filled(before, UsesWith(nodes[n := nodes[n].(gen := Some(f))], e, at, n),
      outs + [n])
            else Filled(before, UsesWith(nodes, e, at, n), outs)
  {
  }

  lemma AllDeps(g: Graph, e: nat, edge: Edge, before: seq<Node>, nodes: seq<Node>, deps: seq<nat>)
    requires g.WellFormed() && g.IsEdge(e) && edge.inorder <= |edge.ins| && g.edges[e] == With(edge, deps)
    requires (forall k :: 0 <= k < |deps| ==> deps[k] < |before|) && Filled(before, nodes, NewOuts(before, deps))
    ensures WithInorder(g, e, edge.inorder + |deps|).WellFormed()
    ensures |nodes| == |before| && forall i :: 0 <= i < |deps| ==> nodes[deps[i]].gen.Some?
    ensures forall m {:trigger nodes[m]} :: 0 <= m < |nodes| && before[m].gen.Some? ==> nodes[m].gen == before[m].gen
  {
    hide Graph.WellFormed, NewOuts;
    InorderKeeps(g, e, edge.inorder + |deps|);
    NewOutsAre(before, deps);
    forall i | 0 <= i < |deps| ensures nodes[deps[i]].gen.Some? {
      assert deps[i] in deps;
    }
  }

  /** The nodes in `outs` have become outputs of edge `e`. */
  ghost predicate Produced(before: seq<Node>, nodes: seq<Node>, outs: seq<nat>, e: nat) {
    && |nodes| == |before|
    && forall m {:trigger nodes[m]} :: 0 <= m < |nodes| ==> nodes[m].gen == if m in outs then Some(e) else before[m].gen
  }

  /** The nodes in `outs` have got a producer, and no other node has. */
  ghost predicate Filled(before: seq<Node>, nodes: seq<Node>, outs: seq<nat>) {
    && |nodes| == |before|
    && forall m {:trigger nodes[m]} :: 0 <= m < |nodes| ==>
      if m in outs then nodes[m].gen.Some? else nodes[m].gen == before[m].gen
  }

  function Phonies(ns: seq<nat>): (r: seq<Edge>)
    ensures |r| == |ns|
  {
    seq(|ns|, i requires 0 <= i < |ns| => PhonyEdge(ns[i]))
  }

  lemma PhoniesSnoc(ns: seq<nat>, n: nat)
    ensures Phonies(ns + [n]) == Phonies(ns) + [PhonyEdge(n)]
  {
  }

  lemma OrderOnly(g: Graph, e: nat)
    requires g.WellFormed() && g.IsEdge(e)
    ensures g.edges[e].inorder <= |g.edges[e].ins|
  {
    assert g.EdgeOk(e);
  }

  /** One more dependency before the order-only inputs. */
  lemma InsertOne(ins: seq<nat>, k: nat, deps: seq<nat>, i: nat)
    requires k <= |ins| && i < |deps|
    ensures var now := ins[..k] + deps[..i] + ins[k..];
      now[..k + i] + [deps[i]] + now[k + i..] == ins[..k] + deps[..i + 1] + ins[k..]
  {
    var now := ins[..k] + deps[..i] + ins[k..];
    assert now[..k + i] == ins[..k] + deps[..i] && now[k + i..] == ins[k..];
    assert deps[..i + 1] == deps[..i] + [deps[i]];
  }

  ghost predicate SameProducers(before: seq<Node>, nodes: seq<Node>) {
    |nodes| == |before| && forall m {:trigger nodes[m]} :: 0 <= m < |nodes| ==> nodes[m].gen == before[m].gen
  }

  lemma NoOuts(nodes: seq<Node>)
    ensures NewOuts(nodes, []) == []
  {
  }

  /** An output that has a producer already means that the list is not taken as it is. */
  lemma Refused(before: seq<Node>, outs: seq<nat>, i: nat)
    requires i < |outs| && forall k :: 0 <= k < |outs| ==> outs[k] < |before|
    requires before[outs[i]].gen.Some? || outs[i] in NewOuts(before, outs[..i])
    ensures NewOuts(before, outs) != outs
  {
    hide NewOuts;
    NewOutsAre(before, outs[..i]);
    NewOutsAre(before, outs);
    Twice(outs, i);
  }

  lemma Twice(outs: seq<nat>, i: nat)
    requires i < |outs|
    ensures outs[i] in outs[..i] ==> exists j :: 0 <= j < i && outs[j] == outs[i]
  {
  }

  lemma ProducedStill(before: seq<Node>, mid: seq<Node>, nodes: seq<Node>, outs: seq<nat>, e: nat)
    requires Produced(before, mid, outs, e) && SameProducers(mid, nodes)
    ensures Produced(before, nodes, outs, e)
  {
    forall m | 0 <= m < |nodes| ensures nodes[m].gen == if m in outs then Some(e) else before[m].gen {
      assert mid[m].gen == nodes[m].gen;
    }
  }

  lemma NextIs(before: seq<Node>, outs: seq<nat>, i: nat)
    requires i < |outs| && forall k :: 0 <= k < |outs| ==> outs[k] < |before|
    ensures var front, n := NewOuts(before, outs[..i]), outs[i];
      NewOuts(before, outs[..i + 1]) == if before[n].gen.Some? || n in front then front else front + [n]
  {
    assert outs[..i + 1][..i] == outs[..i];
  }
}
