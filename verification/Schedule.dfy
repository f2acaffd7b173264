/** The state of one samu build (build.c) and what every run of it keeps.

    The scheduler keeps two counters per edge. `nblock` counts the inputs that still have to
    be rebuilt or pruned before the edge is ready, `nprune` the inputs that still have to be
    pruned before its own outputs can be pruned. This module says what those counters mean
    in terms of the graph, as an invariant over a snapshot of the scheduler's variables. */
module Schedule {
  import opened Wrappers
  import opened BuildGraph

  /** Where an edge stands. Idle edges are not part of the build, Clean ones need no work.
      Ready edges are in the work queue, Parked ones in a pool's queue. Stuck edges failed to
      start, Failed ones ran and failed, Done ones finished, Pruned ones need not run. */
  datatype Status = Idle | Clean | Waiting | Ready | Parked | Running | Stuck | Failed | Done | Pruned

  /** One step in the history of a build. */
  datatype Event = Enqueued(edge: nat) | Started(edge: nat) | Finished(edge: nat) | Broke(edge: nat)
    | Dropped(edge: nat)

  /** The scheduler's variables, up to `console`, followed by what the proofs keep track of:
      the inputs each edge waits for (`block`) and has been told about (`got`), which nodes
      were pruned, the announcements still under way (`open`), the pruned edges `ntotal`
      still counts (`owed`), a topological rank and the history. */
  datatype Sched = Sched(
    dirtyIn: seq<bool>, dirtyOut: seq<bool>, nblock: seq<nat>, nprune: seq<nat>,
    ready: seq<nat>, parked: seq<seq<nat>>, numjobs: seq<nat>,
    ntotal: nat, nstarted: nat, nfinished: nat, console: bool,
    status: seq<Status>, block: seq<set<nat>>, got: seq<set<nat>>, pruned: seq<bool>,
    open: set<Use>, owed: set<nat>, rank: seq<nat>, clock: nat, log: seq<Event>)

  // ---------------------------------------------------------------------------------------
  // Vocabulary
  // ---------------------------------------------------------------------------------------

  ghost predicate Shape(g: Graph, s: Sched) {
    && |s.dirtyIn| == |s.dirtyOut| == |s.nblock| == |s.nprune| == |g.edges|
    && |s.status| == |s.block| == |s.got| == |s.rank| == |g.edges|
    && |s.pruned| == |g.nodes|
    && |s.parked| == |s.numjobs| == |g.depth|
  }

  /** The edge needs to run: an input is dirty, or an output is missing or outdated. */
  predicate Dirty(s: Sched, e: nat)
    requires e < |s.dirtyIn| && e < |s.dirtyOut|
  {
    s.dirtyIn[e] || s.dirtyOut[e]
  }

  predicate Active(st: Status) { !st.Idle? && !st.Clean? }

  /** The edge's outputs are as good as they will get: rebuilt, or found up to date. */
  predicate Settled(st: Status) { st.Done? || st.Pruned? }

  /** The edge was handed to a queue at some point. */
  predicate WasQueued(st: Status) {
    st.Ready? || st.Parked? || st.Running? || st.Stuck? || st.Failed? || st.Done?
  }

  predicate WasStarted(st: Status) { st.Running? || st.Stuck? || st.Failed? || st.Done? }

  /** The edge holds a slot of its pool. */
  predicate HoldsSlot(st: Status) { st.Ready? || st.Running? || st.Stuck? }

  /** The input positions of `e` whose producer has work to do. */
  ghost function Awaited(g: Graph, s: Sched, e: nat): set<nat>
    requires g.WellFormed() && Shape(g, s) && g.IsEdge(e)
  {
    set j: nat | j < |g.edges[e].ins| && g.Producer(e, j).Some? && Active(s.status[g.Producer(e, j).value])
  }

  ghost predicate PrunedInput(g: Graph, s: Sched, e: nat, j: nat)
    requires g.WellFormed() && Shape(g, s) && g.IsEdge(e)
  {
    assert g.EdgeOk(e);
    j < |g.edges[e].ins| && s.pruned[g.edges[e].ins[j]]
  }

  /** The announced input positions of `e` that were announced as pruned. */
  ghost function GotPruned(g: Graph, s: Sched, e: nat): set<nat>
    requires g.WellFormed() && Shape(g, s) && g.IsEdge(e)
  {
    set j | j in s.got[e] && PrunedInput(g, s, e, j)
  }

  /** What counts towards pruning `e`: any announcement if the edge is clean, only pruned
      inputs if some input was dirty. */
  ghost function Counted(g: Graph, s: Sched, e: nat): set<nat>
    requires g.WellFormed() && Shape(g, s) && g.IsEdge(e)
  {
    if s.dirtyIn[e] then GotPruned(g, s, e) else s.got[e]
  }

  /** The edges that hold a slot of pool `p`. */
  ghost function Occupants(g: Graph, s: Sched, p: nat): set<nat>
    requires Shape(g, s)
  {
    set e: nat | e < |g.edges| && InPool(g, e, p) && HoldsSlot(s.status[e])
  }

  predicate InPool(g: Graph, e: nat, p: nat)
    requires g.IsEdge(e)
  {
    !g.edges[e].phony && g.edges[e].pool == Some(p)
  }

  /** The dirty edges with a command, which the status line counts, unless pruned. */
  ghost function Commands(g: Graph, s: Sched): set<nat>
    requires Shape(g, s)
  {
    set e: nat | e < |g.edges| && !g.edges[e].phony && Active(s.status[e]) && Dirty(s, e)
                 && (!s.status[e].Pruned? || e in s.owed)
  }

  ghost function StartedCommands(g: Graph, s: Sched): set<nat>
    requires Shape(g, s)
  {
    set e: nat | e < |g.edges| && !g.edges[e].phony && WasStarted(s.status[e])
  }

  ghost function FinishedCommands(g: Graph, s: Sched): set<nat>
    requires Shape(g, s)
  {
    set e: nat | e < |g.edges| && !g.edges[e].phony && (s.status[e].Done? || s.status[e].Failed?)
  }

  /** The edges not yet taken from a queue: the measure that every step decreases. */
  ghost function Unstarted(s: Sched): set<nat> {
    set e: nat | e < |s.status| && (s.status[e].Waiting? || s.status[e].Ready? || s.status[e].Parked?)
  }

  ghost function WaitingEdges(s: Sched): set<nat> {
    set e: nat | e < |s.status| && s.status[e].Waiting?
  }

  predicate NoDuplicates<T(==)>(q: seq<T>) {
    forall i, j :: 0 <= i < j < |q| ==> q[i] != q[j]
  }

  // ---------------------------------------------------------------------------------------
  // The invariant
  // ---------------------------------------------------------------------------------------

  /** The plan drawn up by buildadd: which edges take part and what they wait for. */
  ghost predicate PlanAt(g: Graph, s: Sched, e: nat)
    requires g.WellFormed() && Shape(g, s) && g.IsEdge(e)
  {
    !s.status[e].Idle? ==>
      && (forall j: nat {:trigger InputPlanned(g, s, e, j)} :: j < |g.edges[e].ins| ==> InputPlanned(g, s, e, j))
      && s.block[e] == Awaited(g, s, e)
      && (s.status[e].Clean? <==> !Dirty(s, e) && s.block[e] == {})
      && (s.dirtyIn[e] <==> exists j: nat :: j < g.edges[e].inorder && DirtyInput(g, s, e, j))
      && s.rank[e] < s.clock
  }

  ghost predicate InputPlanned(g: Graph, s: Sched, e: nat, j: nat)
    requires g.WellFormed() && Shape(g, s) && g.IsEdge(e) && j < |g.edges[e].ins|
  {
    assert g.EdgeOk(e);
    match g.Producer(e, j)
    case None => g.nodes[g.edges[e].ins[j]].mtime != MTIME_MISSING
    case Some(f) => !s.status[f].Idle? && s.rank[f] < s.rank[e]
  }

  ghost predicate DirtyInput(g: Graph, s: Sched, e: nat, j: nat)
    requires g.WellFormed() && Shape(g, s) && g.IsEdge(e)
  {
    j < |g.edges[e].ins| && g.Producer(e, j).Some? && Dirty(s, g.Producer(e, j).value)
  }

  /** What the two counters of an edge are worth while it waits, and why it stopped waiting. */
  ghost predicate CountersAt(g: Graph, s: Sched, e: nat)
    requires g.WellFormed() && Shape(g, s) && g.IsEdge(e)
  {
    && (s.status[e].Waiting? ==>
          && s.got[e] < s.block[e]
          && s.nblock[e] == |s.block[e]| - |s.got[e]|
          && (!s.dirtyOut[e] ==> s.nprune[e] == |s.block[e]| - |Counted(g, s, e)|))
    && (WasQueued(s.status[e]) ==>
          s.got[e] == s.block[e] && Dirty(s, e) && (s.dirtyOut[e] || Counted(g, s, e) != s.block[e]))
    && (s.status[e].Pruned? ==>
          s.got[e] == s.block[e] && !s.dirtyOut[e] && Counted(g, s, e) == s.block[e])
  }

  /** An edge has been told about an input exactly if its producer is settled and the
      announcement is not still under way. */
  ghost predicate DeliveryAt(g: Graph, s: Sched, e: nat)
    requires g.WellFormed() && Shape(g, s) && g.IsEdge(e)
  {
    !s.status[e].Idle? ==>
      && s.got[e] <= s.block[e]
      && (forall j: nat {:trigger DeliveredOk(g, s, e, j)} :: j in s.block[e] ==> DeliveredOk(g, s, e, j))
  }

  ghost predicate DeliveredOk(g: Graph, s: Sched, e: nat, j: nat)
    requires g.WellFormed() && Shape(g, s) && g.IsEdge(e)
  {
    j < |g.edges[e].ins| && g.Producer(e, j).Some?
      && (j in s.got[e] <==> Settled(s.status[g.Producer(e, j).value]) && Use(e, j) !in s.open)
  }

  ghost predicate OpenOk(g: Graph, s: Sched, u: Use)
    requires g.WellFormed() && Shape(g, s)
  {
    && g.IsEdge(u.edge) && u.pos < |g.edges[u.edge].ins|
    && !s.status[u.edge].Idle? && u.pos in s.block[u.edge]
    && g.Producer(u.edge, u.pos).Some? && Settled(s.status[g.Producer(u.edge, u.pos).value])
  }

  /** A node is marked pruned if its edge was pruned, or if its edge ran with `restat` and
      left it unchanged. */
  ghost predicate PrunedNodeOk(g: Graph, s: Sched, n: nat)
    requires g.WellFormed() && Shape(g, s) && g.IsNode(n)
  {
    assert g.NodeOk(n);
    match g.nodes[n].gen
    case None => !s.pruned[n]
    case Some(f) =>
      && (s.status[f].Pruned? ==> s.pruned[n])
      && (s.pruned[n] ==> s.status[f].Pruned? || (s.status[f].Done? && g.edges[f].restat))
  }

  /** The queues hold the Ready and Parked edges, each once, and a pool parks edges only
      while it is full. */
  ghost predicate QueuesOk(g: Graph, s: Sched)
    requires g.WellFormed() && Shape(g, s)
  {
    && NoDuplicates(s.ready)
    && (forall e: nat {:trigger QueuedAt(g, s, e)} {:trigger e in s.ready} :: QueuedAt(g, s, e))
    && (forall p: nat {:trigger PoolOk(g, s, p)} :: p < |g.depth| ==> PoolOk(g, s, p))
  }

  ghost predicate QueuedAt(g: Graph, s: Sched, e: nat)
    requires Shape(g, s)
  {
    && (e in s.ready <==> g.IsEdge(e) && s.status[e].Ready?)
    && (g.IsEdge(e) && s.status[e].Parked? ==> !g.edges[e].phony && g.edges[e].pool.Some?)
  }

  ghost predicate PoolOk(g: Graph, s: Sched, p: nat)
    requires Shape(g, s) && p < |g.depth|
  {
    && NoDuplicates(s.parked[p])
    && (forall e: nat {:trigger e in s.parked[p]} :: e in s.parked[p] <==>
      g.IsEdge(e) && InPool(g, e, p) && s.status[e].Parked?)
    && s.numjobs[p] == |Occupants(g, s, p)| <= g.depth[p]
    && (s.parked[p] != [] ==> s.numjobs[p] == g.depth[p])
  }

  ghost predicate TotalsOk(g: Graph, s: Sched)
    requires Shape(g, s)
  {
    && NumbersOk(g, s)
    && (s.console <==> ConsoleBusy(g, s))
    && (forall e {:trigger e in s.owed} :: e in s.owed ==> g.IsEdge(e) && s.status[e].Pruned?)
  }

  /** The progress counters count edges. */
  ghost predicate NumbersOk(g: Graph, s: Sched)
    requires Shape(g, s)
  {
    && s.ntotal == |Commands(g, s)|
    && s.nstarted == |StartedCommands(g, s)|
    && s.nfinished == |FinishedCommands(g, s)|
  }

  /** A job of the console pool is running. */
  ghost predicate ConsoleBusy(g: Graph, s: Sched)
    requires Shape(g, s)
  {
    exists e: nat :: g.IsEdge(e) && InPool(g, e, CONSOLE) && s.status[e].Running?
  }

  /** The history records every transition once, and an edge is queued, hence started, only
      after the producers of all inputs it waits for are settled. */
  ghost predicate LogOk(g: Graph, s: Sched)
    requires g.WellFormed() && Shape(g, s)
  {
    && NoDuplicates(s.log)
    && (forall e: nat {:trigger LogAt(g, s, e)} :: LogAt(g, s, e))
    && (forall i {:trigger EventOk(g, s, i)} :: 0 <= i < |s.log| ==> EventOk(g, s, i))
  }

  ghost predicate LogAt(g: Graph, s: Sched, e: nat)
    requires Shape(g, s)
  {
    && (Enqueued(e) in s.log <==> g.IsEdge(e) && WasQueued(s.status[e]))
    && (Started(e) in s.log <==> g.IsEdge(e) && !g.edges[e].phony && WasStarted(s.status[e]))
    && (Finished(e) in s.log <==> g.IsEdge(e) && s.status[e].Done?)
    && (Broke(e) in s.log <==> g.IsEdge(e) && (s.status[e].Failed? || s.status[e].Stuck?))
    && (Dropped(e) in s.log <==> g.IsEdge(e) && s.status[e].Pruned?)
  }

  ghost predicate EventOk(g: Graph, s: Sched, i: nat)
    requires g.WellFormed() && Shape(g, s) && i < |s.log|
  {
    var e := s.log[i].edge;
    match s.log[i]
    case Enqueued(_) => Informed(g, s, i, e)
    case Dropped(_) => Informed(g, s, i, e)
    case Started(_) => Enqueued(e) in s.log[..i]
    case Finished(_) => Enqueued(e) in s.log[..i] && g.IsEdge(e) && (!g.edges[e].phony ==> Started(e) in s.log[..i])
    case Broke(_) => Started(e) in s.log[..i]
  }

  /** By point `i` of the history every input that `e` waits for is settled. */
  ghost predicate Informed(g: Graph, s: Sched, i: nat, e: nat)
    requires g.WellFormed() && Shape(g, s) && i <= |s.log|
  {
    && g.IsEdge(e)
    && forall j: nat :: j in s.block[e] && j < |g.edges[e].ins| && g.Producer(e, j).Some? ==>
      SettledBy(s.log[..i], g.Producer(e, j).value)
  }

  predicate SettledBy(log: seq<Event>, f: nat) { Finished(f) in log || Dropped(f) in log }

  ghost predicate EdgesOk(g: Graph, s: Sched)
    requires g.WellFormed() && Shape(g, s)
  {
    && (forall e: nat {:trigger PlanAt(g, s, e)} :: g.IsEdge(e) ==> PlanAt(g, s, e))
    && (forall e: nat {:trigger CountersAt(g, s, e)} :: g.IsEdge(e) ==> CountersAt(g, s, e))
    && (forall e: nat {:trigger DeliveryAt(g, s, e)} :: g.IsEdge(e) ==> DeliveryAt(g, s, e))
  }

  ghost predicate NodesOk(g: Graph, s: Sched)
    requires g.WellFormed() && Shape(g, s)
  {
    && (forall u {:trigger OpenOk(g, s, u)} :: u in s.open ==> OpenOk(g, s, u))
    && (forall n: nat {:trigger PrunedNodeOk(g, s, n)} :: g.IsNode(n) ==> PrunedNodeOk(g, s, n))
  }

  /** Everything that holds at every point of a build. */
  ghost predicate Inv(g: Graph, s: Sched) {
    && g.WellFormed() && Shape(g, s)
    && EdgesOk(g, s) && NodesOk(g, s) && QueuesOk(g, s) && TotalsOk(g, s) && LogOk(g, s)
  }

  lemma InvParts(g: Graph, s: Sched)
    requires Inv(g, s)
    ensures g.WellFormed() && Shape(g, s) && QueuesOk(g, s)
  {
  }
}
