/** Announcing a settled input to the edges that use it (nodedone) keeps the invariant,
    whether the edge goes on waiting, becomes ready or is pruned in turn. */
module ScheduleTell {
  import opened Wrappers
  import opened BuildGraph
  import opened Schedule
  import opened ScheduleSteps

  /** The preconditions of one announcement. */
  ghost predicate CanTell(g: Graph, s: Sched, u: Use, prune: bool) {
    && Inv(g, s) && u in s.open
    && (g.IsEdge(u.edge) ==> PrunedInput(g, s, u.edge, u.pos) == prune)
  }

  function TellChecked(g: Graph, s: Sched, u: Use, prune: bool): Sched
    requires CanTell(g, s, u, prune)
  {
    TellFacts(g, s, u, prune);
    Tell(g, s, u, prune)
  }

  /** What the announcement does to the set that counts towards pruning. */
  lemma TellCounted(g: Graph, s: Sched, u: Use, prune: bool)
    requires CanTell(g, s, u, prune)
    ensures var e, s1 := u.edge, TellChecked(g, s, u, prune);
            g.IsEdge(e) && Shape(g, s1) &&
            |s1.got[e]| == |s.got[e]| + 1 && s1.got[e] <= s.block[e] &&
            (!s.dirtyOut[e] ==>
               Counted(g, s1, e) == Counted(g, s, e) + (if CountsPrune(s, e, prune) then {u.pos} else {})) &&
            u.pos !in Counted(g, s, e)
  {
    hide QueuesOk, TotalsOk, LogOk, EdgesOk, NodesOk, GotPruned, PrunedInput;
    TellFacts(g, s, u, prune);
    var e, s1 := u.edge, Tell(g, s, u, prune);
    GotWithin(g, s, e);
    GotPrunedStep(g, s, s1, u);
    GotOnce(s.got[e], u.pos);
    PrunedAreGot(g, s, e);
  }

  lemma GotWithin(g: Graph, s: Sched, e: nat)
    requires g.WellFormed() && Shape(g, s) && EdgesOk(g, s) && g.IsEdge(e) && !s.status[e].Idle?
    ensures s.got[e] <= s.block[e]
  {
    hide PlanAt, CountersAt;
    assert DeliveryAt(g, s, e);
  }

  lemma GotOnce(got: set<nat>, pos: nat)
    requires pos !in got
    ensures |got + {pos}| == |got| + 1
  {
  }

  lemma PrunedAreGot(g: Graph, s: Sched, e: nat)
    requires g.WellFormed() && Shape(g, s) && g.IsEdge(e)
    ensures GotPruned(g, s, e) <= s.got[e]
  {
  }

  lemma GotPrunedStep(g: Graph, s: Sched, s1: Sched, u: Use)
    requires g.WellFormed() && Shape(g, s) && Shape(g, s1) && g.IsEdge(u.edge)
    requires s1.pruned == s.pruned && s1.got == s.got[u.edge := s.got[u.edge] + {u.pos}]
    ensures GotPruned(g, s1, u.edge) ==
              GotPruned(g, s, u.edge) + (if PrunedInput(g, s, u.edge, u.pos) then {u.pos} else {})
  {
    forall j: nat ensures PrunedInput(g, s1, u.edge, j) == PrunedInput(g, s, u.edge, j) {
    }
  }

  lemma TellDelivery(g: Graph, s: Sched, u: Use, prune: bool, e: nat)
    requires CanTell(g, s, u, prune) && g.IsEdge(e)
    ensures DeliveryAt(g, TellChecked(g, s, u, prune), e)
  {
    hide QueuesOk, TotalsOk, LogOk, CountersAt, PrunedNodeOk;
    TellFacts(g, s, u, prune);
    var s1 := Tell(g, s, u, prune);
    assert DeliveryAt(g, s, e) && PlanAt(g, s, e);
    assert OpenOk(g, s, u);
    forall j: nat | j in s.block[e] && !s.status[e].Idle?
      ensures DeliveredOk(g, s1, e, j)
    {
      assert DeliveredOk(g, s, e, j);
    }
  }

  /** Everything but the counters of the edge itself survives the announcement. */
  lemma TellRest(g: Graph, s: Sched, u: Use, prune: bool)
    requires CanTell(g, s, u, prune)
    ensures var s1 := TellChecked(g, s, u, prune);
            && Shape(g, s1) && SamePlan(g, s, s1)
            && (forall e: nat :: g.IsEdge(e) ==> PlanAt(g, s1, e) && DeliveryAt(g, s1, e))
            && (forall e: nat :: g.IsEdge(e) && e != u.edge ==> CountersAt(g, s1, e))
            && NodesOk(g, s1) && QueuesOk(g, s1) && TotalsOk(g, s1) && LogOk(g, s1)
  {
    hide QueuesOk, TotalsOk, LogOk, NodesOk, PlanAt, CountersAt, DeliveryAt;
    TellFacts(g, s, u, prune);
    var s1 := Tell(g, s, u, prune);
    forall e: nat | g.IsEdge(e)
      ensures PlanAt(g, s1, e) && DeliveryAt(g, s1, e) && (e != u.edge ==> CountersAt(g, s1, e))
    {
      TellOthers(g, s, u, prune, e);
    }
    TellNodes(g, s, u, prune);
    SameStatus(g, s, s1);
  }

  lemma TellOthers(g: Graph, s: Sched, u: Use, prune: bool, e: nat)
    requires CanTell(g, s, u, prune) && g.IsEdge(e)
    ensures var s1 := TellChecked(g, s, u, prune);
      PlanAt(g, s1, e) && DeliveryAt(g, s1, e) && (e != u.edge ==> CountersAt(g, s1, e))
  {
    hide QueuesOk, TotalsOk, LogOk, NodesOk, PlanAt, DeliveryAt;
    TellFacts(g, s, u, prune);
    var s1 := Tell(g, s, u, prune);
    assert PlanAt(g, s, e) && CountersAt(g, s, e);
    PlanKept(g, s, s1, e);
    TellDelivery(g, s, u, prune, e);
    if e != u.edge {
      SameCounted(g, s, s1, e);
    }
  }

  lemma TellNodes(g: Graph, s: Sched, u: Use, prune: bool)
    requires CanTell(g, s, u, prune)
    ensures NodesOk(g, TellChecked(g, s, u, prune))
  {
    hide QueuesOk, TotalsOk, LogOk, EdgesOk;
    TellFacts(g, s, u, prune);
    var s1 := Tell(g, s, u, prune);
    forall v | v in s1.open ensures OpenOk(g, s1, v) {
      assert OpenOk(g, s, v);
    }
    forall n: nat | g.IsNode(n) ensures PrunedNodeOk(g, s1, n) {
      assert PrunedNodeOk(g, s, n);
    }
  }

  /** Queues, totals and history only depend on what this step leaves alone. */
  lemma SameStatus(g: Graph, s: Sched, s1: Sched)
    requires g.WellFormed() && SamePlan(g, s, s1) && QueuesOk(g, s) && TotalsOk(g, s) && LogOk(g, s)
    requires s1.status == s.status && s1.log == s.log && s1.ready == s.ready && s1.parked == s.parked
    requires s1.numjobs == s.numjobs && s1.ntotal == s.ntotal && s1.nstarted == s.nstarted
    requires s1.nfinished == s.nfinished && s1.console == s.console && s1.owed == s.owed
    ensures QueuesOk(g, s1) && TotalsOk(g, s1) && LogOk(g, s1)
  {
    hide QueuesOk, TotalsOk, LogOk;
    SameQueues(g, s, s1);
    SameTotals(g, s, s1);
    SameLog(g, s, s1);
  }

  lemma SameQueues(g: Graph, s: Sched, s1: Sched)
    requires g.WellFormed() && Shape(g, s) && Shape(g, s1) && QueuesOk(g, s)
    requires s1.status == s.status && s1.ready == s.ready && s1.parked == s.parked && s1.numjobs == s.numjobs
    ensures QueuesOk(g, s1)
  {
    forall p: nat | p < |g.depth| ensures PoolOk(g, s1, p) {
      assert PoolOk(g, s, p);
      assert Occupants(g, s1, p) == Occupants(g, s, p);
    }
    forall e: nat ensures QueuedAt(g, s1, e) {
      assert QueuedAt(g, s, e);
    }
  }

  lemma SameTotals(g: Graph, s: Sched, s1: Sched)
    requires SamePlan(g, s, s1) && TotalsOk(g, s)
    requires s1.status == s.status && s1.ntotal == s.ntotal && s1.nstarted == s.nstarted
    requires s1.nfinished == s.nfinished && s1.console == s.console && s1.owed == s.owed
    ensures TotalsOk(g, s1)
  {
    SameCommands(g, s, s1);
    SameStarted(g, s, s1);
    SameFinished(g, s, s1);
    SameConsole(g, s, s1);
  }

  /** The history does not depend on queues, counters or totals. */
  lemma SameLog(g: Graph, s: Sched, s1: Sched)
    requires g.WellFormed() && SamePlan(g, s, s1) && LogOk(g, s) && s1.status == s.status && s1.log == s.log
    ensures LogOk(g, s1)
  {
    hide EventOk;
    forall i | 0 <= i < |s1.log| ensures EventOk(g, s1, i) {
      EventKept(g, s, s1, i);
    }
    forall e: nat ensures LogAt(g, s1, e) {
      assert LogAt(g, s, e);
    }
  }

  /** The edge goes on waiting. */
  lemma TellWaits(g: Graph, s: Sched, u: Use, prune: bool)
    requires CanTell(g, s, u, prune)
    requires g.IsEdge(u.edge) && !LastPrune(s, u.edge, prune) && s.nblock[u.edge] > 1
    ensures Inv(g, TellChecked(g, s, u, prune))
  {
    hide QueuesOk, TotalsOk, LogOk, OpenOk, PrunedNodeOk, PlanAt, DeliveryAt;
    TellFacts(g, s, u, prune);
    TellRest(g, s, u, prune);
    TellCounted(g, s, u, prune);
    assert CountersAt(g, s, u.edge);
    var e, s1 := u.edge, TellChecked(g, s, u, prune);
    assert |s1.got[e]| < |s1.block[e]|;
    ProperSubset(s1.got[e], s1.block[e]);
    if CountsPrune(s, e, prune) {
      SetAdd(Counted(g, s, e), Counted(g, s1, e), u.pos);
    }
  }

  /** The edge has heard about all its inputs and has to run. */
  lemma TellQueues(g: Graph, s: Sched, u: Use, prune: bool)
    requires CanTell(g, s, u, prune)
    requires g.IsEdge(u.edge) && !LastPrune(s, u.edge, prune) && s.nblock[u.edge] == 1
    ensures Inv(g, Enqueue(g, TellChecked(g, s, u, prune), u.edge))
  {
    hide QueuesOk, TotalsOk, LogOk, OpenOk, PrunedNodeOk, Enqueue;
    TellFacts(g, s, u, prune);
    TellRest(g, s, u, prune);
    TellCounted(g, s, u, prune);
    var e, s1 := u.edge, Tell(g, s, u, prune);
    assert CountersAt(g, s, e) && PlanAt(g, s1, e) && DeliveryAt(g, s1, e);
    Full(s1.got[e], s1.block[e]);
    EnqueueKeeps(g, s1, e);
  }

  lemma ProperSubset(a: set<nat>, b: set<nat>)
    requires a <= b && |a| < |b|
    ensures a < b
  {
    if b <= a {
      Subset(b, a);
    }
  }

  lemma Full(a: set<nat>, b: set<nat>)
    requires a <= b && |a| == |b|
    ensures a == b
  {
    if a != b {
      Subset(a, b);
    }
  }

  /** Queueing an edge that waits for nothing any more restores the invariant. */
  lemma EnqueueKeeps(g: Graph, s1: Sched, e: nat)
    requires g.WellFormed() && Shape(g, s1) && g.IsEdge(e) && s1.status[e].Waiting?
    requires forall f: nat :: g.IsEdge(f) ==>
      PlanAt(g, s1, f) && DeliveryAt(g, s1, f) && (f != e ==> CountersAt(g, s1, f))
    requires NodesOk(g, s1) && QueuesOk(g, s1) && TotalsOk(g, s1) && LogOk(g, s1)
    requires s1.got[e] == s1.block[e] && Dirty(s1, e) && (s1.dirtyOut[e] || Counted(g, s1, e) != s1.block[e])
    ensures Inv(g, Enqueue(g, s1, e))
  {
    hide QueuesOk, TotalsOk, LogOk, PlanAt, DeliveryAt, OpenOk, PrunedNodeOk, Counted, Enqueue;
    var s2 := Enqueue(g, s1, e);
    EnqueueFrame(g, s1, e);
    EnqueueQueues(g, s1, e);
    EnqueueLog(g, s1, e);
    EnqueueTotals(g, s1, e);
    UnsettledOpen(g, s1, s2);
    forall f: nat | g.IsEdge(f) ensures PlanAt(g, s2, f) && CountersAt(g, s2, f) && DeliveryAt(g, s2, f) {
      PlanKept(g, s1, s2, f);
      SameCounted(g, s1, s2, f);
      UnsettledDelivery(g, s1, s2, f);
    }
  }

  /** What queueing an edge leaves alone. */
  lemma EnqueueFrame(g: Graph, s: Sched, e: nat)
    requires g.WellFormed() && Shape(g, s) && g.IsEdge(e)
    ensures var s' := Enqueue(g, s, e);
            && (s'.status[e].Ready? || s'.status[e].Parked?) && s'.status == s.status[e := s'.status[e]]
            && s' == s.(ready := s'.ready, parked := s'.parked, numjobs := s'.numjobs,
                        status := s'.status, log := s.log + [Enqueued(e)])
  {
  }

  lemma SameCounted(g: Graph, s: Sched, s': Sched, e: nat)
    requires g.WellFormed() && Shape(g, s) && Shape(g, s') && g.IsEdge(e)
    requires s'.pruned == s.pruned && s'.got[e] == s.got[e] && s'.dirtyIn == s.dirtyIn
    ensures Counted(g, s', e) == Counted(g, s, e)
  {
    forall j: nat ensures PrunedInput(g, s', e, j) == PrunedInput(g, s, e, j) {
    }
  }

  lemma UnsettledOpen(g: Graph, s: Sched, s': Sched)
    requires g.WellFormed() && SamePlan(g, s, s') && s'.open == s.open && s'.pruned == s.pruned
    requires forall f: nat :: g.IsEdge(f) ==>
      s'.status[f].Pruned? == s.status[f].Pruned? && s'.status[f].Done? == s.status[f].Done?
    requires NodesOk(g, s)
    ensures NodesOk(g, s')
  {
    forall v | v in s'.open ensures OpenOk(g, s', v) {
      assert OpenOk(g, s, v);
    }
    forall n: nat | g.IsNode(n) ensures PrunedNodeOk(g, s', n) {
      assert PrunedNodeOk(g, s, n) && g.NodeOk(n);
    }
  }

  /** A step that settles no edge leaves every delivery as it was. */
  lemma UnsettledDelivery(g: Graph, s: Sched, s': Sched, e: nat)
    requires g.WellFormed() && SamePlan(g, s, s') && g.IsEdge(e) && DeliveryAt(g, s, e)
    requires s'.got == s.got && s'.open == s.open
    requires forall f: nat :: g.IsEdge(f) ==> Settled(s'.status[f]) == Settled(s.status[f])
    ensures DeliveryAt(g, s', e)
  {
    forall j: nat | j in s.block[e] && !s.status[e].Idle?
      ensures DeliveredOk(g, s', e, j)
    {
      assert DeliveredOk(g, s, e, j);
    }
  }

  lemma EnqueueLog(g: Graph, s: Sched, e: nat)
    requires g.WellFormed() && Shape(g, s) && g.IsEdge(e) && s.status[e].Waiting? && LogOk(g, s)
    requires DeliveryAt(g, s, e) && s.got[e] == s.block[e]
    ensures LogOk(g, Enqueue(g, s, e))
  {
    hide Enqueue;
    var s' := Enqueue(g, s, e);
    EnqueueFrame(g, s, e);
    forall j: nat | j in s.block[e]
      ensures j < |g.edges[e].ins| && g.Producer(e, j).Some? && Settled(s.status[g.Producer(e, j).value])
    {
      assert DeliveredOk(g, s, e, j);
    }
    FullyInformed(g, s, e, s'.log);
    assert LogAt(g, s, e);
    forall f: nat | LogAt(g, s, f) ensures LogAt(g, s', f) {
    }
    LogAppend(g, s, s', Enqueued(e));
  }

  lemma EnqueueTotals(g: Graph, s: Sched, e: nat)
    requires g.WellFormed() && Shape(g, s) && g.IsEdge(e) && s.status[e].Waiting? && TotalsOk(g, s)
    ensures TotalsOk(g, Enqueue(g, s, e))
  {
    hide Enqueue;
    var s' := Enqueue(g, s, e);
    EnqueueFrame(g, s, e);
    SameCommands(g, s, s');
    SameStarted(g, s, s');
    SameFinished(g, s, s');
    SameConsole(g, s, s');
  }

  /** Every input was pruned, or the edge was clean: the edge is dropped in turn. */
  lemma TellDrops(g: Graph, s: Sched, u: Use, prune: bool)
    requires CanTell(g, s, u, prune)
    requires g.IsEdge(u.edge) && LastPrune(s, u.edge, prune)
    ensures Inv(g, Drop(g, TellChecked(g, s, u, prune), u.edge))
    ensures s.open !! EdgeUses(g, s, u.edge)
  {
    hide QueuesOk, TotalsOk, LogOk, PrunedNodeOk, Drop;
    TellFacts(g, s, u, prune);
    TellRest(g, s, u, prune);
    TellCounted(g, s, u, prune);
    var e, s1 := u.edge, Tell(g, s, u, prune);
    assert CountersAt(g, s, e) && PlanAt(g, s, e) && DeliveryAt(g, s, e);
    assert Counted(g, s1, e) <= s1.got[e];
    Full(Counted(g, s1, e), s1.block[e]);
    DropKeeps(g, s1, e);
    forall v | v in s.open ensures v !in EdgeUses(g, s, e) {
      assert OpenOk(g, s, v);
      EdgeUsesMember(g, s, e, v);
    }
  }

  /** A use belongs to the outputs of `e` exactly if `e` produces the used node. */
  lemma EdgeUsesMember(g: Graph, s: Sched, e: nat, u: Use)
    requires g.WellFormed() && g.IsEdge(e) && Shape(g, s)
    ensures u in EdgeUses(g, s, e) <==>
              && g.IsEdge(u.edge) && u.pos < |g.edges[u.edge].ins| && !s.status[u.edge].Idle?
              && g.Producer(u.edge, u.pos) == Some(e)
  {
    assert g.EdgeOk(e);
    UsesFromMember(g, s, e, 0, u);
    if g.IsEdge(u.edge) && u.pos < |g.edges[u.edge].ins| {
      assert g.EdgeOk(u.edge);
      var n := g.edges[u.edge].ins[u.pos];
      assert g.NodeOk(n);
      if g.Producer(u.edge, u.pos) == Some(e) && !s.status[u.edge].Idle? {
        var k :| 0 <= k < |g.edges[e].outs| && g.edges[e].outs[k] == n;
        assert u in NodeUses(g, s, n);
      }
    }
    if k: nat :| k < |g.edges[e].outs| && u in NodeUses(g, s, g.edges[e].outs[k]) {
      var n := g.edges[e].outs[k];
      assert g.NodeOk(n);
      var i :| 0 <= i < |g.nodes[n].uses| && g.nodes[n].uses[i] == u;
      assert g.UseOk(n, g.nodes[n].uses[i]);
    }
  }

  lemma {:induction false} UsesFromMember(g: Graph, s: Sched, e: nat, k: nat, u: Use)
    requires g.IsEdge(e) && k <= |g.edges[e].outs|
    requires forall i :: 0 <= i < |g.edges[e].outs| ==> g.IsNode(g.edges[e].outs[i])
    ensures u in UsesFrom(g, s, e, k) <==>
              exists i: nat :: k <= i < |g.edges[e].outs| && u in NodeUses(g, s, g.edges[e].outs[i])
    decreases |g.edges[e].outs| - k
  {
    if k < |g.edges[e].outs| {
      UsesFromMember(g, s, e, k + 1, u);
    }
  }

  /** Dropping an edge all of whose counted inputs were pruned keeps the invariant. */
  lemma DropKeeps(g: Graph, s1: Sched, e: nat)
    requires g.WellFormed() && Shape(g, s1) && g.IsEdge(e) && s1.status[e].Waiting?
    requires forall f: nat :: g.IsEdge(f) ==>
      PlanAt(g, s1, f) && DeliveryAt(g, s1, f) && (f != e ==> CountersAt(g, s1, f))
    requires NodesOk(g, s1) && QueuesOk(g, s1) && TotalsOk(g, s1) && LogOk(g, s1)
    requires s1.got[e] == s1.block[e] && !s1.dirtyOut[e] && Counted(g, s1, e) == s1.block[e]
    ensures Inv(g, Drop(g, s1, e))
  {
    hide QueuesOk, TotalsOk, LogOk, PlanAt, DeliveryAt;
    var s2 := Drop(g, s1, e);
    forall f: nat | g.IsEdge(f) ensures PlanAt(g, s2, f) && CountersAt(g, s2, f) && DeliveryAt(g, s2, f) {
      PlanKept(g, s1, s2, f);
      SettleDelivery(g, s1, s2, e, f);
      SettleCounted(g, s1, s2, e, f);
    }
    SettleOpen(g, s1, s2, e);
    DropNodes(g, s1, e);
    DropQueues(g, s1, e);
    DropTotals(g, s1, e);
    DropLog(g, s1, e);
  }

  /** Edge `e` becomes settled, and the announcement of its outputs is under way. */
  ghost predicate Settles(g: Graph, s: Sched, s': Sched, e: nat) {
    && g.WellFormed() && SamePlan(g, s, s') && OnlyStatus(g, s, s', e)
    && !Settled(s.status[e]) && Settled(s'.status[e])
    && s'.got == s.got && s'.open == s.open + EdgeUses(g, s, e)
  }

  lemma SettleDelivery(g: Graph, s: Sched, s': Sched, e: nat, f: nat)
    requires Settles(g, s, s', e) && g.IsEdge(f) && DeliveryAt(g, s, f)
    requires forall v :: v in s.open ==> OpenOk(g, s, v)
    ensures DeliveryAt(g, s', f)
  {
    forall j: nat | j in s.block[f] && !s.status[f].Idle?
      ensures DeliveredOk(g, s', f, j)
    {
      assert DeliveredOk(g, s, f, j);
      EdgeUsesMember(g, s, e, Use(f, j));
    }
  }

  /** Marking the outputs of an unsettled edge as pruned affects no edge told so far. */
  lemma SettleCounted(g: Graph, s: Sched, s': Sched, e: nat, f: nat)
    requires Settles(g, s, s', e) && g.IsEdge(f) && DeliveryAt(g, s, f) && PlanAt(g, s, f)
    requires forall n: nat :: g.IsNode(n) && g.nodes[n].gen != Some(e) ==> s'.pruned[n] == s.pruned[n]
    ensures !s.status[f].Idle? ==> Counted(g, s', f) == Counted(g, s, f)
  {
    if !s.status[f].Idle? {
      forall j | j in s.got[f]
        ensures PrunedInput(g, s', f, j) == PrunedInput(g, s, f, j)
      {
        assert DeliveredOk(g, s, f, j);
        assert g.EdgeOk(f) && g.NodeOk(g.edges[f].ins[j]);
      }
      assert GotPruned(g, s', f) == GotPruned(g, s, f);
    }
  }

  lemma SettleOpen(g: Graph, s: Sched, s': Sched, e: nat)
    requires Settles(g, s, s', e)
    requires Active(s.status[e])
    requires forall f: nat :: g.IsEdge(f) ==> PlanAt(g, s, f)
    requires forall v :: v in s.open ==> OpenOk(g, s, v)
    ensures forall v :: v in s'.open ==> OpenOk(g, s', v)
  {
    forall v | v in s'.open ensures OpenOk(g, s', v) {
      if v in s.open {
        assert OpenOk(g, s, v);
      } else {
        EdgeUsesMember(g, s, e, v);
        assert PlanAt(g, s, v.edge);
        assert v.pos in Awaited(g, s, v.edge);
      }
    }
  }

  lemma DropNodes(g: Graph, s: Sched, e: nat)
    requires g.WellFormed() && Shape(g, s) && g.IsEdge(e) && s.status[e].Waiting?
    requires forall n: nat :: g.IsNode(n) ==> PrunedNodeOk(g, s, n)
    ensures forall n: nat :: g.IsNode(n) ==> PrunedNodeOk(g, Drop(g, s, e), n)
  {
    var s' := Drop(g, s, e);
    forall n: nat | g.IsNode(n) ensures PrunedNodeOk(g, s', n) {
      assert PrunedNodeOk(g, s, n) && g.NodeOk(n);
    }
  }

  lemma DropQueues(g: Graph, s: Sched, e: nat)
    requires g.WellFormed() && Shape(g, s) && g.IsEdge(e) && s.status[e].Waiting? && QueuesOk(g, s)
    ensures QueuesOk(g, Drop(g, s, e))
  {
    var s' := Drop(g, s, e);
    assert QueuedAt(g, s, e);
    forall f: nat ensures QueuedAt(g, s', f) {
      assert QueuedAt(g, s, f);
    }
    forall p: nat | p < |g.depth| ensures PoolOk(g, s', p) {
      assert PoolOk(g, s, p);
      OccupantsStep(g, s, s', e, p);
    }
  }

  lemma DropTotals(g: Graph, s: Sched, e: nat)
    requires g.WellFormed() && Shape(g, s) && g.IsEdge(e) && s.status[e].Waiting? && TotalsOk(g, s)
    ensures TotalsOk(g, Drop(g, s, e))
  {
    var s' := Drop(g, s, e);
    SameCommands(g, s, s');
    SameStarted(g, s, s');
    SameFinished(g, s, s');
    SameConsole(g, s, s');
  }

  lemma DropLog(g: Graph, s: Sched, e: nat)
    requires g.WellFormed() && Shape(g, s) && g.IsEdge(e) && s.status[e].Waiting? && LogOk(g, s)
    requires DeliveryAt(g, s, e) && s.got[e] == s.block[e]
    ensures LogOk(g, Drop(g, s, e))
  {
    var s' := Drop(g, s, e);
    forall j: nat | j in s.block[e]
      ensures j < |g.edges[e].ins| && g.Producer(e, j).Some? && Settled(s.status[g.Producer(e, j).value])
    {
      assert DeliveredOk(g, s, e, j);
    }
    FullyInformed(g, s, e, s'.log);
    assert LogAt(g, s, e);
    forall f: nat | LogAt(g, s, f) ensures LogAt(g, s', f) {
    }
    LogAppend(g, s, s', Dropped(e));
  }
}
