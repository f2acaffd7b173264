/** The steps of a samu build as functions on the scheduler's snapshot, and the proofs that
    each of them keeps the invariant of Schedule. */
module ScheduleSteps {
  import opened Wrappers
  import opened BuildGraph
  import opened Schedule

  // ---------------------------------------------------------------------------------------
  // The steps
  // ---------------------------------------------------------------------------------------

  /** Hands edge `e` to the work queue, or to its pool's queue if the pool is full. */
  function Enqueue(g: Graph, s: Sched, e: nat): (r: Sched)
    requires g.WellFormed() && Shape(g, s) && g.IsEdge(e)
    ensures Shape(g, r)
  {
    var pool := g.edges[e].pool;
    if pool.Some? && !g.edges[e].phony then
      assert g.EdgeOk(e);
      if s.numjobs[pool.value] == g.depth[pool.value] then
        s.(parked := s.parked[pool.value := [e] + s.parked[pool.value]],
           status := s.status[e := Parked], log := s.log + [Enqueued(e)])
      else
        s.(numjobs := s.numjobs[pool.value := s.numjobs[pool.value] + 1], ready := [e] + s.ready,
           status := s.status[e := Ready], log := s.log + [Enqueued(e)])
    else
      s.(ready := [e] + s.ready, status := s.status[e := Ready], log := s.log + [Enqueued(e)])
  }

  /** Tells edge `u.edge` that its input `u.pos` is settled: the counter updates of nodedone. */
  function Tell(g: Graph, s: Sched, u: Use, prune: bool): (r: Sched)
    requires Shape(g, s) && g.IsEdge(u.edge)
    requires s.nblock[u.edge] > 0 && (CountsPrune(s, u.edge, prune) ==> s.nprune[u.edge] > 0)
    ensures Shape(g, r)
  {
    var e := u.edge;
    var nprune := if CountsPrune(s, e, prune) then s.nprune[e := s.nprune[e] - 1] else s.nprune;
    var nblock := if LastPrune(s, e, prune) then s.nblock else s.nblock[e := s.nblock[e] - 1];
    s.(nprune := nprune, nblock := nblock, got := s.got[e := s.got[e] + {u.pos}], open := s.open - {u})
  }

  /** The announcement counts towards pruning the edge. */
  predicate CountsPrune(s: Sched, e: nat, prune: bool)
    requires e < |s.dirtyIn| && e < |s.dirtyOut|
  {
    if prune then !s.dirtyOut[e] else !Dirty(s, e)
  }

  predicate LastPrune(s: Sched, e: nat, prune: bool)
    requires e < |s.dirtyIn| && e < |s.dirtyOut| && e < |s.nprune|
  {
    CountsPrune(s, e, prune) && s.nprune[e] == 1
  }

  /** The uses of node `n` by edges that take part in the build. */
  function NodeUses(g: Graph, s: Sched, n: nat): set<Use>
    requires g.IsNode(n)
  {
    set u | u in g.nodes[n].uses && u.edge < |s.status| && !s.status[u.edge].Idle?
  }

  /** The uses of the outputs of `e` from the `k`-th on. */
  function UsesFrom(g: Graph, s: Sched, e: nat, k: nat): set<Use>
    requires g.IsEdge(e) && k <= |g.edges[e].outs|
    requires forall i :: 0 <= i < |g.edges[e].outs| ==> g.IsNode(g.edges[e].outs[i])
    decreases |g.edges[e].outs| - k
  {
    if k == |g.edges[e].outs| then {} else NodeUses(g, s, g.edges[e].outs[k]) + UsesFrom(g, s, e, k + 1)
  }

  function EdgeUses(g: Graph, s: Sched, e: nat): set<Use>
    requires g.WellFormed() && g.IsEdge(e)
  {
    assert g.EdgeOk(e);
    UsesFrom(g, s, e, 0)
  }

  /** Drops edge `e` from the build: its outputs are announced as pruned. */
  function Drop(g: Graph, s: Sched, e: nat): (r: Sched)
    requires g.WellFormed() && Shape(g, s) && g.IsEdge(e)
    ensures Shape(g, r)
  {
    s.(status := s.status[e := Pruned], open := s.open + EdgeUses(g, s, e),
       pruned := seq(|s.pruned|, n requires 0 <= n < |s.pruned| => s.pruned[n] || g.nodes[n].gen == Some(e)),
       owed := if Dirty(s, e) && !g.edges[e].phony then s.owed + {e} else s.owed,
       log := s.log + [Dropped(e)])
  }

  // ---------------------------------------------------------------------------------------
  // Sets of edges under a change of one status
  // ---------------------------------------------------------------------------------------

  lemma SetAdd(a: set<nat>, b: set<nat>, e: nat)
    requires e !in a && b == a + {e}
    ensures |b| == |a| + 1
  {
  }

  lemma SetRemove(a: set<nat>, b: set<nat>, e: nat)
    requires e in a && b == a - {e}
    ensures |b| == |a| - 1
  {
  }

  /** Only edge `e` changed status. */
  ghost predicate OnlyStatus(g: Graph, s: Sched, s': Sched, e: nat) {
    && Shape(g, s) && Shape(g, s') && g.IsEdge(e)
    && s'.status == s.status[e := s'.status[e]]
  }

  lemma OccupantsStep(g: Graph, s: Sched, s': Sched, e: nat, p: nat)
    requires OnlyStatus(g, s, s', e)
    ensures !InPool(g, e, p) || HoldsSlot(s.status[e]) == HoldsSlot(s'.status[e]) ==>
      Occupants(g, s', p) == Occupants(g, s, p)
    ensures InPool(g, e, p) && !HoldsSlot(s.status[e]) && HoldsSlot(s'.status[e]) ==>
              |Occupants(g, s', p)| == |Occupants(g, s, p)| + 1
    ensures InPool(g, e, p) && HoldsSlot(s.status[e]) && !HoldsSlot(s'.status[e]) ==>
              |Occupants(g, s', p)| == |Occupants(g, s, p)| - 1
  {
    var a, b := Occupants(g, s, p), Occupants(g, s', p);
    if !InPool(g, e, p) || HoldsSlot(s.status[e]) == HoldsSlot(s'.status[e]) {
      assert a == b;
    } else if HoldsSlot(s'.status[e]) {
      SetAdd(a, b, e);
    } else {
      SetRemove(a, b, e);
    }
  }

  lemma SameCommands(g: Graph, s: Sched, s': Sched)
    requires Shape(g, s) && Shape(g, s') && s'.dirtyIn == s.dirtyIn && s'.dirtyOut == s.dirtyOut
    requires forall e: nat {:trigger s'.status[e]} :: g.IsEdge(e) && !g.edges[e].phony && Dirty(s, e) ==>
               && Active(s'.status[e]) == Active(s.status[e])
               && (s.status[e].Pruned? && e !in s.owed <==> s'.status[e].Pruned? && e !in s'.owed)
    ensures Commands(g, s') == Commands(g, s)
  {
  }

  lemma SameStarted(g: Graph, s: Sched, s': Sched)
    requires Shape(g, s) && Shape(g, s')
    requires forall e: nat {:trigger s'.status[e]} :: g.IsEdge(e) && !g.edges[e].phony ==>
               WasStarted(s'.status[e]) == WasStarted(s.status[e])
    ensures StartedCommands(g, s') == StartedCommands(g, s)
  {
  }

  lemma SameFinished(g: Graph, s: Sched, s': Sched)
    requires Shape(g, s) && Shape(g, s')
    requires forall e: nat {:trigger s'.status[e]} :: g.IsEdge(e) && !g.edges[e].phony ==>
               (s'.status[e].Done? || s'.status[e].Failed? <==> s.status[e].Done? || s.status[e].Failed?)
    ensures FinishedCommands(g, s') == FinishedCommands(g, s)
  {
  }

  lemma SameConsole(g: Graph, s: Sched, s': Sched)
    requires Shape(g, s) && Shape(g, s')
    requires forall e: nat {:trigger s'.status[e]} :: g.IsEdge(e) ==> s'.status[e].Running? == s.status[e].Running?
    ensures ConsoleBusy(g, s') == ConsoleBusy(g, s)
  {
    if ConsoleBusy(g, s) {
      var e: nat :| g.IsEdge(e) && InPool(g, e, CONSOLE) && s.status[e].Running?;
      assert s'.status[e].Running?;
    }
  }

  // ---------------------------------------------------------------------------------------
  // Queues
  // ---------------------------------------------------------------------------------------

  lemma Prepend(x: nat, q: seq<nat>)
    ensures forall y :: y in [x] + q <==> y == x || y in q
    ensures NoDuplicates(q) && x !in q ==> NoDuplicates([x] + q)
  {
  }

  lemma EnqueueQueues(g: Graph, s: Sched, e: nat)
    requires g.WellFormed() && Shape(g, s) && g.IsEdge(e) && QueuesOk(g, s)
    requires s.status[e].Idle? || s.status[e].Waiting?
    ensures QueuesOk(g, Enqueue(g, s, e))
  {
    assert g.EdgeOk(e) && QueuedAt(g, s, e);
    var s' := Enqueue(g, s, e);
    Prepend(e, s.ready);
    forall f: nat ensures QueuedAt(g, s', f) {
      assert QueuedAt(g, s, f);
    }
    forall p: nat | p < |g.depth| ensures PoolOk(g, s', p) {
      EnqueuePool(g, s, e, p);
    }
  }

  lemma EnqueuePool(g: Graph, s: Sched, e: nat, p: nat)
    requires g.WellFormed() && Shape(g, s) && g.IsEdge(e) && p < |g.depth| && PoolOk(g, s, p)
    requires s.status[e].Idle? || s.status[e].Waiting?
    ensures PoolOk(g, Enqueue(g, s, e), p)
  {
    assert g.EdgeOk(e);
    var s' := Enqueue(g, s, e);
    Prepend(e, s.parked[p]);
    OccupantsStep(g, s, s', e, p);
  }

  // ---------------------------------------------------------------------------------------
  // Plan and history under any step
  // ---------------------------------------------------------------------------------------

  /** A step that does not change which edges take part and what they wait for. */
  ghost predicate SamePlan(g: Graph, s: Sched, s': Sched) {
    && Shape(g, s) && Shape(g, s')
    && s'.dirtyIn == s.dirtyIn && s'.dirtyOut == s.dirtyOut && s'.block == s.block
    && s'.rank == s.rank && s'.clock == s.clock
    && (forall e: nat :: g.IsEdge(e) ==>
          (s'.status[e].Idle? == s.status[e].Idle?) && (s'.status[e].Clean? == s.status[e].Clean?))
  }

  lemma PlanKept(g: Graph, s: Sched, s': Sched, e: nat)
    requires g.WellFormed() && SamePlan(g, s, s') && g.IsEdge(e) && PlanAt(g, s, e)
    ensures PlanAt(g, s', e)
  {
    if !s.status[e].Idle? {
      assert Awaited(g, s', e) == Awaited(g, s, e);
      forall j: nat | j < |g.edges[e].ins| ensures InputPlanned(g, s', e, j) {
        assert InputPlanned(g, s, e, j);
      }
      assert g.EdgeOk(e);
      forall j: nat | j < g.edges[e].inorder
        ensures DirtyInput(g, s', e, j) == DirtyInput(g, s, e, j)
      {
      }
    }
  }

  lemma EventKept(g: Graph, s: Sched, s': Sched, i: nat)
    requires g.WellFormed() && SamePlan(g, s, s') && s.log <= s'.log && i < |s.log| && EventOk(g, s, i)
    ensures EventOk(g, s', i)
  {
    assert s'.log[..i] == s.log[..i];
    assert s'.log[i] == s.log[i];
  }

  /** Appending one event that is not yet in the history. */
  lemma LogAppend(g: Graph, s: Sched, s': Sched, ev: Event)
    requires g.WellFormed() && SamePlan(g, s, s') && LogOk(g, s)
    requires s'.log == s.log + [ev] && ev !in s.log
    requires EventOk(g, s', |s.log|)
    requires forall e: nat :: LogAt(g, s, e) ==> LogAt(g, s', e)
    ensures LogOk(g, s')
  {
    forall i | 0 <= i < |s'.log| ensures EventOk(g, s', i) {
      if i < |s.log| {
        EventKept(g, s, s', i);
      }
    }
  }

  /** An edge that was told about everything it waits for may be recorded as queued or dropped. */
  lemma FullyInformed(g: Graph, s: Sched, e: nat, log: seq<Event>)
    requires g.WellFormed() && Shape(g, s) && LogOk(g, s) && g.IsEdge(e)
    requires forall j: nat :: j in s.block[e] ==>
               j < |g.edges[e].ins| && g.Producer(e, j).Some? && Settled(s.status[g.Producer(e, j).value])
    requires s.log <= log
    ensures Informed(g, s.(log := log), |s.log|, e)
  {
    assert log[..|s.log|] == s.log;
    forall j: nat | j in s.block[e] && j < |g.edges[e].ins| && g.Producer(e, j).Some?
      ensures SettledBy(s.log, g.Producer(e, j).value)
    {
      assert LogAt(g, s, g.Producer(e, j).value);
    }
  }

  // ---------------------------------------------------------------------------------------
  // Telling an edge about one input
  // ---------------------------------------------------------------------------------------

  /** An edge that is about to be told about an input is waiting, and no counter underflows. */
  lemma TellFacts(g: Graph, s: Sched, u: Use, prune: bool)
    requires Inv(g, s) && u in s.open
    ensures g.IsEdge(u.edge) && s.status[u.edge].Waiting?
    ensures u.pos in s.block[u.edge] && u.pos !in s.got[u.edge] && u.pos < |g.edges[u.edge].ins|
    ensures s.nblock[u.edge] > 0
    ensures !s.dirtyOut[u.edge] ==> s.nprune[u.edge] > 0
  {
    var e := u.edge;
    assert OpenOk(g, s, u);
    assert PlanAt(g, s, e) && CountersAt(g, s, e) && DeliveryAt(g, s, e);
    assert DeliveredOk(g, s, e, u.pos);
    assert Counted(g, s, e) <= s.got[e];
    Subset(s.got[e], s.block[e]);
    Subset(Counted(g, s, e), s.got[e]);
  }

  lemma Subset(a: set<nat>, b: set<nat>)
    requires a <= b
    ensures |a| <= |b|
    ensures a < b ==> |a| < |b|
  {
    if a != {} {
      var x :| x in a;
      Subset(a - {x}, b - {x});
    } else if b != {} {
      var x :| x in b;
    }
  }
}
