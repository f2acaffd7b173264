/** Starting a job, finishing it and announcing its outputs keep the invariant of Schedule. */
module ScheduleJobs {
  import opened Wrappers
  import opened BuildGraph
  import opened Schedule
  import opened ScheduleSteps
  import opened ScheduleTell

  // ---------------------------------------------------------------------------------------
  // The steps
  // ---------------------------------------------------------------------------------------

  /** Takes the first ready edge, which has a command, and starts it. */
  function Begin(g: Graph, s: Sched, ok: bool): (r: Sched)
    requires Shape(g, s) && s.ready != [] && g.IsEdge(s.ready[0])
    ensures Shape(g, r)
  {
    var e := s.ready[0];
    s.(ready := s.ready[1..], nstarted := s.nstarted + 1,
       console := s.console || (ok && g.edges[e].pool == Some(CONSOLE)),
       status := s.status[e := if ok then Running else Stuck],
       log := s.log + if ok then [Started(e)] else [Started(e), Broke(e)])
  }

  /** Takes the first ready edge, which is phony, and considers it done. */
  function Skip(g: Graph, s: Sched): (r: Sched)
    requires g.WellFormed() && Shape(g, s) && s.ready != [] && g.IsEdge(s.ready[0])
    ensures Shape(g, r)
  {
    var e := s.ready[0];
    s.(ready := s.ready[1..], status := s.status[e := Done],
       open := s.open + EdgeUses(g, s, e), log := s.log + [Finished(e)])
  }

  /** Passes the pool slot of a finished job on to an edge parked in its pool, if any. */
  function PassOn(g: Graph, s: Sched, e: nat): (r: Sched)
    requires g.WellFormed() && Shape(g, s) && g.IsEdge(e)
    requires g.edges[e].pool.Some? ==>
               s.numjobs[PoolIndex(g, e)] > 0 && forall f | f in s.parked[PoolIndex(g, e)] :: g.IsEdge(f)
    ensures Shape(g, r)
  {
    if g.edges[e].pool.None? then s
    else
      var p := PoolIndex(g, e);
      var s1 := s.(console := s.console && p != CONSOLE);
      if s.parked[p] != [] then
        assert s.parked[p][0] in s.parked[p] && g.IsEdge(s.parked[p][0]);
        s1.(ready := [s.parked[p][0]] + s.ready, parked := s.parked[p := s.parked[p][1..]],
            status := s.status[s.parked[p][0] := Ready])
      else
        s1.(numjobs := s.numjobs[p := s.numjobs[p] - 1])
  }

  function PoolIndex(g: Graph, e: nat): (p: nat)
    requires g.WellFormed() && g.IsEdge(e) && g.edges[e].pool.Some?
    ensures p < |g.depth|
  {
    assert g.EdgeOk(e);
    g.edges[e].pool.value
  }

  /** The job of edge `e` ends. */
  function End(g: Graph, s: Sched, e: nat, ok: bool): (r: Sched)
    requires g.WellFormed() && Shape(g, s) && g.IsEdge(e)
    ensures Shape(g, r)
  {
    s.(nfinished := s.nfinished + 1, status := s.status[e := if ok then Done else Failed],
       open := if ok then s.open + EdgeUses(g, s, e) else s.open,
       log := s.log + [if ok then Finished(e) else Broke(e)])
  }

  /** A rebuilt output turned out unchanged. */
  function MarkPruned(g: Graph, s: Sched, n: nat): (r: Sched)
    requires Shape(g, s) && g.IsNode(n)
    ensures Shape(g, r)
  {
    s.(pruned := s.pruned[n := true])
  }

  // ---------------------------------------------------------------------------------------
  // Edges and nodes
  // ---------------------------------------------------------------------------------------

  /** A step that settles no edge and releases none from waiting leaves every edge as it was. */
  lemma QuietStep(g: Graph, s: Sched, s': Sched)
    requires g.WellFormed() && SamePlan(g, s, s') && EdgesOk(g, s) && NodesOk(g, s)
    requires s'.nblock == s.nblock && s'.nprune == s.nprune && s'.got == s.got
    requires s'.pruned == s.pruned && s'.open == s.open
    requires forall e: nat {:trigger s'.status[e]} :: g.IsEdge(e) ==> SameKind(s.status[e], s'.status[e])
    ensures EdgesOk(g, s') && NodesOk(g, s')
  {
    UnsettledOpen(g, s, s');
    forall e: nat | g.IsEdge(e) ensures PlanAt(g, s', e) && CountersAt(g, s', e) && DeliveryAt(g, s', e) {
      assert PlanAt(g, s, e) && CountersAt(g, s, e) && DeliveryAt(g, s, e);
      PlanKept(g, s, s', e);
      SameCounted(g, s, s', e);
      UnsettledDelivery(g, s, s', e);
    }
  }

  predicate SameKind(a: Status, b: Status) {
    || a == b
    || (WasQueued(a) && WasQueued(b) && !a.Done? && !b.Done?)
  }

  /** An edge that was queued is done. */
  lemma DoneStep(g: Graph, s: Sched, s': Sched, e: nat)
    requires Settles(g, s, s', e) && EdgesOk(g, s) && NodesOk(g, s)
    requires WasQueued(s.status[e]) && s'.status[e].Done?
    requires s'.nblock == s.nblock && s'.nprune == s.nprune && s'.pruned == s.pruned
    ensures EdgesOk(g, s') && NodesOk(g, s')
  {
    hide QueuesOk, TotalsOk, LogOk;
    hide PlanAt, CountersAt, DeliveryAt, OpenOk, PrunedNodeOk;
    forall f: nat | g.IsEdge(f) ensures PlanAt(g, s', f) && CountersAt(g, s', f) && DeliveryAt(g, s', f) {
      DoneEdge(g, s, s', e, f);
    }
    assert PlanAt(g, s, e);
    QueuedIsActive(s.status[e]);
    SettleOpen(g, s, s', e);
    forall n: nat | g.IsNode(n) ensures PrunedNodeOk(g, s', n) {
      DoneNode(g, s, s', e, n);
    }
  }

  lemma QueuedIsActive(st: Status)
    requires WasQueued(st)
    ensures Active(st)
  {
  }

  lemma DoneEdge(g: Graph, s: Sched, s': Sched, e: nat, f: nat)
    requires Settles(g, s, s', e) && EdgesOk(g, s) && NodesOk(g, s) && g.IsEdge(f)
    requires WasQueued(s.status[e]) && s'.status[e].Done?
    requires s'.nblock == s.nblock && s'.nprune == s.nprune && s'.pruned == s.pruned
    ensures PlanAt(g, s', f) && CountersAt(g, s', f) && DeliveryAt(g, s', f)
  {
    hide QueuesOk, TotalsOk, LogOk, PlanAt, DeliveryAt, OpenOk, PrunedNodeOk, Counted;
    assert PlanAt(g, s, f) && CountersAt(g, s, f) && DeliveryAt(g, s, f);
    PlanKept(g, s, s', f);
    SameCounted(g, s, s', f);
    SettleDelivery(g, s, s', e, f);
  }

  lemma DoneNode(g: Graph, s: Sched, s': Sched, e: nat, n: nat)
    requires Settles(g, s, s', e) && NodesOk(g, s) && g.IsNode(n)
    requires WasQueued(s.status[e]) && s'.status[e].Done? && s'.pruned == s.pruned
    ensures PrunedNodeOk(g, s', n)
  {
    hide OpenOk;
    assert PrunedNodeOk(g, s, n) && g.NodeOk(n);
  }

  // ---------------------------------------------------------------------------------------
  // Starting
  // ---------------------------------------------------------------------------------------

  lemma PopReady(q: seq<nat>)
    requires q != [] && NoDuplicates(q)
    ensures NoDuplicates(q[1..]) && (forall y :: y in q[1..] <==> y in q && y != q[0])
  {
    assert q == [q[0]] + q[1..];
  }

  /** The head of the work queue is a ready edge. */
  lemma HeadFacts(g: Graph, s: Sched)
    requires g.WellFormed() && Shape(g, s) && QueuesOk(g, s) && s.ready != []
    ensures g.IsEdge(s.ready[0]) && s.status[s.ready[0]].Ready?
  {
    assert s.ready[0] in s.ready;
    assert QueuedAt(g, s, s.ready[0]);
  }

  /** Taking the head of the work queue off it, into any state that keeps its pool slot or,
      for an edge without one, into any state outside the queues. */
  lemma TakeQueues(g: Graph, s: Sched, s': Sched)
    requires g.WellFormed() && Shape(g, s) && Shape(g, s') && QueuesOk(g, s) && s.ready != []
    requires s'.ready == s.ready[1..] && s'.parked == s.parked && s'.numjobs == s.numjobs
    requires OnlyStatus(g, s, s', s.ready[0]) && !s'.status[s.ready[0]].Ready? && !s'.status[s.ready[0]].Parked?
    requires g.edges[s.ready[0]].phony || HoldsSlot(s'.status[s.ready[0]])
    ensures QueuesOk(g, s')
  {
    HeadFacts(g, s);
    PopReady(s.ready);
    var e := s.ready[0];
    forall f: nat ensures QueuedAt(g, s', f) {
      assert QueuedAt(g, s, f);
    }
    forall p: nat | p < |g.depth| ensures PoolOk(g, s', p) {
      assert PoolOk(g, s, p);
      OccupantsStep(g, s, s', e, p);
    }
  }

  lemma BeginKeeps(g: Graph, s: Sched, ok: bool)
    requires Inv(g, s) && s.ready != [] && g.IsEdge(s.ready[0]) && !g.edges[s.ready[0]].phony
    ensures Inv(g, Begin(g, s, ok))
  {
    HeadFacts(g, s);
    var s' := Begin(g, s, ok);
    QuietStep(g, s, s');
    TakeQueues(g, s, s');
    BeginTotals(g, s, ok);
    BeginLog(g, s, ok);
  }

  lemma BeginTotals(g: Graph, s: Sched, ok: bool)
    requires g.WellFormed() && Shape(g, s) && TotalsOk(g, s)
    requires s.ready != [] && g.IsEdge(s.ready[0]) && !g.edges[s.ready[0]].phony && s.status[s.ready[0]].Ready?
    ensures TotalsOk(g, Begin(g, s, ok))
  {
    hide ConsoleBusy, Commands, StartedCommands, FinishedCommands;
    var e, s' := s.ready[0], Begin(g, s, ok);
    SameCommands(g, s, s');
    OneMoreStarted(g, s, s', e);
    SameFinished(g, s, s');
    BeginConsole(g, s, ok);
  }

  lemma OneMoreStarted(g: Graph, s: Sched, s': Sched, e: nat)
    requires OnlyStatus(g, s, s', e) && !g.edges[e].phony && !WasStarted(s.status[e]) && WasStarted(s'.status[e])
    ensures |StartedCommands(g, s')| == |StartedCommands(g, s)| + 1
  {
    SetAdd(StartedCommands(g, s), StartedCommands(g, s'), e);
  }

  lemma OneMoreFinished(g: Graph, s: Sched, s': Sched, e: nat)
    requires Shape(g, s) && Shape(g, s') && g.IsEdge(e) && !g.edges[e].phony
    requires !s.status[e].Done? && !s.status[e].Failed? && (s'.status[e].Done? || s'.status[e].Failed?)
    requires forall f: nat {:trigger s'.status[f]} :: g.IsEdge(f) && f != e ==>
               (s'.status[f].Done? || s'.status[f].Failed? <==> s.status[f].Done? || s.status[f].Failed?)
    ensures |FinishedCommands(g, s')| == |FinishedCommands(g, s)| + 1
  {
    SetAdd(FinishedCommands(g, s), FinishedCommands(g, s'), e);
  }

  lemma BeginConsole(g: Graph, s: Sched, ok: bool)
    requires Shape(g, s) && (s.console <==> ConsoleBusy(g, s))
    requires s.ready != [] && g.IsEdge(s.ready[0]) && !g.edges[s.ready[0]].phony && s.status[s.ready[0]].Ready?
    ensures Begin(g, s, ok).console <==> ConsoleBusy(g, Begin(g, s, ok))
  {
    var e, s' := s.ready[0], Begin(g, s, ok);
    if s.console {
      var f: nat :| g.IsEdge(f) && InPool(g, f, CONSOLE) && s.status[f].Running?;
      assert s'.status[f].Running?;
    } else if s'.console {
      assert InPool(g, e, CONSOLE) && s'.status[e].Running?;
    } else {
      forall f: nat | g.IsEdge(f) && InPool(g, f, CONSOLE) ensures !s'.status[f].Running? {
        assert !s.status[f].Running?;
      }
    }
  }

  lemma BeginLog(g: Graph, s: Sched, ok: bool)
    requires g.WellFormed() && Shape(g, s) && LogOk(g, s)
    requires s.ready != [] && g.IsEdge(s.ready[0]) && !g.edges[s.ready[0]].phony && s.status[s.ready[0]].Ready?
    ensures LogOk(g, Begin(g, s, ok))
  {
    hide EventOk;
    var e := s.ready[0];
    var s1 := s.(status := s.status[e := Running], log := s.log + [Started(e)]);
    StartLog(g, s, s1, e);
    if ok {
      SameLog(g, s1, Begin(g, s, ok));
    } else {
      var s2 := s1.(status := s1.status[e := Stuck], log := s1.log + [Broke(e)]);
      BreakLog(g, s1, s2, e);
      assert Begin(g, s, ok).log == s2.log;
      SameLog(g, s2, Begin(g, s, ok));
    }
  }

  lemma StartLog(g: Graph, s: Sched, s': Sched, e: nat)
    requires g.WellFormed() && SamePlan(g, s, s') && OnlyStatus(g, s, s', e) && LogOk(g, s)
    requires s.status[e].Ready? && s'.status[e].Running? && !g.edges[e].phony
    requires s'.log == s.log + [Started(e)]
    ensures LogOk(g, s')
  {
    assert LogAt(g, s, e);
    assert s'.log[..|s.log|] == s.log;
    assert EventOk(g, s', |s.log|);
    hide EventOk;
    forall f: nat | LogAt(g, s, f) ensures LogAt(g, s', f) {
    }
    LogAppend(g, s, s', Started(e));
  }

  lemma BreakLog(g: Graph, s: Sched, s': Sched, e: nat)
    requires g.WellFormed() && SamePlan(g, s, s') && OnlyStatus(g, s, s', e) && LogOk(g, s)
    requires s.status[e].Running? && (s'.status[e].Stuck? || s'.status[e].Failed?) && !g.edges[e].phony
    requires s'.log == s.log + [Broke(e)]
    ensures LogOk(g, s')
  {
    assert LogAt(g, s, e);
    assert s'.log[..|s.log|] == s.log;
    assert EventOk(g, s', |s.log|);
    hide EventOk;
    forall f: nat | LogAt(g, s, f) ensures LogAt(g, s', f) {
    }
    LogAppend(g, s, s', Broke(e));
  }

  lemma FinishLog(g: Graph, s: Sched, s': Sched, e: nat)
    requires g.WellFormed() && SamePlan(g, s, s') && OnlyStatus(g, s, s', e) && LogOk(g, s)
    requires s'.status[e].Done? && (if g.edges[e].phony then s.status[e].Ready? else s.status[e].Running?)
    requires s'.log == s.log + [Finished(e)]
    ensures LogOk(g, s')
  {
    assert LogAt(g, s, e);
    assert s'.log[..|s.log|] == s.log;
    assert EventOk(g, s', |s.log|);
    hide EventOk;
    forall f: nat | LogAt(g, s, f) ensures LogAt(g, s', f) {
    }
    LogAppend(g, s, s', Finished(e));
  }

  lemma SkipKeeps(g: Graph, s: Sched)
    requires Inv(g, s) && s.ready != [] && g.IsEdge(s.ready[0]) && g.edges[s.ready[0]].phony
    ensures Inv(g, Skip(g, s))
  {
    hide EdgesOk, NodesOk, TotalsOk, LogOk;
    HeadFacts(g, s);
    var e, s' := s.ready[0], Skip(g, s);
    DoneStep(g, s, s', e);
    TakeQueues(g, s, s');
    SkipTotals(g, s);
    FinishLog(g, s, s', e);
  }

  lemma SkipTotals(g: Graph, s: Sched)
    requires g.WellFormed() && Shape(g, s) && TotalsOk(g, s)
    requires s.ready != [] && g.IsEdge(s.ready[0]) && g.edges[s.ready[0]].phony && s.status[s.ready[0]].Ready?
    ensures TotalsOk(g, Skip(g, s))
  {
    var s' := Skip(g, s);
    SameCommands(g, s, s');
    SameStarted(g, s, s');
    SameFinished(g, s, s');
    SameConsole(g, s, s');
  }

  // ---------------------------------------------------------------------------------------
  // Finishing
  // ---------------------------------------------------------------------------------------

  /** A running edge with a pool holds one of its slots. */
  lemma SlotFacts(g: Graph, s: Sched, e: nat)
    requires g.WellFormed() && Shape(g, s) && QueuesOk(g, s) && g.IsEdge(e) && s.status[e].Running?
    requires !g.edges[e].phony && g.edges[e].pool.Some?
    ensures s.numjobs[PoolIndex(g, e)] > 0
    ensures forall f | f in s.parked[PoolIndex(g, e)] ::
              g.IsEdge(f) && s.status[f].Parked? && InPool(g, f, PoolIndex(g, e))
  {
    var p := PoolIndex(g, e);
    assert PoolOk(g, s, p);
    assert e in Occupants(g, s, p);
  }

  /** The state after the job of a running edge has ended, before its outputs are announced. */
  function JobEnd(g: Graph, s: Sched, e: nat, ok: bool): (r: Sched)
    requires g.WellFormed() && Shape(g, s) && QueuesOk(g, s) && g.IsEdge(e)
    requires s.status[e].Running? && !g.edges[e].phony
    ensures Shape(g, r)
  {
    if g.edges[e].pool.Some? then SlotFacts(g, s, e); End(g, PassOn(g, s, e), e, ok)
    else End(g, s, e, ok)
  }

  lemma JobEndKeeps(g: Graph, s: Sched, e: nat, ok: bool)
    requires Inv(g, s) && g.IsEdge(e) && s.status[e].Running? && !g.edges[e].phony
    ensures Inv(g, JobEnd(g, s, e, ok))
  {
    hide EdgesOk, NodesOk, TotalsOk, LogOk;
    var s' := JobEnd(g, s, e, ok);
    JobEndEdges(g, s, e, ok);
    forall p: nat | p < |g.depth| ensures PoolOk(g, s', p) {
      JobEndPool(g, s, e, ok, p);
    }
    JobEndReady(g, s, e, ok);
    JobEndTotals(g, s, e, ok);
    JobEndLog(g, s, e, ok);
  }

  /** Passing on a slot turns a parked edge into a ready one and changes nothing else about edges. */
  lemma PassOnFrame(g: Graph, s: Sched, e: nat)
    requires g.WellFormed() && Shape(g, s) && QueuesOk(g, s) && g.IsEdge(e)
    requires s.status[e].Running? && !g.edges[e].phony && g.edges[e].pool.Some?
    ensures s.numjobs[PoolIndex(g, e)] > 0 && forall f | f in s.parked[PoolIndex(g, e)] :: g.IsEdge(f)
    ensures var s1 := PassOn(g, s, e);
            && SamePlan(g, s, s1) && s1.status[e].Running?
            && s1 == s.(console := s1.console, ready := s1.ready, parked := s1.parked, numjobs := s1.numjobs,
              status := s1.status)
            && (forall f: nat {:trigger s1.status[f]} :: g.IsEdge(f) ==>
                  s1.status[f] == s.status[f] || (s.status[f].Parked? && s1.status[f].Ready?))
  {
    SlotFacts(g, s, e);
  }

  lemma JobEndEdges(g: Graph, s: Sched, e: nat, ok: bool)
    requires g.WellFormed() && Shape(g, s) && QueuesOk(g, s) && EdgesOk(g, s) && NodesOk(g, s)
    requires g.IsEdge(e) && s.status[e].Running? && !g.edges[e].phony
    ensures EdgesOk(g, JobEnd(g, s, e, ok)) && NodesOk(g, JobEnd(g, s, e, ok))
  {
    hide EdgesOk, NodesOk, QueuesOk, PassOn;
    var s1 := s;
    if g.edges[e].pool.Some? {
      PassOnFrame(g, s, e);
      s1 := PassOn(g, s, e);
      QuietStep(g, s, s1);
    }
    var s' := End(g, s1, e, ok);
    if ok {
      UsesStable(g, s, s1, e);
      DoneStep(g, s1, s', e);
    } else {
      QuietStep(g, s1, s');
    }
  }

  lemma UsesStable(g: Graph, s: Sched, s': Sched, e: nat)
    requires g.WellFormed() && SamePlan(g, s, s') && g.IsEdge(e)
    ensures EdgeUses(g, s', e) == EdgeUses(g, s, e)
  {
    assert g.EdgeOk(e);
    UsesFromStable(g, s, s', e, 0);
  }

  lemma {:induction false} UsesFromStable(g: Graph, s: Sched, s': Sched, e: nat, k: nat)
    requires g.WellFormed() && SamePlan(g, s, s') && g.IsEdge(e) && k <= |g.edges[e].outs|
    requires forall i :: 0 <= i < |g.edges[e].outs| ==> g.IsNode(g.edges[e].outs[i])
    ensures UsesFrom(g, s', e, k) == UsesFrom(g, s, e, k)
    decreases |g.edges[e].outs| - k
  {
    if k < |g.edges[e].outs| {
      assert NodeUses(g, s', g.edges[e].outs[k]) == NodeUses(g, s, g.edges[e].outs[k]);
      UsesFromStable(g, s, s', e, k + 1);
    }
  }

  lemma JobEndReady(g: Graph, s: Sched, e: nat, ok: bool)
    requires g.WellFormed() && Shape(g, s) && QueuesOk(g, s)
    requires g.IsEdge(e) && s.status[e].Running? && !g.edges[e].phony
    ensures var s' := JobEnd(g, s, e, ok); NoDuplicates(s'.ready) && forall f: nat :: QueuedAt(g, s', f)
  {
    var s' := JobEnd(g, s, e, ok);
    if g.edges[e].pool.Some? && s.parked[PoolIndex(g, e)] != [] {
      SlotFacts(g, s, e);
      var next := s.parked[PoolIndex(g, e)][0];
      assert next in s.parked[PoolIndex(g, e)];
      assert QueuedAt(g, s, next);
      Prepend(next, s.ready);
    }
    forall f: nat ensures QueuedAt(g, s', f) {
      assert QueuedAt(g, s, f);
    }
  }

  lemma JobEndPool(g: Graph, s: Sched, e: nat, ok: bool, p: nat)
    requires g.WellFormed() && Shape(g, s) && QueuesOk(g, s) && p < |g.depth|
    requires g.IsEdge(e) && s.status[e].Running? && !g.edges[e].phony
    ensures PoolOk(g, JobEnd(g, s, e, ok), p)
  {
    hide QueuesOk, Occupants, PassOn;
    var s1 := s;
    assert PoolOk(g, s, p) by { PoolsOk(g, s, p); }
    if g.edges[e].pool.Some? {
      PoolsOk(g, s, PoolIndex(g, e));
      PassOnFrame(g, s, e);
      s1 := PassOn(g, s, e);
      PassOnPool(g, s, e, p);
    }
    OccupantsStep(g, s1, End(g, s1, e, ok), e, p);
  }

  lemma PoolsOk(g: Graph, s: Sched, p: nat)
    requires g.WellFormed() && Shape(g, s) && QueuesOk(g, s) && p < |g.depth|
    ensures PoolOk(g, s, p)
  {
  }

  /** A pool after the slot of `e` was passed on, while `e` still counts as running. */
  lemma PassOnPool(g: Graph, s: Sched, e: nat, p: nat)
    requires g.WellFormed() && Shape(g, s) && QueuesOk(g, s) && p < |g.depth|
    requires g.IsEdge(e) && s.status[e].Running? && !g.edges[e].phony && g.edges[e].pool.Some?
    requires s.numjobs[PoolIndex(g, e)] > 0 && forall f | f in s.parked[PoolIndex(g, e)] :: g.IsEdge(f)
    ensures var s1 := PassOn(g, s, e);
            && NoDuplicates(s1.parked[p])
            && (forall f: nat {:trigger f in s1.parked[p]} :: f in s1.parked[p] <==>
              g.IsEdge(f) && InPool(g, f, p) && s1.status[f].Parked?)
            && s1.numjobs[p] <= g.depth[p]
            && s1.numjobs[p] == |Occupants(g, s1, p)| - (if InPool(g, e, p) then 1 else 0)
            && (s1.parked[p] != [] ==> s1.numjobs[p] == g.depth[p])
  {
    hide QueuesOk;
    var q, s1 := PoolIndex(g, e), PassOn(g, s, e);
    PoolsOk(g, s, p);
    PoolsOk(g, s, q);
    if s.parked[q] != [] {
      var next := s.parked[q][0];
      assert next in s.parked[q];
      PopReady(s.parked[q]);
      OccupantsStep(g, s, s1, next, p);
    } else {
      assert Occupants(g, s1, p) == Occupants(g, s, p);
    }
  }

  lemma JobEndTotals(g: Graph, s: Sched, e: nat, ok: bool)
    requires g.WellFormed() && Shape(g, s) && QueuesOk(g, s) && TotalsOk(g, s)
    requires g.IsEdge(e) && s.status[e].Running? && !g.edges[e].phony
    ensures TotalsOk(g, JobEnd(g, s, e, ok))
  {
    hide QueuesOk, ConsoleBusy, JobEnd, Commands, StartedCommands, FinishedCommands;
    var s' := JobEnd(g, s, e, ok);
    JobEndKinds(g, s, e, ok);
    SameCommands(g, s, s');
    SameStarted(g, s, s');
    OneMoreFinished(g, s, s', e);
    JobEndConsole(g, s, e, ok);
  }

  /** The ended job and at most one edge passed from its pool's queue change status. */
  lemma JobEndKinds(g: Graph, s: Sched, e: nat, ok: bool)
    requires g.WellFormed() && Shape(g, s) && QueuesOk(g, s)
    requires g.IsEdge(e) && s.status[e].Running? && !g.edges[e].phony
    ensures var s' := JobEnd(g, s, e, ok);
            && s'.status[e] == (if ok then Done else Failed)
            && s'.ntotal == s.ntotal && s'.nstarted == s.nstarted && s'.nfinished == s.nfinished + 1
            && s'.owed == s.owed && s'.dirtyIn == s.dirtyIn && s'.dirtyOut == s.dirtyOut
            && s'.pruned == s.pruned && SamePlan(g, s, s')
            && s'.open == (if ok then s.open + EdgeUses(g, s, e) else s.open)
            && s'.log == s.log + [if ok then Finished(e) else Broke(e)]
            && (forall f: nat {:trigger s'.status[f]} :: g.IsEdge(f) && f != e ==>
                  s'.status[f] == s.status[f] || (s.status[f].Parked? && s'.status[f].Ready?))
  {
    if g.edges[e].pool.Some? {
      PassOnFrame(g, s, e);
      UsesStable(g, s, PassOn(g, s, e), e);
    }
  }

  /** The program's variables after a job has ended. */
  lemma JobEndVariables(g: Graph, s: Sched, e: nat, ok: bool)
    requires g.WellFormed() && Shape(g, s) && QueuesOk(g, s)
    requires g.IsEdge(e) && s.status[e].Running? && !g.edges[e].phony
    ensures var s' := JobEnd(g, s, e, ok);
            && s'.dirtyIn == s.dirtyIn && s'.dirtyOut == s.dirtyOut && s'.nblock == s.nblock && s'.nprune == s.nprune
            && s'.ntotal == s.ntotal && s'.nstarted == s.nstarted && s'.nfinished == s.nfinished + 1
            && match g.edges[e].pool
               case None =>
                 s'.ready == s.ready && s'.parked == s.parked && s'.numjobs == s.numjobs && s'.console == s.console
               case Some(_) =>
                 var p := PoolIndex(g, e);
                 && s.numjobs[p] > 0 && s'.console == (s.console && p != CONSOLE)
                 && if s.parked[p] != [] then
                      s'.ready == [s.parked[p][0]] + s.ready && s'.parked == s.parked[p := s.parked[p][1..]]
                        && s'.numjobs == s.numjobs
                    else
                      s'.ready == s.ready && s'.parked == s.parked && s'.numjobs == s.numjobs[p := s.numjobs[p] - 1]
  {
    hide QueuesOk;
    if g.edges[e].pool.Some? {
      SlotFacts(g, s, e);
    }
  }

  /** The console pool has depth one, so its running job is the only one. */
  lemma OneConsoleJob(g: Graph, s: Sched, e: nat, f: nat)
    requires g.WellFormed() && Shape(g, s) && QueuesOk(g, s) && g.IsEdge(e) && g.IsEdge(f)
    requires InPool(g, e, CONSOLE) && s.status[e].Running? && InPool(g, f, CONSOLE) && s.status[f].Running?
    ensures e == f
  {
    assert PoolOk(g, s, CONSOLE);
    Subset({e, f}, Occupants(g, s, CONSOLE));
  }

  lemma JobEndConsole(g: Graph, s: Sched, e: nat, ok: bool)
    requires g.WellFormed() && Shape(g, s) && QueuesOk(g, s) && (s.console <==> ConsoleBusy(g, s))
    requires g.IsEdge(e) && s.status[e].Running? && !g.edges[e].phony
    ensures JobEnd(g, s, e, ok).console <==> ConsoleBusy(g, JobEnd(g, s, e, ok))
  {
    var s' := JobEnd(g, s, e, ok);
    JobEndKinds(g, s, e, ok);
    if InPool(g, e, CONSOLE) {
      forall f: nat | g.IsEdge(f) && InPool(g, f, CONSOLE) ensures !s'.status[f].Running? {
        if f != e && s.status[f].Running? {
          OneConsoleJob(g, s, e, f);
        }
      }
    } else if s.console {
      var f: nat :| g.IsEdge(f) && InPool(g, f, CONSOLE) && s.status[f].Running?;
      assert s'.status[f].Running?;
    } else {
      forall f: nat | g.IsEdge(f) && InPool(g, f, CONSOLE) ensures !s'.status[f].Running? {
        assert !s.status[f].Running?;
      }
    }
  }

  lemma JobEndLog(g: Graph, s: Sched, e: nat, ok: bool)
    requires g.WellFormed() && Shape(g, s) && QueuesOk(g, s) && LogOk(g, s)
    requires g.IsEdge(e) && s.status[e].Running? && !g.edges[e].phony
    ensures LogOk(g, JobEnd(g, s, e, ok))
  {
    hide QueuesOk;
    var s' := JobEnd(g, s, e, ok);
    JobEndKinds(g, s, e, ok);
    var mid := s'.(status := s'.status[e := Running], log := s.log);
    MidLog(g, s, mid);
    if ok {
      FinishLog(g, mid, s', e);
    } else {
      BreakLog(g, mid, s', e);
    }
  }

  /** Moving edges between queues is not an event. */
  lemma MidLog(g: Graph, s: Sched, s': Sched)
    requires g.WellFormed() && SamePlan(g, s, s') && LogOk(g, s) && s'.log == s.log
    requires forall f: nat {:trigger s'.status[f]} :: g.IsEdge(f) ==>
               s'.status[f] == s.status[f] || (s.status[f].Parked? && s'.status[f].Ready?)
    ensures LogOk(g, s')
  {
    hide EventOk;
    forall i | 0 <= i < |s'.log| ensures EventOk(g, s', i) {
      EventKept(g, s, s', i);
    }
    forall e: nat ensures LogAt(g, s', e) {
      assert LogAt(g, s, e);
    }
  }
}
