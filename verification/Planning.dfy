/** Planning a build (isdirty and buildadd in build.c): when an output is out of date, what it
    means for an edge to be dirty and to be blocked, and that admitting an edge to the plan
    after all its inputs keeps the invariant of Schedule. */
module Planning {
  import opened Wrappers
  import opened BuildGraph
  import opened Schedule
  import opened ScheduleSteps
  import opened ScheduleTell

  // ---------------------------------------------------------------------------------------
  // Out-of-date outputs
  // ---------------------------------------------------------------------------------------

  /** Whether output `n` of edge `e` is out of date, given the mtime of the newest input. */
  predicate IsDirty(g: Graph, n: nat, e: nat, newest: Option<int>)
    requires g.IsNode(n) && g.IsEdge(e)
  {
    var node, edge := g.nodes[n], g.edges[e];
    if edge.phony then
      |edge.ins| == 0 && node.mtime == MTIME_MISSING
    else if node.mtime == MTIME_MISSING then true
    else if newest.Some? && newest.value > node.mtime && (!edge.restat || node.logmtime == MTIME_MISSING) then true
    else if node.logmtime == MTIME_MISSING && !edge.generator then true
    else if node.logmtime != MTIME_MISSING && newest.Some? && node.logmtime < newest.value then true
    else !edge.generator && !node.sameHash
  }

  /** The mtime of the newest existing input before position `i`, order-only inputs excluded. */
  function Newest(g: Graph, e: nat, i: nat): (r: Option<int>)
    requires g.WellFormed() && g.IsEdge(e) && i <= g.edges[e].inorder
  {
    assert g.EdgeOk(e);
    if i == 0 then None else NewerOf(Newest(g, e, i - 1), g.nodes[g.edges[e].ins[i - 1]].mtime)
  }

  /** One step of the search for the newest input. */
  function NewerOf(newest: Option<int>, mtime: int): Option<int> {
    if mtime != MTIME_MISSING && !(newest.Some? && newest.value > mtime) then Some(mtime) else newest
  }

  /** The search finds the largest mtime among the existing inputs that are not order-only. */
  lemma {:induction false} NewestIsMax(g: Graph, e: nat, i: nat)
    requires g.WellFormed() && g.IsEdge(e) && i <= g.edges[e].inorder && g.EdgeOk(e)
    ensures var r := Newest(g, e, i);
            && (r.None? <==> forall j: nat :: j < i ==> g.nodes[g.edges[e].ins[j]].mtime == MTIME_MISSING)
            && (r.Some? ==>
                  && (exists j: nat :: j < i && g.nodes[g.edges[e].ins[j]].mtime == r.value != MTIME_MISSING)
                  && (forall j: nat :: j < i && g.nodes[g.edges[e].ins[j]].mtime != MTIME_MISSING ==>
                        g.nodes[g.edges[e].ins[j]].mtime <= r.value))
  {
    if i > 0 {
      NewestIsMax(g, e, i - 1);
    }
  }

  /** Some output of `e` is out of date, or its recorded dependencies are. */
  ghost predicate OutDirty(g: Graph, e: nat)
    requires g.WellFormed() && g.IsEdge(e)
  {
    assert g.EdgeOk(e);
    || e in g.stale
    || exists k: nat :: k < |g.edges[e].outs| && IsDirty(g, g.edges[e].outs[k], e, Newest(g, e, g.edges[e].inorder))
  }

  // ---------------------------------------------------------------------------------------
  // The state while a plan is drawn up
  // ---------------------------------------------------------------------------------------

  predicate Unrun(st: Status) { st.Idle? || st.Clean? || st.Waiting? || st.Ready? || st.Parked? }

  /** Nothing has run yet. */
  ghost predicate Fresh(s: Sched) {
    && s.open == {} && s.owed == {}
    && forall e: nat {:trigger s.status[e]} :: e < |s.status| ==> Unrun(s.status[e])
  }

  /** The outputs of planned edges are marked dirty if the edge is, clean edges block nothing,
      and an edge's own outputs were compared with its newest input. */
  ghost predicate MarksOk(g: Graph, s: Sched, nodeDirty: seq<bool>)
    requires g.WellFormed() && Shape(g, s)
  {
    && |nodeDirty| == |g.nodes|
    && (forall e: nat {:trigger MarkAt(g, s, nodeDirty, e)} :: g.IsEdge(e) ==> MarkAt(g, s, nodeDirty, e))
  }

  ghost predicate MarkAt(g: Graph, s: Sched, nodeDirty: seq<bool>, e: nat)
    requires g.WellFormed() && Shape(g, s) && |nodeDirty| == |g.nodes| && g.IsEdge(e)
  {
    !s.status[e].Idle? ==>
      && (forall k: nat :: k < |g.edges[e].outs| && g.IsNode(g.edges[e].outs[k]) ==>
            (nodeDirty[g.edges[e].outs[k]] <==> Dirty(s, e)))
      && (s.status[e].Clean? ==> s.nblock[e] == 0)
      && (s.dirtyOut[e] <==> OutDirty(g, e))
  }

  /** Planned edges stay as they are, and so do the edges in `fixed`. */
  ghost predicate Grows(g: Graph, s: Sched, s': Sched, fixed: set<nat>) {
    && Shape(g, s) && Shape(g, s')
    && (forall e: nat {:trigger s'.status[e]} :: g.IsEdge(e) && (!s.status[e].Idle? || e in fixed) ==>
          && s'.status[e] == s.status[e] && s'.dirtyIn[e] == s.dirtyIn[e] && s'.dirtyOut[e] == s.dirtyOut[e]
          && s'.nblock[e] == s.nblock[e])
  }

  lemma GrowsTrans(g: Graph, s: Sched, s1: Sched, s2: Sched, fixed: set<nat>, fixed1: set<nat>)
    requires Grows(g, s, s1, fixed) && Grows(g, s1, s2, fixed1) && fixed <= fixed1
    ensures Grows(g, s, s2, fixed)
  {
    forall e: nat | g.IsEdge(e) && (!s.status[e].Idle? || e in fixed)
      ensures s2.status[e] == s.status[e] && s2.dirtyIn[e] == s.dirtyIn[e] && s2.dirtyOut[e] == s.dirtyOut[e]
              && s2.nblock[e] == s.nblock[e]
    {
      assert s1.status[e] == s.status[e];
    }
  }

  /** The flags and counters of edge `e` are being worked out. */
  ghost predicate Touches(g: Graph, s: Sched, s': Sched, e: nat) {
    && Shape(g, s) && Shape(g, s') && g.IsEdge(e) && s.status[e].Idle?
    && s' == s.(dirtyIn := s.dirtyIn[e := s'.dirtyIn[e]], dirtyOut := s.dirtyOut[e := s'.dirtyOut[e]],
                nblock := s.nblock[e := s'.nblock[e]], nprune := s.nprune[e := s'.nprune[e]])
  }

  /** Working out the flags of an edge that is not planned yet disturbs no planned edge. */
  lemma TouchKeeps(g: Graph, s: Sched, s': Sched, e: nat)
    requires Inv(g, s) && Touches(g, s, s', e)
    ensures Inv(g, s')
  {
    hide QueuesOk, TotalsOk, LogOk;
    forall f: nat | g.IsEdge(f) ensures PlanAt(g, s', f) && CountersAt(g, s', f) && DeliveryAt(g, s', f) {
      TouchEdge(g, s, s', e, f);
    }
    forall u | u in s'.open ensures OpenOk(g, s', u) {
      assert OpenOk(g, s, u);
    }
    forall n: nat | g.IsNode(n) ensures PrunedNodeOk(g, s', n) {
      assert PrunedNodeOk(g, s, n) && g.NodeOk(n);
    }
    TouchTotals(g, s, s', e);
    TouchQueues(g, s, s', e);
  }

  lemma TouchEdge(g: Graph, s: Sched, s': Sched, e: nat, f: nat)
    requires g.WellFormed() && Touches(g, s, s', e) && g.IsEdge(f) && EdgesOk(g, s)
    ensures PlanAt(g, s', f) && CountersAt(g, s', f) && DeliveryAt(g, s', f)
  {
    assert PlanAt(g, s, f) && CountersAt(g, s, f) && DeliveryAt(g, s, f);
    if f != e && !s.status[f].Idle? {
      assert g.EdgeOk(f);
      assert Awaited(g, s', f) == Awaited(g, s, f);
      forall j: nat | j < |g.edges[f].ins|
        ensures InputPlanned(g, s', f, j) && DirtyInput(g, s', f, j) == DirtyInput(g, s, f, j)
      {
        assert InputPlanned(g, s, f, j);
      }
      forall j: nat ensures PrunedInput(g, s', f, j) == PrunedInput(g, s, f, j) {
      }
      assert GotPruned(g, s', f) == GotPruned(g, s, f);
      forall j: nat | j in s.block[f] ensures DeliveredOk(g, s', f, j) {
        assert DeliveredOk(g, s, f, j);
      }
    }
  }

  lemma TouchTotals(g: Graph, s: Sched, s': Sched, e: nat)
    requires g.WellFormed() && Touches(g, s, s', e) && TotalsOk(g, s)
    ensures TotalsOk(g, s')
  {
    assert Commands(g, s') == Commands(g, s);
    SameStarted(g, s, s');
    SameFinished(g, s, s');
    SameConsole(g, s, s');
  }

  lemma TouchQueues(g: Graph, s: Sched, s': Sched, e: nat)
    requires g.WellFormed() && Touches(g, s, s', e) && QueuesOk(g, s) && LogOk(g, s)
    ensures QueuesOk(g, s') && LogOk(g, s')
  {
    forall f: nat ensures QueuedAt(g, s', f) && LogAt(g, s', f) {
      assert QueuedAt(g, s, f) && LogAt(g, s, f);
    }
    forall p: nat | p < |g.depth| ensures PoolOk(g, s', p) {
      assert PoolOk(g, s, p);
      assert Occupants(g, s', p) == Occupants(g, s, p);
    }
    forall i | 0 <= i < |s'.log| ensures EventOk(g, s', i) {
      assert EventOk(g, s, i);
    }
  }

  // ---------------------------------------------------------------------------------------
  // Admitting an edge
  // ---------------------------------------------------------------------------------------

  /** The flags and the block count of edge `e` are worked out and all its inputs are planned. */
  ghost predicate Admissible(g: Graph, s: Sched, e: nat) {
    && Inv(g, s) && Fresh(s) && g.IsEdge(e) && s.status[e].Idle?
    && (forall j: nat {:trigger InputReady(g, s, e, j)} :: j < |g.edges[e].ins| ==> InputReady(g, s, e, j))
    && (s.dirtyIn[e] <==> exists j: nat :: j < g.edges[e].inorder && DirtyInput(g, s, e, j))
    && s.nblock[e] == |Awaited(g, s, e)|
    && (!s.dirtyOut[e] ==> s.nprune[e] == s.nblock[e])
  }

  ghost predicate InputReady(g: Graph, s: Sched, e: nat, j: nat)
    requires g.WellFormed() && Shape(g, s) && g.IsEdge(e) && j < |g.edges[e].ins|
  {
    assert g.EdgeOk(e);
    match g.Producer(e, j)
    case None => g.nodes[g.edges[e].ins[j]].mtime != MTIME_MISSING
    case Some(f) => !s.status[f].Idle?
  }

  /** Makes edge `e` part of the build. */
  ghost function Admit(g: Graph, s: Sched, e: nat): (r: Sched)
    requires g.WellFormed() && Shape(g, s) && g.IsEdge(e)
    ensures Shape(g, r)
  {
    var block := Awaited(g, s, e);
    s.(status := s.status[e := if !Dirty(s, e) && block == {} then Clean else Waiting],
       block := s.block[e := block], got := s.got[e := {}],
       rank := s.rank[e := s.clock], clock := s.clock + 1,
       ntotal := if Dirty(s, e) && !g.edges[e].phony then s.ntotal + 1 else s.ntotal)
  }

  /** The whole step: an edge that is dirty and blocked by nothing goes straight to a queue. */
  ghost function AdmitAndQueue(g: Graph, s: Sched, e: nat): (r: Sched)
    requires g.WellFormed() && Shape(g, s) && g.IsEdge(e)
    ensures Shape(g, r)
  {
    var s1 := Admit(g, s, e);
    if Dirty(s, e) && Awaited(g, s, e) == {} then Enqueue(g, s1, e) else s1
  }

  /** Admitting an edge changes no variable of the program but the total. */
  lemma AdmitVariables(g: Graph, s: Sched, e: nat)
    requires Admissible(g, s, e)
    ensures var s1 := Admit(g, s, e);
            && s1 == s.(status := s1.status, block := s1.block, got := s1.got, rank := s1.rank, clock := s1.clock,
              ntotal := s1.ntotal)
            && s1.ntotal == s.ntotal + (if Dirty(s, e) && !g.edges[e].phony then 1 else 0)
            && AdmitAndQueue(g, s, e) == if Dirty(s, e) && s.nblock[e] == 0 then Enqueue(g, s1, e) else s1
  {
    hide Enqueue, Awaited, Inv;
  }

  lemma AdmitKeeps(g: Graph, s: Sched, e: nat)
    requires Admissible(g, s, e)
    ensures Inv(g, AdmitAndQueue(g, s, e)) && Fresh(AdmitAndQueue(g, s, e))
  {
    hide QueuesOk, TotalsOk, LogOk, PlanAt, DeliveryAt, Enqueue;
    var s1 := Admit(g, s, e);
    EnqueueFrame(g, s1, e);
    forall f: nat | g.IsEdge(f)
      ensures PlanAt(g, s1, f) && DeliveryAt(g, s1, f) && (f != e ==> CountersAt(g, s1, f))
    {
      if f == e {
        AdmitSelf(g, s, e);
      } else {
        AdmitOther(g, s, e, f);
      }
    }
    AdmitNodes(g, s, e);
    AdmitQueues(g, s, e);
    AdmitTotals(g, s, e);
    AdmitLog(g, s, e);
    AdmitCounters(g, s, e);
    if Dirty(s, e) && Awaited(g, s, e) == {} {
      NotDirtyIn(g, s, e);
      EnqueueKeeps(g, s1, e);
    }
  }

  lemma NotDirtyIn(g: Graph, s: Sched, e: nat)
    requires Admissible(g, s, e)
    ensures s.dirtyIn[e] ==> Awaited(g, s, e) != {}
  {
    hide QueuesOk, TotalsOk, LogOk, NodesOk;
    if s.dirtyIn[e] {
      var j: nat :| j < g.edges[e].inorder && DirtyInput(g, s, e, j);
      var f := g.Producer(e, j).value;
      assert InputReady(g, s, e, j) && PlanAt(g, s, f);
      assert j in Awaited(g, s, e);
    }
  }

  lemma AdmitSelf(g: Graph, s: Sched, e: nat)
    requires Admissible(g, s, e)
    ensures PlanAt(g, Admit(g, s, e), e) && DeliveryAt(g, Admit(g, s, e), e)
  {
    hide QueuesOk, TotalsOk, LogOk, NodesOk;
    var s1 := Admit(g, s, e);
    assert g.EdgeOk(e);
    forall j: nat | j < |g.edges[e].ins|
      ensures InputPlanned(g, s1, e, j) && DirtyInput(g, s1, e, j) == DirtyInput(g, s, e, j)
      ensures j in Awaited(g, s1, e) <==> j in Awaited(g, s, e)
      ensures j in Awaited(g, s, e) ==> DeliveredOk(g, s1, e, j)
    {
      assert InputReady(g, s, e, j);
      if g.Producer(e, j).Some? {
        assert PlanAt(g, s, g.Producer(e, j).value);
      }
    }
    assert Awaited(g, s1, e) == Awaited(g, s, e);
  }

  lemma AdmitOther(g: Graph, s: Sched, e: nat, f: nat)
    requires Admissible(g, s, e) && g.IsEdge(f) && f != e
    ensures var s1 := Admit(g, s, e); PlanAt(g, s1, f) && DeliveryAt(g, s1, f) && CountersAt(g, s1, f)
  {
    hide QueuesOk, TotalsOk, LogOk, NodesOk;
    var s1 := Admit(g, s, e);
    assert PlanAt(g, s, f) && CountersAt(g, s, f) && DeliveryAt(g, s, f);
    if !s.status[f].Idle? {
      assert g.EdgeOk(f);
      forall j: nat | j < |g.edges[f].ins|
        ensures InputPlanned(g, s1, f, j) && DirtyInput(g, s1, f, j) == DirtyInput(g, s, f, j)
        ensures j in Awaited(g, s1, f) <==> j in Awaited(g, s, f)
      {
        assert InputPlanned(g, s, f, j);
      }
      assert Awaited(g, s1, f) == Awaited(g, s, f);
      forall j: nat | j in s.block[f] ensures DeliveredOk(g, s1, f, j) {
        assert DeliveredOk(g, s, f, j) && InputPlanned(g, s, f, j);
      }
      SameCounted(g, s, s1, f);
    }
  }

  lemma AdmitCounters(g: Graph, s: Sched, e: nat)
    requires Admissible(g, s, e)
    ensures !(Dirty(s, e) && Awaited(g, s, e) == {}) ==> CountersAt(g, Admit(g, s, e), e)
  {
    hide EdgesOk, QueuesOk, TotalsOk, LogOk, NodesOk;
    var s1 := Admit(g, s, e);
    assert GotPruned(g, s1, e) == {};
  }

  lemma AdmitNodes(g: Graph, s: Sched, e: nat)
    requires Admissible(g, s, e)
    ensures NodesOk(g, Admit(g, s, e))
  {
    hide EdgesOk, QueuesOk, TotalsOk, LogOk;
    var s1 := Admit(g, s, e);
    forall n: nat | g.IsNode(n) ensures PrunedNodeOk(g, s1, n) {
      assert PrunedNodeOk(g, s, n) && g.NodeOk(n);
    }
  }

  lemma AdmitQueues(g: Graph, s: Sched, e: nat)
    requires g.WellFormed() && Shape(g, s) && QueuesOk(g, s) && g.IsEdge(e) && s.status[e].Idle?
    ensures QueuesOk(g, Admit(g, s, e))
  {
    var s1 := Admit(g, s, e);
    forall f: nat ensures QueuedAt(g, s1, f) {
      assert QueuedAt(g, s, f);
    }
    forall p: nat | p < |g.depth| ensures PoolOk(g, s1, p) {
      assert PoolOk(g, s, p);
      OccupantsStep(g, s, s1, e, p);
    }
  }

  lemma AdmitTotals(g: Graph, s: Sched, e: nat)
    requires g.WellFormed() && Shape(g, s) && TotalsOk(g, s) && g.IsEdge(e) && s.status[e].Idle?
    ensures TotalsOk(g, Admit(g, s, e))
  {
    hide ConsoleBusy;
    var s1 := Admit(g, s, e);
    AdmitCommands(g, s, e);
    SameStarted(g, s, s1);
    SameFinished(g, s, s1);
    SameConsole(g, s, s1);
  }

  lemma AdmitCommands(g: Graph, s: Sched, e: nat)
    requires g.WellFormed() && Shape(g, s) && g.IsEdge(e) && s.status[e].Idle?
    ensures |Commands(g, Admit(g, s, e))| ==
              |Commands(g, s)| + (if Dirty(s, e) && !g.edges[e].phony then 1 else 0)
  {
    var s1 := Admit(g, s, e);
    AdmitStatus(g, s, e);
    hide Admit;
    forall f: nat | f < |g.edges|
      ensures f in Commands(g, s1) <==> f in Commands(g, s) || (f == e && Dirty(s, e) && !g.edges[e].phony)
    {
    }
    hide Commands;
    CommandsOnly(g, s);
    CommandsOnly(g, s1);
    if Dirty(s, e) && !g.edges[e].phony {
      SetAdd(Commands(g, s), Commands(g, s1), e);
    } else {
      assert Commands(g, s1) == Commands(g, s);
    }
  }

  lemma CommandsOnly(g: Graph, s: Sched)
    requires Shape(g, s)
    ensures forall f :: f in Commands(g, s) ==> f < |g.edges| && !s.status[f].Idle?
  {
  }

  lemma AdmitStatus(g: Graph, s: Sched, e: nat)
    requires g.WellFormed() && Shape(g, s) && g.IsEdge(e)
    ensures var s1 := Admit(g, s, e);
            && (s1.status[e].Clean? || s1.status[e].Waiting?) && (Dirty(s, e) ==> s1.status[e].Waiting?)
            && s1.status == s.status[e := s1.status[e]] && s1.owed == s.owed
            && s1.dirtyIn == s.dirtyIn && s1.dirtyOut == s.dirtyOut
  {
  }

  lemma AdmitLog(g: Graph, s: Sched, e: nat)
    requires g.WellFormed() && Shape(g, s) && LogOk(g, s) && g.IsEdge(e) && s.status[e].Idle?
    ensures LogOk(g, Admit(g, s, e))
  {
    var s1 := Admit(g, s, e);
    assert LogAt(g, s, e);
    forall f: nat ensures LogAt(g, s1, f) {
      assert LogAt(g, s, f);
    }
    forall i | 0 <= i < |s1.log| ensures EventOk(g, s1, i) {
      assert EventOk(g, s, i);
      assert LogAt(g, s, s.log[i].edge);
      assert s.log[i] in s.log;
    }
  }

  /** Admitting an edge leaves the planned edges alone and keeps the marks on nodes in step. */
  lemma AdmitMarks(g: Graph, s: Sched, nodeDirty: seq<bool>, e: nat)
    requires Admissible(g, s, e) && MarksOk(g, s, nodeDirty)
    requires forall k: nat :: k < |g.edges[e].outs| && g.IsNode(g.edges[e].outs[k]) ==>
               (nodeDirty[g.edges[e].outs[k]] <==> Dirty(s, e))
    requires s.dirtyOut[e] <==> OutDirty(g, e)
    ensures MarksOk(g, AdmitAndQueue(g, s, e), nodeDirty)
    ensures forall f: nat :: g.IsEdge(f) && f != e ==> AdmitAndQueue(g, s, e).status[f] == s.status[f]
    ensures !AdmitAndQueue(g, s, e).status[e].Idle?
    ensures AdmitAndQueue(g, s, e).dirtyIn == s.dirtyIn && AdmitAndQueue(g, s, e).dirtyOut == s.dirtyOut
    ensures AdmitAndQueue(g, s, e).nblock == s.nblock && AdmitAndQueue(g, s, e).nprune == s.nprune
  {
    hide EdgesOk, NodesOk, QueuesOk, TotalsOk, LogOk, Enqueue;
    var s1 := Admit(g, s, e);
    EnqueueFrame(g, s1, e);
    var s2 := AdmitAndQueue(g, s, e);
    forall f: nat | g.IsEdge(f) ensures MarkAt(g, s2, nodeDirty, f) {
      assert MarkAt(g, s, nodeDirty, f);
    }
  }

  /** A planned edge of a fresh plan has work to do exactly if it is dirty or blocked. */
  lemma ActiveMeans(g: Graph, s: Sched, nodeDirty: seq<bool>, f: nat)
    requires Inv(g, s) && Fresh(s) && MarksOk(g, s, nodeDirty) && g.IsEdge(f) && !s.status[f].Idle?
    ensures Active(s.status[f]) <==> Dirty(s, f) || s.nblock[f] > 0
  {
    hide QueuesOk, TotalsOk, LogOk, NodesOk;
    assert PlanAt(g, s, f) && CountersAt(g, s, f) && MarkAt(g, s, nodeDirty, f);
    if s.status[f].Waiting? {
      Subset(s.got[f], s.block[f]);
    }
  }

  // ---------------------------------------------------------------------------------------
  // Going through the inputs of an edge
  // ---------------------------------------------------------------------------------------

  /** The first `i` inputs of `e` have been planned and counted. */
  ghost predicate InputsDone(g: Graph, s: Sched, e: nat, i: nat)
    requires g.WellFormed() && Shape(g, s) && g.IsEdge(e) && i <= |g.edges[e].ins|
  {
    && (forall j: nat {:trigger InputReady(g, s, e, j)} :: j < i ==> InputReady(g, s, e, j))
    && (s.dirtyIn[e] <==> exists j: nat :: j < i && j < g.edges[e].inorder && DirtyInput(g, s, e, j))
    && s.nblock[e] == |AwaitedUpTo(g, s, e, i)|
  }

  ghost function AwaitedUpTo(g: Graph, s: Sched, e: nat, i: nat): set<nat>
    requires g.WellFormed() && Shape(g, s) && g.IsEdge(e)
  {
    set j | j in Awaited(g, s, e) && j < i
  }

  /** Planning one more input, which does not touch the edges planned so far. */
  lemma InputsGrow(g: Graph, s: Sched, s': Sched, e: nat, i: nat, fixed: set<nat>)
    requires g.WellFormed() && Grows(g, s, s', fixed) && g.IsEdge(e) && e in fixed
    requires i <= |g.edges[e].ins| && InputsDone(g, s, e, i)
    ensures InputsDone(g, s', e, i)
  {
    assert s'.status[e] == s.status[e];
    forall j: nat | j < i
      ensures InputReady(g, s', e, j) && DirtyInput(g, s', e, j) == DirtyInput(g, s, e, j)
      ensures j in Awaited(g, s', e) <==> j in Awaited(g, s, e)
    {
      assert InputReady(g, s, e, j);
      if g.Producer(e, j).Some? {
        assert s'.status[g.Producer(e, j).value] == s.status[g.Producer(e, j).value];
      }
    }
    assert AwaitedUpTo(g, s', e, i) == AwaitedUpTo(g, s, e, i);
  }

  /** Counting input `i` of edge `e`. */
  lemma InputsNext(g: Graph, s: Sched, s': Sched, e: nat, i: nat)
    requires g.WellFormed() && Touches(g, s, s', e) && i < |g.edges[e].ins| && g.EdgeOk(e)
    requires InputsDone(g, s, e, i) && InputReady(g, s, e, i)
    requires s'.dirtyIn[e] == (s.dirtyIn[e] || (i < g.edges[e].inorder && DirtyInput(g, s, e, i)))
    requires s'.nblock[e] == s.nblock[e] + (if i in Awaited(g, s, e) then 1 else 0)
    ensures InputsDone(g, s', e, i + 1)
  {
    hide Awaited, DirtyInput, InputReady;
    forall j: nat | j <= i
      ensures InputReady(g, s', e, j) && DirtyInput(g, s', e, j) == DirtyInput(g, s, e, j)
      ensures j in Awaited(g, s', e) <==> j in Awaited(g, s, e)
    {
      SameInput(g, s, s', e, j);
    }
    var a, b := AwaitedUpTo(g, s, e, i), AwaitedUpTo(g, s', e, i + 1);
    if i in Awaited(g, s, e) {
      SetAdd(a, b, i);
    } else {
      assert a == b;
    }
  }

  lemma SameInput(g: Graph, s: Sched, s': Sched, e: nat, j: nat)
    requires g.WellFormed() && Touches(g, s, s', e) && j < |g.edges[e].ins| && g.EdgeOk(e) && InputReady(g, s, e, j)
    ensures InputReady(g, s', e, j) && DirtyInput(g, s', e, j) == DirtyInput(g, s, e, j)
    ensures j in Awaited(g, s', e) <==> j in Awaited(g, s, e)
  {
  }

  /** All inputs counted. */
  lemma InputsAll(g: Graph, s: Sched, e: nat)
    requires g.WellFormed() && Shape(g, s) && g.IsEdge(e) && InputsDone(g, s, e, |g.edges[e].ins|) && g.EdgeOk(e)
    ensures s.nblock[e] == |Awaited(g, s, e)|
    ensures s.dirtyIn[e] <==> exists j: nat :: j < g.edges[e].inorder && DirtyInput(g, s, e, j)
  {
    assert AwaitedUpTo(g, s, e, |g.edges[e].ins|) == Awaited(g, s, e);
  }

  // ---------------------------------------------------------------------------------------
  // Cycles
  // ---------------------------------------------------------------------------------------

  /** Edge `f` produces input `j` of edge `e` for some `j`. */
  ghost predicate Feeds(g: Graph, e: nat, f: nat)
    requires g.WellFormed()
  {
    g.IsEdge(e) && g.IsEdge(f) && exists j: nat :: j < |g.edges[e].ins| && g.Producer(e, j) == Some(f)
  }

  /** A path through the graph from an edge down to the edges it depends on. */
  ghost predicate Path(g: Graph, p: seq<nat>)
    requires g.WellFormed()
  {
    && p != [] && g.IsEdge(p[0])
    && forall i: nat {:trigger Step(g, p, i)} :: i < |p| - 1 ==> Step(g, p, i)
  }

  ghost predicate Step(g: Graph, p: seq<nat>, i: nat)
    requires g.WellFormed() && i < |p| - 1
  {
    Feeds(g, p[i], p[i + 1])
  }

  /** A path from `e` that comes back to one of its own edges. */
  ghost predicate Loop(g: Graph, e: nat, p: seq<nat>)
    requires g.WellFormed()
  {
    Path(g, p) && p[0] == e && exists k: nat :: k < |p| - 1 && p[k] == p[|p| - 1]
  }

  /** A path from `e` to an edge that needs a file which neither exists nor is produced. */
  ghost predicate DeadEnd(g: Graph, e: nat, p: seq<nat>)
    requires g.WellFormed()
  {
    Path(g, p) && p[0] == e && LacksInput(g, p[|p| - 1])
  }

  ghost predicate LacksInput(g: Graph, e: nat)
    requires g.WellFormed()
  {
    g.IsEdge(e) && exists j: nat :: j < |g.edges[e].ins| && MissingInput(g, e, j)
  }

  ghost predicate MissingInput(g: Graph, e: nat, j: nat)
    requires g.WellFormed() && g.IsEdge(e) && j < |g.edges[e].ins|
  {
    assert g.EdgeOk(e);
    g.Producer(e, j).None? && g.nodes[g.edges[e].ins[j]].mtime == MTIME_MISSING
  }

  /** From a planned edge every path stays among planned edges and goes down in rank. */
  lemma {:induction false} PathDescends(g: Graph, s: Sched, p: seq<nat>, i: nat, k: nat)
    requires Inv(g, s) && Path(g, p) && !s.status[p[0]].Idle? && i <= k < |p|
    ensures g.IsEdge(p[k]) && g.IsEdge(p[i]) && !s.status[p[i]].Idle? && !s.status[p[k]].Idle?
    ensures i < k ==> s.rank[p[k]] < s.rank[p[i]]
    decreases k
  {
    hide QueuesOk, TotalsOk, LogOk, NodesOk;
    if k > 0 {
      PathDescends(g, s, p, if i < k then i else k - 1, k - 1);
      assert Step(g, p, k - 1);
      var e := p[k - 1];
      var j: nat :| j < |g.edges[e].ins| && g.Producer(e, j) == Some(p[k]);
      assert PlanAt(g, s, e);
      assert InputPlanned(g, s, e, j);
    }
  }

  /** Below a planned edge there is no cycle, and no input is missing. */
  lemma PlannedIsSound(g: Graph, s: Sched, e: nat, p: seq<nat>)
    requires Inv(g, s) && g.IsEdge(e) && !s.status[e].Idle?
    ensures !Loop(g, e, p) && !DeadEnd(g, e, p)
  {
    hide QueuesOk, TotalsOk, LogOk, NodesOk;
    if Path(g, p) && p[0] == e {
      if k: nat :| k < |p| - 1 && p[k] == p[|p| - 1] {
        PathDescends(g, s, p, k, |p| - 1);
      }
      PathDescends(g, s, p, |p| - 1, |p| - 1);
      var last := p[|p| - 1];
      assert PlanAt(g, s, last);
      forall j: nat | j < |g.edges[last].ins| ensures !MissingInput(g, last, j) {
        assert InputPlanned(g, s, last, j);
      }
    }
  }

  // ---------------------------------------------------------------------------------------
  // The plan is determined by the graph
  // ---------------------------------------------------------------------------------------

  /** Two plans of the same graph agree on every edge that both contain, whatever the order in
      which targets and inputs were visited: the memoised search computes the recursive
      definitions of dirty and blocked. */
  lemma {:induction false} PlanUnique(g: Graph, s: Sched, marks: seq<bool>, t: Sched, marks': seq<bool>, e: nat)
    requires Inv(g, s) && MarksOk(g, s, marks) && Inv(g, t) && MarksOk(g, t, marks')
    requires g.IsEdge(e) && !s.status[e].Idle? && !t.status[e].Idle?
    ensures s.dirtyIn[e] == t.dirtyIn[e] && s.dirtyOut[e] == t.dirtyOut[e] && s.block[e] == t.block[e]
    ensures Active(s.status[e]) == Active(t.status[e])
    decreases s.rank[e]
  {
    hide QueuesOk, TotalsOk, LogOk, NodesOk, CountersAt, DeliveryAt;
    assert PlanAt(g, s, e) && PlanAt(g, t, e) && MarkAt(g, s, marks, e) && MarkAt(g, t, marks', e);
    forall j: nat | j < |g.edges[e].ins|
      ensures DirtyInput(g, s, e, j) == DirtyInput(g, t, e, j)
      ensures j in Awaited(g, s, e) <==> j in Awaited(g, t, e)
    {
      assert InputPlanned(g, s, e, j) && InputPlanned(g, t, e, j);
      if g.Producer(e, j).Some? {
        PlanUnique(g, s, marks, t, marks', g.Producer(e, j).value);
      }
    }
    assert g.EdgeOk(e);
    assert Awaited(g, s, e) == Awaited(g, t, e);
  }

  // ---------------------------------------------------------------------------------------
  // What being dirty and being active mean
  // ---------------------------------------------------------------------------------------

  /** Edge `f` produces an input of `e` that is not order-only. */
  ghost predicate FeedsHard(g: Graph, e: nat, f: nat)
    requires g.WellFormed()
  {
    && g.IsEdge(e) && g.IsEdge(f)
    && exists j: nat :: j < g.edges[e].inorder && j < |g.edges[e].ins| && g.Producer(e, j) == Some(f)
  }

  /** A path that does not go through order-only inputs. */
  ghost predicate HardPath(g: Graph, p: seq<nat>)
    requires g.WellFormed()
  {
    && p != [] && g.IsEdge(p[0])
    && forall i: nat {:trigger HardStep(g, p, i)} :: i < |p| - 1 ==> HardStep(g, p, i)
  }

  ghost predicate HardStep(g: Graph, p: seq<nat>, i: nat)
    requires g.WellFormed() && i < |p| - 1
  {
    FeedsHard(g, p[i], p[i + 1])
  }

  /** A path from `e` to an edge with an output that is out of date itself. */
  ghost predicate LeadsToDirty(g: Graph, e: nat, p: seq<nat>)
    requires g.WellFormed()
  {
    p != [] && p[0] == e && g.IsEdge(p[|p| - 1]) && OutDirty(g, p[|p| - 1])
  }

  /** The edge is out of date: an output is, of the edge itself or of one that it depends on, not
      only for the order. */
  ghost predicate OutOfDate(g: Graph, e: nat)
    requires g.WellFormed()
  {
    exists p :: HardPath(g, p) && LeadsToDirty(g, e, p)
  }

  /** The edge depends on one with an output that is out of date, or has one. */
  ghost predicate Concerned(g: Graph, e: nat)
    requires g.WellFormed()
  {
    exists p :: Path(g, p) && LeadsToDirty(g, e, p)
  }

  /** The flags of a planned edge say whether it is out of date, in terms of the graph alone. */
  lemma {:induction false} DirtyMeans(g: Graph, s: Sched, marks: seq<bool>, e: nat)
    requires Inv(g, s) && MarksOk(g, s, marks) && g.IsEdge(e) && !s.status[e].Idle?
    ensures Dirty(s, e) <==> OutOfDate(g, e)
    decreases s.rank[e]
  {
    hide QueuesOk, TotalsOk, LogOk, NodesOk, CountersAt, DeliveryAt, OutDirty;
    assert PlanAt(g, s, e) && MarkAt(g, s, marks, e) && g.EdgeOk(e);
    if s.dirtyOut[e] {
      assert HardPath(g, [e]) && LeadsToDirty(g, e, [e]);
    } else if s.dirtyIn[e] {
      var j: nat :| j < g.edges[e].inorder && DirtyInput(g, s, e, j);
      var f := g.Producer(e, j).value;
      assert InputPlanned(g, s, e, j);
      DirtyMeans(g, s, marks, f);
      var q :| HardPath(g, q) && LeadsToDirty(g, f, q);
      HardPathOnto(g, e, q);
      assert LeadsToDirty(g, e, [e] + q);
    }
    if p :| HardPath(g, p) && LeadsToDirty(g, e, p) {
      if |p| > 1 {
        assert HardStep(g, p, 0);
        var j: nat :| j < g.edges[e].inorder && j < |g.edges[e].ins| && g.Producer(e, j) == Some(p[1]);
        assert InputPlanned(g, s, e, j);
        HardPathRest(g, p);
        assert LeadsToDirty(g, p[1], p[1..]);
        DirtyMeans(g, s, marks, p[1]);
        assert DirtyInput(g, s, e, j);
      }
    }
  }

  lemma HardPathOnto(g: Graph, e: nat, q: seq<nat>)
    requires g.WellFormed() && HardPath(g, q) && FeedsHard(g, e, q[0])
    ensures HardPath(g, [e] + q)
  {
    hide FeedsHard;
    var p := [e] + q;
    forall i: nat | i < |p| - 1 ensures HardStep(g, p, i) {
      if i > 0 {
        assert HardStep(g, q, i - 1);
      }
    }
    assert g.IsEdge(e) by { assert FeedsHard(g, e, q[0]); FeedsEdge(g, e, q[0]); }
  }

  lemma FeedsEdge(g: Graph, e: nat, f: nat)
    requires g.WellFormed() && FeedsHard(g, e, f)
    ensures g.IsEdge(e) && g.IsEdge(f) && Feeds(g, e, f)
  {
  }

  lemma HardPathRest(g: Graph, p: seq<nat>)
    requires g.WellFormed() && HardPath(g, p) && |p| > 1
    ensures HardPath(g, p[1..])
  {
    hide FeedsHard;
    assert HardStep(g, p, 0);
    FeedsEdge(g, p[0], p[1]);
    forall i: nat | i < |p[1..]| - 1 ensures HardStep(g, p[1..], i) {
      assert HardStep(g, p, i + 1);
    }
  }

  /** A planned edge has something to do, if only to wait, exactly if a change concerns it. */
  lemma {:induction false} ActiveReaches(g: Graph, s: Sched, marks: seq<bool>, e: nat)
    requires Inv(g, s) && MarksOk(g, s, marks) && g.IsEdge(e) && !s.status[e].Idle?
    ensures Active(s.status[e]) <==> Concerned(g, e)
    decreases s.rank[e]
  {
    hide QueuesOk, TotalsOk, LogOk, NodesOk, CountersAt, DeliveryAt, OutDirty;
    assert PlanAt(g, s, e) && MarkAt(g, s, marks, e) && g.EdgeOk(e);
    if s.dirtyOut[e] {
      assert Path(g, [e]) && LeadsToDirty(g, e, [e]);
    } else if Active(s.status[e]) {
      var j := AwaitedInput(g, s, e);
      var f := g.Producer(e, j).value;
      assert InputPlanned(g, s, e, j);
      ActiveReaches(g, s, marks, f);
      var q :| Path(g, q) && LeadsToDirty(g, f, q);
      PathOnto(g, e, q);
      assert LeadsToDirty(g, e, [e] + q);
    }
    if p :| Path(g, p) && LeadsToDirty(g, e, p) {
      if |p| > 1 {
        assert Step(g, p, 0);
        var j: nat :| j < |g.edges[e].ins| && g.Producer(e, j) == Some(p[1]);
        assert InputPlanned(g, s, e, j);
        PathRest(g, p);
        assert LeadsToDirty(g, p[1], p[1..]);
        ActiveReaches(g, s, marks, p[1]);
        assert j in Awaited(g, s, e);
      }
    }
  }

  lemma AwaitedInput(g: Graph, s: Sched, e: nat) returns (j: nat)
    requires g.WellFormed() && Shape(g, s) && g.IsEdge(e) && PlanAt(g, s, e) && Active(s.status[e]) && !s.dirtyOut[e]
    requires forall f: nat :: g.IsEdge(f) ==> PlanAt(g, s, f)
    ensures j in Awaited(g, s, e)
  {
    if s.dirtyIn[e] {
      j :| j < g.edges[e].inorder && DirtyInput(g, s, e, j);
      assert InputPlanned(g, s, e, j) && PlanAt(g, s, g.Producer(e, j).value);
    } else {
      assert s.block[e] != {};
      j :| j in s.block[e];
    }
  }

  lemma PathOnto(g: Graph, e: nat, q: seq<nat>)
    requires g.WellFormed() && Path(g, q) && Feeds(g, e, q[0])
    ensures Path(g, [e] + q)
  {
    var p := [e] + q;
    forall i: nat | i < |p| - 1 ensures Step(g, p, i) {
      if i > 0 {
        assert Step(g, q, i - 1);
      }
    }
  }

  lemma PathRest(g: Graph, p: seq<nat>)
    requires g.WellFormed() && Path(g, p) && |p| > 1
    ensures Path(g, p[1..])
  {
    assert Step(g, p, 0);
    forall i: nat | i < |p[1..]| - 1 ensures Step(g, p[1..], i) {
      assert Step(g, p, i + 1);
    }
  }

  // ---------------------------------------------------------------------------------------
  // What a search plans
  // ---------------------------------------------------------------------------------------

  /** A path leads from edge `e` down to edge `f`. */
  ghost predicate Reaches(g: Graph, e: nat, f: nat)
    requires g.WellFormed()
  {
    exists p :: Path(g, p) && p[0] == e && p[|p| - 1] == f
  }

  /** Only edges below `root` were planned in between. */
  ghost predicate Within(g: Graph, s: Sched, s': Sched, root: nat)
    requires g.WellFormed()
  {
    && Shape(g, s) && Shape(g, s')
    && forall f: nat {:trigger s'.status[f]} :: g.IsEdge(f) && s.status[f].Idle? && !s'.status[f].Idle? ==>
      Reaches(g, root, f)
  }

  lemma WithinTrans(g: Graph, s: Sched, s1: Sched, s2: Sched, root: nat)
    requires g.WellFormed() && Within(g, s, s1, root) && Within(g, s1, s2, root)
    ensures Within(g, s, s2, root)
  {
    forall f: nat | g.IsEdge(f) && s.status[f].Idle? && !s2.status[f].Idle? ensures Reaches(g, root, f) {
      assert s1.status[f].Idle? || !s1.status[f].Idle?;
    }
  }

  lemma WithinSame(g: Graph, s: Sched, s': Sched, root: nat)
    requires g.WellFormed() && Shape(g, s) && Shape(g, s') && s'.status == s.status
    ensures Within(g, s, s', root)
  {
  }

  /** Planning the edge on top of the stack. */
  lemma WithinStack(g: Graph, s: Sched, s': Sched, stack: seq<nat>, e: nat)
    requires g.WellFormed() && Shape(g, s) && Shape(g, s') && Path(g, stack + [e])
    requires forall f: nat :: g.IsEdge(f) && f != e ==> s'.status[f] == s.status[f]
    ensures Within(g, s, s', Root(stack, e))
  {
    var p := stack + [e];
    assert p[0] == Root(stack, e) && p[|p| - 1] == e;
  }

  /** The edge a search started from. */
  function Root(stack: seq<nat>, e: nat): nat {
    if stack == [] then e else stack[0]
  }

  lemma RootSame(stack: seq<nat>, e: nat, f: nat)
    ensures Root(stack + [e], f) == Root(stack, e)
  {
  }

  lemma PathExtend(g: Graph, stack: seq<nat>, e: nat)
    requires g.WellFormed() && g.IsEdge(e)
    requires stack == [] || (Path(g, stack) && Feeds(g, stack[|stack| - 1], e))
    ensures Path(g, stack + [e])
  {
    var p := stack + [e];
    forall i: nat | i < |p| - 1 ensures Step(g, p, i) {
      if i < |stack| - 1 {
        assert Step(g, stack, i);
      }
    }
  }

  ghost function SetOf(stack: seq<nat>): set<nat> {
    set e | e in stack
  }

  /** The edge the search came back to closes a cycle. */
  lemma CycleFound(g: Graph, stack: seq<nat>, e: nat)
    requires g.WellFormed() && g.IsEdge(e) && e in stack && Path(g, stack) && Feeds(g, stack[|stack| - 1], e)
    ensures Loop(g, Root(stack, e), stack + [e])
  {
    PathExtend(g, stack, e);
    var k :| 0 <= k < |stack| && stack[k] == e;
    assert (stack + [e])[k] == e;
  }

  /** An edge with an input that is neither there nor produced is a dead end. */
  lemma DeadEndFound(g: Graph, stack: seq<nat>, e: nat, j: nat)
    requires g.WellFormed() && g.IsEdge(e) && j < |g.edges[e].ins| && MissingInput(g, e, j)
    requires Path(g, stack + [e])
    ensures DeadEnd(g, Root(stack, e), stack + [e])
  {
  }

  lemma InputFeeds(g: Graph, e: nat, j: nat)
    requires g.WellFormed() && g.IsEdge(e) && j < |g.edges[e].ins|
    ensures g.EdgeOk(e) && g.IsNode(g.edges[e].ins[j]) && g.NodeOk(g.edges[e].ins[j])
    ensures g.Producer(e, j).Some? ==> Feeds(g, e, g.Producer(e, j).value)
  {
    assert g.EdgeOk(e);
    assert g.NodeOk(g.edges[e].ins[j]);
  }

  /** What the mark on an input and the block count of its producer say. */
  lemma InputMeans(g: Graph, s: Sched, marks: seq<bool>, e: nat, j: nat)
    requires Inv(g, s) && Fresh(s) && MarksOk(g, s, marks) && g.IsEdge(e) && j < |g.edges[e].ins|
    requires g.Producer(e, j).Some? ==> !s.status[g.Producer(e, j).value].Idle?
    requires g.EdgeOk(e) && (g.Producer(e, j).None? ==> !marks[g.edges[e].ins[j]])
    ensures marks[g.edges[e].ins[j]] <==> DirtyInput(g, s, e, j)
    ensures j in Awaited(g, s, e) <==>
              marks[g.edges[e].ins[j]] || (g.Producer(e, j).Some? && s.nblock[g.Producer(e, j).value] > 0)
  {
    hide EdgesOk, QueuesOk, TotalsOk, LogOk, NodesOk;
    var n := g.edges[e].ins[j];
    assert g.NodeOk(n);
    if g.Producer(e, j).Some? {
      var f := g.Producer(e, j).value;
      assert MarkAt(g, s, marks, f);
      ActiveMeans(g, s, marks, f);
      var k :| 0 <= k < |g.edges[f].outs| && g.edges[f].outs[k] == n;
    }
  }

  /** Marking a file that nothing produces. */
  lemma LeafMarks(g: Graph, s: Sched, marks: seq<bool>, n: nat)
    requires g.WellFormed() && Shape(g, s) && MarksOk(g, s, marks) && g.IsNode(n) && g.nodes[n].gen.None?
    ensures MarksOk(g, s, marks[n := false])
  {
    forall f: nat | g.IsEdge(f) ensures MarkAt(g, s, marks[n := false], f) {
      assert MarkAt(g, s, marks, f) && g.EdgeOk(f);
    }
  }

  /** Only marks on outputs of `e` differ. */
  ghost predicate MarksExcept(g: Graph, marks: seq<bool>, marks': seq<bool>, e: nat) {
    && |marks'| == |marks| == |g.nodes|
    && (forall m: nat {:trigger marks'[m]} :: m < |marks| && g.nodes[m].gen != Some(e) ==> marks'[m] == marks[m])
  }

  /** The marks of planned edges do not depend on an edge that is being worked out. */
  lemma MarksFrame(g: Graph, s: Sched, s': Sched, marks: seq<bool>, marks': seq<bool>, e: nat)
    requires g.WellFormed() && Touches(g, s, s', e) && MarksOk(g, s, marks) && MarksExcept(g, marks, marks', e)
    ensures MarksOk(g, s', marks')
  {
    forall f: nat | g.IsEdge(f) ensures MarkAt(g, s', marks', f) {
      assert MarkAt(g, s, marks, f) && g.EdgeOk(f);
    }
  }

  /** The outputs of `e` are all marked `value`. */
  ghost predicate Marked(g: Graph, marks: seq<bool>, e: nat, value: bool)
    requires g.IsEdge(e)
  {
    forall k: nat :: k < |g.edges[e].outs| && g.edges[e].outs[k] < |marks| ==> marks[g.edges[e].outs[k]] == value
  }

  /** The part of the check of outputs that looked at the first `i`. */
  ghost predicate OutDirtyUpTo(g: Graph, e: nat, i: nat)
    requires g.WellFormed() && g.IsEdge(e) && i <= |g.edges[e].outs|
  {
    assert g.EdgeOk(e);
    || e in g.stale
    || exists k: nat :: k < i && IsDirty(g, g.edges[e].outs[k], e, Newest(g, e, g.edges[e].inorder))
  }

  lemma AdmitGrows(g: Graph, s: Sched, e: nat, fixed: set<nat>)
    requires g.WellFormed() && Shape(g, s) && g.IsEdge(e) && s.status[e].Idle? && e !in fixed
    ensures Grows(g, s, AdmitAndQueue(g, s, e), fixed)
  {
    hide Enqueue;
    EnqueueFrame(g, Admit(g, s, e), e);
  }

  /** Queueing an edge does not depend on the total. */
  lemma EnqueueTotal(g: Graph, s: Sched, e: nat, total: nat)
    requires g.WellFormed() && Shape(g, s) && g.IsEdge(e)
    ensures Enqueue(g, s.(ntotal := total), e) == Enqueue(g, s, e).(ntotal := total)
  {
  }

  /** What was counted about the inputs does not depend on the other flags of the edge. */
  lemma SameInputs(g: Graph, s: Sched, s': Sched, e: nat)
    requires g.WellFormed() && Touches(g, s, s', e) && g.EdgeOk(e) && InputsDone(g, s, e, |g.edges[e].ins|)
    requires s'.dirtyIn[e] == s.dirtyIn[e] && s'.nblock[e] == s.nblock[e]
    ensures InputsDone(g, s', e, |g.edges[e].ins|)
  {
    forall j: nat | j < |g.edges[e].ins|
      ensures InputReady(g, s', e, j) && DirtyInput(g, s', e, j) == DirtyInput(g, s, e, j)
      ensures j in Awaited(g, s', e) <==> j in Awaited(g, s, e)
    {
      assert InputReady(g, s, e, j);
    }
    assert AwaitedUpTo(g, s', e, |g.edges[e].ins|) == AwaitedUpTo(g, s, e, |g.edges[e].ins|);
  }

  // ---------------------------------------------------------------------------------------
  // Flags during the search
  // ---------------------------------------------------------------------------------------

  /** Visited edges are planned or on the stack, and edges not visited have no dirty flag. */
  ghost predicate FlagsMatch(g: Graph, s: Sched, work: seq<bool>, cycle: seq<bool>, stack: seq<nat>) {
    && Shape(g, s) && |work| == |cycle| == |g.edges|
    && (forall e: nat {:trigger FlagAt(g, s, work, cycle, stack, e)} :: e < |g.edges| ==>
      FlagAt(g, s, work, cycle, stack, e))
    && (forall e {:trigger e in stack} :: e in stack ==> g.IsEdge(e))
  }

  ghost predicate FlagAt(g: Graph, s: Sched, work: seq<bool>, cycle: seq<bool>, stack: seq<nat>, e: nat)
    requires Shape(g, s) && |work| == |cycle| == |g.edges| && e < |g.edges|
  {
    && (cycle[e] <==> e in stack)
    && (work[e] <==> !s.status[e].Idle? || e in stack)
    && (e in stack ==> s.status[e].Idle?)
    && (!work[e] ==> !s.dirtyIn[e] && !s.dirtyOut[e])
  }

  lemma PushFlags(g: Graph, s: Sched, s': Sched, work: seq<bool>, cycle: seq<bool>, stack: seq<nat>, e: nat)
    requires FlagsMatch(g, s, work, cycle, stack) && Touches(g, s, s', e) && !work[e]
    ensures FlagsMatch(g, s', work[e := true], cycle[e := true], stack + [e])
  {
    var work', cycle', stack' := work[e := true], cycle[e := true], stack + [e];
    forall f: nat | f < |g.edges| ensures FlagAt(g, s', work', cycle', stack', f) {
      assert FlagAt(g, s, work, cycle, stack, f);
    }
  }

  lemma TouchFlags(g: Graph, s: Sched, s': Sched, work: seq<bool>, cycle: seq<bool>, stack: seq<nat>, e: nat)
    requires FlagsMatch(g, s, work, cycle, stack) && Touches(g, s, s', e) && e in stack
    ensures FlagsMatch(g, s', work, cycle, stack)
  {
    forall f: nat | f < |g.edges| ensures FlagAt(g, s', work, cycle, stack, f) {
      assert FlagAt(g, s, work, cycle, stack, f);
    }
  }

  lemma PopFlags(g: Graph, s: Sched, work: seq<bool>, cycle: seq<bool>, stack: seq<nat>, e: nat)
    requires g.WellFormed() && FlagsMatch(g, s, work, cycle, stack + [e]) && g.IsEdge(e) && e !in stack
    ensures s.status[e].Idle?
    ensures FlagsMatch(g, AdmitAndQueue(g, s, e), work, cycle[e := false], stack)
  {
    hide Enqueue;
    assert e in stack + [e];
    assert FlagAt(g, s, work, cycle, stack + [e], e);
    EnqueueFrame(g, Admit(g, s, e), e);
    var s', cycle', stack' := AdmitAndQueue(g, s, e), cycle[e := false], stack + [e];
    forall f: nat | f < |g.edges| ensures FlagAt(g, s', work, cycle', stack, f) {
      assert FlagAt(g, s, work, cycle, stack', f);
    }
    forall f | f in stack ensures g.IsEdge(f) {
      assert f in stack';
    }
  }

  /** An edge on top of the stack is idle and may be worked on. */
  lemma TopFacts(g: Graph, s: Sched, work: seq<bool>, cycle: seq<bool>, stack: seq<nat>, e: nat)
    requires FlagsMatch(g, s, work, cycle, stack + [e])
    ensures g.IsEdge(e) && s.status[e].Idle? && e in stack + [e] && SetOf(stack + [e]) == SetOf(stack) + {e}
  {
    assert e in stack + [e];
    assert FlagAt(g, s, work, cycle, stack + [e], e);
  }

  lemma TouchGrows(g: Graph, s: Sched, s': Sched, e: nat, stack: seq<nat>)
    requires Touches(g, s, s', e) && e !in stack
    ensures Grows(g, s, s', SetOf(stack))
  {
  }

  /** One step of working out the flags of the edge on top of the stack. */
  lemma TouchStep(g: Graph, s: Sched, s': Sched, marks: seq<bool>, marks': seq<bool>,
                  work: seq<bool>, cycle: seq<bool>, stack: seq<nat>, e: nat)
    requires Inv(g, s) && Fresh(s) && MarksOk(g, s, marks) && FlagsMatch(g, s, work, cycle, stack + [e])
    requires e !in stack && Touches(g, s, s', e) && MarksExcept(g, marks, marks', e)
    ensures Inv(g, s') && Fresh(s') && MarksOk(g, s', marks') && FlagsMatch(g, s', work, cycle, stack + [e])
    ensures Grows(g, s, s', SetOf(stack))
  {
    hide EdgesOk, NodesOk, QueuesOk, TotalsOk, LogOk;
    TouchKeeps(g, s, s', e);
    MarksFrame(g, s, s', marks, marks', e);
    assert e in stack + [e];
    TouchFlags(g, s, s', work, cycle, stack + [e], e);
    TouchGrows(g, s, s', e, stack);
  }

  /** Input `i` of the edge on top of the stack is taken into account. */
  lemma CountStep(g: Graph, s: Sched, s': Sched, marks: seq<bool>, work: seq<bool>, cycle: seq<bool>, stack: seq<nat>,
      e: nat, i: nat)
    requires Inv(g, s) && Fresh(s) && MarksOk(g, s, marks) && FlagsMatch(g, s, work, cycle, stack + [e]) && e !in stack
    requires g.IsEdge(e) && g.EdgeOk(e) && i < |g.edges[e].ins| && InputsDone(g, s, e, i) && InputReady(g, s, e, i)
    requires g.Producer(e, i).None? ==> !marks[g.edges[e].ins[i]]
    requires s' == s.(dirtyIn := s'.dirtyIn, nblock := s'.nblock)
    requires s'.dirtyIn == if i < g.edges[e].inorder
      && marks[g.edges[e].ins[i]] then s.dirtyIn[e := true] else s.dirtyIn
    requires s'.nblock == if Blocks(g, s, marks, e, i) then s.nblock[e := s.nblock[e] + 1] else s.nblock
    ensures Inv(g, s') && Fresh(s') && MarksOk(g, s', marks) && FlagsMatch(g, s', work, cycle, stack + [e])
    ensures Grows(g, s, s', SetOf(stack)) && InputsDone(g, s', e, i + 1)
  {
    assert |marks| == |g.nodes|;
    hide EdgesOk, NodesOk, QueuesOk, TotalsOk, LogOk, Fresh, MarksOk, FlagsMatch, InputsDone, Grows, Awaited,
      DirtyInput;
    TopFacts(g, s, work, cycle, stack, e);
    InputMeans(g, s, marks, e, i);
    TouchIn(g, s, s', e);
    TouchStep(g, s, s', marks, marks, work, cycle, stack, e);
    InputsNext(g, s, s', e, i);
  }

  /** An input blocks if it is dirty or its own edge is blocked. */
  predicate Blocks(g: Graph, s: Sched, marks: seq<bool>, e: nat, i: nat)
    requires g.WellFormed() && Shape(g, s) && |marks| == |g.nodes| && g.IsEdge(e) && i < |g.edges[e].ins| && g.EdgeOk(e)
  {
    marks[g.edges[e].ins[i]] || (g.Producer(e, i).Some? && s.nblock[g.Producer(e, i).value] > 0)
  }

  /** The edges not visited yet. */
  ghost function Unvisited(work: seq<bool>): set<nat> {
    set e: nat | e < |work| && !work[e]
  }

  /** The marks on the outputs of the edges in `stack` are the same. */
  ghost predicate SameMarks(g: Graph, before: seq<bool>, after: seq<bool>, stack: seq<nat>) {
    && |before| == |after| == |g.nodes|
    && (forall m: nat {:trigger after[m]} ::
          m < |g.nodes| && g.nodes[m].gen.Some? && g.nodes[m].gen.value in stack ==> after[m] == before[m])
  }

  /** An edge that is opened starts with no flags, or dirty if its dependencies are stale. */
  ghost function OpenState(g: Graph, s: Sched, e: nat): (r: Sched)
    requires Shape(g, s) && g.IsEdge(e)
    ensures Shape(g, r)
  {
    s.(dirtyOut := s.dirtyOut[e := e in g.stale], nblock := s.nblock[e := 0])
  }

  lemma OpenFacts(g: Graph, s: Sched, work: seq<bool>, cycle: seq<bool>, stack: seq<nat>, e: nat)
    requires g.WellFormed() && FlagsMatch(g, s, work, cycle, stack) && g.IsEdge(e) && !work[e] && e !in stack
    ensures var s' := OpenState(g, s, e);
            && Touches(g, s, s', e) && Grows(g, s, s', SetOf(stack)) && InputsDone(g, s', e, 0)
            && FlagsMatch(g, s', work[e := true], cycle[e := true], stack + [e]) && !s.dirtyOut[e]
            && s' == s.(dirtyOut := s.dirtyOut[e := e in g.stale], nblock := s.nblock[e := 0])
            && s.dirtyOut == s.dirtyOut[e := false]
  {
    var s' := OpenState(g, s, e);
    assert FlagAt(g, s, work, cycle, stack, e);
    assert s.dirtyIn == s.dirtyIn[e := false] && s.dirtyOut == s.dirtyOut[e := false]
      && s.nprune == s.nprune[e := s.nprune[e]];
    assert AwaitedUpTo(g, s', e, 0) == {};
    PushFlags(g, s, s', work, cycle, stack, e);
    TouchGrows(g, s, s', e, stack);
  }

  /** One more edge is visited. */
  lemma OneVisited(work: seq<bool>, e: nat)
    requires e < |work| && !work[e]
    ensures Unvisited(work[e := true]) < Unvisited(work)
  {
    assert e in Unvisited(work) && e !in Unvisited(work[e := true]);
  }

  lemma TouchFresh(g: Graph, s: Sched, s': Sched, e: nat)
    requires Touches(g, s, s', e) && Fresh(s)
    ensures Fresh(s') && s'.status == s.status
  {
  }

  lemma InputMarks(g: Graph, marks: seq<bool>, marks': seq<bool>, stack: seq<nat>, e: nat, value: bool)
    requires g.WellFormed() && g.IsEdge(e) && SameMarks(g, marks, marks', stack + [e]) && Marked(g, marks, e, value)
    ensures Marked(g, marks', e, value)
  {
    assert g.EdgeOk(e) && e in stack + [e];
  }

  lemma EdgeMarks(g: Graph, m0: seq<bool>, m1: seq<bool>, m2: seq<bool>, m3: seq<bool>, stack: seq<nat>, e: nat)
    requires MarksExcept(g, m0, m1, e) && SameMarks(g, m1, m2, stack + [e]) && MarksExcept(g, m2, m3, e) && e !in stack
    ensures SameMarks(g, m0, m3, stack)
  {
  }

  lemma GrowsRefl(g: Graph, s: Sched, fixed: set<nat>)
    requires Shape(g, s)
    ensures Grows(g, s, s, fixed)
  {
  }

  lemma NewestNone(g: Graph, e: nat)
    requires g.WellFormed() && g.IsEdge(e)
    ensures Newest(g, e, 0) == None
  {
  }

  lemma NewestNext(g: Graph, e: nat, i: nat)
    requires g.WellFormed() && g.IsEdge(e) && i < |g.edges[e].ins| && g.EdgeOk(e)
    ensures i < g.edges[e].inorder ==>
              Newest(g, e, i + 1) == NewerOf(Newest(g, e, i), g.nodes[g.edges[e].ins[i]].mtime)
  {
  }

  /** Changing one entry of the flag and count sequences. */
  lemma TouchIn(g: Graph, s: Sched, s': Sched, e: nat)
    requires Shape(g, s) && Shape(g, s') && g.IsEdge(e) && s.status[e].Idle?
    requires s' == s.(dirtyIn := s'.dirtyIn, dirtyOut := s'.dirtyOut, nblock := s'.nblock, nprune := s'.nprune)
    requires s'.dirtyIn == s.dirtyIn || s'.dirtyIn == s.dirtyIn[e := s'.dirtyIn[e]]
    requires s'.dirtyOut == s.dirtyOut || s'.dirtyOut == s.dirtyOut[e := s'.dirtyOut[e]]
    requires s'.nblock == s.nblock || s'.nblock == s.nblock[e := s'.nblock[e]]
    requires s'.nprune == s.nprune || s'.nprune == s.nprune[e := s'.nprune[e]]
    ensures Touches(g, s, s', e)
  {
    assert s.dirtyIn == s.dirtyIn[e := s.dirtyIn[e]] && s.dirtyOut == s.dirtyOut[e := s.dirtyOut[e]];
    assert s.nblock == s.nblock[e := s.nblock[e]] && s.nprune == s.nprune[e := s.nprune[e]];
  }

  lemma AdmissibleNow(g: Graph, s: Sched, e: nat)
    requires Inv(g, s) && Fresh(s) && g.IsEdge(e) && s.status[e].Idle? && g.EdgeOk(e)
    requires InputsDone(g, s, e, |g.edges[e].ins|) && (!s.dirtyOut[e] ==> s.nprune[e] == s.nblock[e])
    ensures Admissible(g, s, e)
  {
    hide EdgesOk, NodesOk, QueuesOk, TotalsOk, LogOk;
    InputsAll(g, s, e);
  }

  lemma ReadyNow(g: Graph, s: Sched, e: nat, j: nat)
    requires g.WellFormed() && Shape(g, s) && g.IsEdge(e) && g.EdgeOk(e) && j < |g.edges[e].ins|
    requires match g.Producer(e, j)
             case Some(f) => !s.status[f].Idle?
             case None => g.nodes[g.edges[e].ins[j]].mtime != MTIME_MISSING
    ensures InputReady(g, s, e, j)
  {
  }

  // ---------------------------------------------------------------------------------------
  // The start
  // ---------------------------------------------------------------------------------------

  /** The snapshot before anything is planned. */
  ghost function Blank(g: Graph): (r: Sched)
    ensures Shape(g, r)
  {
    var n := |g.edges|;
    Sched(seq(n, _ => false), seq(n, _ => false), seq(n, _ => 0), seq(n, _ => 0),
          [], seq(|g.depth|, _ => []), seq(|g.depth|, _ => 0), 0, 0, 0, false,
          seq(n, _ => Idle), seq(n, _ => {}), seq(n, _ => {}), seq(|g.nodes|, _ => false),
          {}, {}, seq(n, _ => 0), 0, [])
  }

  lemma BlankFacts(g: Graph)
    requires g.WellFormed()
    ensures Inv(g, Blank(g)) && Fresh(Blank(g)) && MarksOk(g, Blank(g), seq(|g.nodes|, _ => false))
    ensures FlagsMatch(g, Blank(g), seq(|g.edges|, _ => false), seq(|g.edges|, _ => false), [])
  {
    var s := Blank(g);
    forall n: nat | g.IsNode(n) ensures PrunedNodeOk(g, s, n) {
      assert g.NodeOk(n);
    }
    forall p: nat | p < |g.depth| ensures PoolOk(g, s, p) {
      assert Occupants(g, s, p) == {};
    }
    assert Commands(g, s) == {} && StartedCommands(g, s) == {} && FinishedCommands(g, s) == {};
  }
}
