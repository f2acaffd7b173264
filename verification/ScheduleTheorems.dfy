/** What the invariant of Schedule says about whole builds: nothing starts too early or past a
    failure, and a build that comes to rest has done everything it could. */
module ScheduleTheorems {
  import opened Wrappers
  import opened BuildGraph
  import opened Schedule
  import opened ScheduleSteps

  /** Edge `f` produces an input that `e` waits for. */
  ghost predicate WaitsFor(g: Graph, s: Sched, e: nat, f: nat)
    requires g.WellFormed() && Shape(g, s)
  {
    && g.IsEdge(e) && g.IsEdge(f)
    && exists j: nat :: j in s.block[e] && j < |g.edges[e].ins| && g.Producer(e, j) == Some(f)
  }

  /** A chain of edges, each waiting for the next. */
  ghost predicate Chain(g: Graph, s: Sched, p: seq<nat>)
    requires g.WellFormed() && Shape(g, s)
  {
    && p != [] && g.IsEdge(p[0])
    && forall i: nat {:trigger Link(g, s, p, i)} :: i < |p| - 1 ==> Link(g, s, p, i)
  }

  ghost predicate Link(g: Graph, s: Sched, p: seq<nat>, i: nat)
    requires g.WellFormed() && Shape(g, s) && i < |p| - 1
  {
    WaitsFor(g, s, p[i], p[i + 1])
  }

  /** The build has come to rest: nothing is ready, running or being announced. */
  ghost predicate AtRest(g: Graph, s: Sched) {
    && Shape(g, s) && s.ready == [] && s.open == {} && s.owed == {}
    && forall e: nat :: g.IsEdge(e) ==> !s.status[e].Running?
  }

  /** An edge that was queued, started or pruned waits only for settled edges. */
  lemma SettledBefore(g: Graph, s: Sched, e: nat, f: nat)
    requires Inv(g, s) && WaitsFor(g, s, e, f)
    requires WasQueued(s.status[e]) || s.status[e].Pruned?
    ensures Settled(s.status[f])
  {
    hide QueuesOk, TotalsOk, LogOk, NodesOk;
    var j: nat :| j in s.block[e] && j < |g.edges[e].ins| && g.Producer(e, j) == Some(f);
    assert CountersAt(g, s, e) && DeliveryAt(g, s, e);
    assert DeliveredOk(g, s, e, j);
  }

  /** At every point of every build: an edge that depends, however indirectly, on an edge that
      has not settled (say, because it failed) is itself still waiting, so it never started. */
  lemma {:induction false} NothingPastAFailure(g: Graph, s: Sched, p: seq<nat>)
    requires Inv(g, s) && Chain(g, s, p) && |p| > 1
    requires g.IsEdge(p[|p| - 1]) && !Settled(s.status[p[|p| - 1]])
    ensures s.status[p[0]].Waiting? || s.status[p[0]].Idle?
  {
    hide QueuesOk, TotalsOk, LogOk, NodesOk, CountersAt, DeliveryAt;
    assert Link(g, s, p, 0);
    if |p| > 2 {
      var q := p[1..];
      forall i: nat | i < |q| - 1 ensures Link(g, s, q, i) {
        assert Link(g, s, p, i + 1);
      }
      NothingPastAFailure(g, s, q);
    }
    if WasQueued(s.status[p[0]]) || s.status[p[0]].Pruned? {
      SettledBefore(g, s, p[0], p[1]);
    }
    assert PlanAt(g, s, p[0]);
  }

  /** The inputs that `e` waits for and whose producer has not settled, or has but is still being
      announced. */
  ghost function Pending(g: Graph, s: Sched, e: nat): set<nat>
    requires Inv(g, s) && g.IsEdge(e)
  {
    set j | j in s.block[e] && j < |g.edges[e].ins| && g.Producer(e, j).Some?
            && !(Settled(s.status[g.Producer(e, j).value]) && Use(e, j) !in s.open)
  }

  /** At every point of every build, the block count of an edge that was not retired is the number
      of its inputs that are not done yet, and it is not zero. The prune count, where it is used, is
      the number of inputs that have yet to be pruned, or told of if no input was dirty. */
  lemma CountersMean(g: Graph, s: Sched, e: nat)
    requires Inv(g, s) && g.IsEdge(e) && s.status[e].Waiting?
    ensures s.block[e] == Awaited(g, s, e)
    ensures s.nblock[e] == |Pending(g, s, e)| > 0
    ensures !s.dirtyOut[e] ==> s.nprune[e] == |s.block[e] - Counted(g, s, e)| > 0
  {
    hide QueuesOk, TotalsOk, LogOk, NodesOk;
    assert PlanAt(g, s, e) && CountersAt(g, s, e) && DeliveryAt(g, s, e);
    forall j | j in s.block[e] ensures j in Pending(g, s, e) <==> j !in s.got[e] {
      assert DeliveredOk(g, s, e, j);
    }
    assert Pending(g, s, e) == s.block[e] - s.got[e];
    Difference(s.got[e], s.block[e]);
    assert Counted(g, s, e) <= s.got[e];
    Difference(Counted(g, s, e), s.block[e]);
  }

  lemma Difference(a: set<nat>, b: set<nat>)
    requires a <= b
    ensures |b - a| == |b| - |a|
    ensures a != b ==> |b - a| > 0
  {
    assert b == a + (b - a);
    if a != b {
      var x :| x in b && x !in a;
      assert x in b - a;
    }
  }

  /** A pool never runs more jobs than its depth. */
  lemma PoolBound(g: Graph, s: Sched, p: nat, running: set<nat>)
    requires Inv(g, s) && p < |g.depth|
    requires forall e :: e in running ==> g.IsEdge(e) && InPool(g, e, p) && s.status[e].Running?
    ensures |running| <= s.numjobs[p] <= g.depth[p]
  {
    hide EdgesOk, NodesOk, TotalsOk, LogOk;
    assert PoolOk(g, s, p);
    Subset(running, Occupants(g, s, p));
  }

  /** At rest, edges are parked only behind jobs that failed to start and kept their slot. */
  lemma ParkedBehindStuck(g: Graph, s: Sched, e: nat)
    requires Inv(g, s) && AtRest(g, s) && g.IsEdge(e) && s.status[e].Parked?
    ensures g.edges[e].pool.Some? && g.edges[e].pool.value < |g.depth|
    ensures var p := g.edges[e].pool.value;
            && |Occupants(g, s, p)| == g.depth[p] > 0
            && forall f :: f in Occupants(g, s, p) ==> s.status[f].Stuck?
    ensures exists f: nat :: g.IsEdge(f) && s.status[f].Stuck?
  {
    hide EdgesOk, NodesOk, TotalsOk, LogOk;
    assert QueuedAt(g, s, e) && g.EdgeOk(e);
    var p := g.edges[e].pool.value;
    assert PoolOk(g, s, p);
    assert e in s.parked[p];
    forall f | f in Occupants(g, s, p) ensures s.status[f].Stuck? {
      assert QueuedAt(g, s, f);
    }
    var f :| f in Occupants(g, s, p);
    assert s.status[f].Stuck?;
  }

  /** At rest, whatever is still waiting waits in the end for an edge that failed, failed to
      start, or is parked behind one that failed to start. */
  lemma {:induction false} WaitingHasCause(g: Graph, s: Sched, e: nat) returns (p: seq<nat>)
    requires Inv(g, s) && AtRest(g, s) && g.IsEdge(e) && s.status[e].Waiting?
    ensures Chain(g, s, p) && |p| > 1 && p[0] == e && g.IsEdge(p[|p| - 1])
    ensures var last := s.status[p[|p| - 1]]; last.Failed? || last.Stuck? || last.Parked?
    decreases s.rank[e]
  {
    hide TotalsOk, LogOk, NodesOk, PoolOk;
    assert PlanAt(g, s, e) && CountersAt(g, s, e) && DeliveryAt(g, s, e);
    var j :| j in s.block[e] && j !in s.got[e];
    assert DeliveredOk(g, s, e, j) && InputPlanned(g, s, e, j);
    var f := g.Producer(e, j).value;
    assert j in Awaited(g, s, e);
    assert QueuedAt(g, s, f);
    assert WaitsFor(g, s, e, f);
    if s.status[f].Waiting? {
      var q := WaitingHasCause(g, s, f);
      p := [e] + q;
      forall i: nat | i < |p| - 1 ensures Link(g, s, p, i) {
        if i > 0 {
          assert Link(g, s, q, i - 1);
        }
      }
    } else {
      p := [e, f];
    }
  }

  /** When every job could be started, a build at rest has settled exactly the edges that do not
      depend on a failed one: the promise of keeping going after a failure. */
  lemma RestAfterFailures(g: Graph, s: Sched, e: nat)
    requires Inv(g, s) && AtRest(g, s) && g.IsEdge(e) && Active(s.status[e])
    requires forall f: nat :: g.IsEdge(f) ==> !s.status[f].Stuck?
    ensures Settled(s.status[e]) || s.status[e].Failed? || s.status[e].Waiting?
    ensures s.status[e].Waiting? <==>
              exists p :: Chain(g, s, p) && |p| > 1 && p[0] == e && g.IsEdge(p[|p| - 1]) && s.status[p[|p| - 1]].Failed?
  {
    hide EdgesOk, NodesOk, TotalsOk, LogOk;
    assert QueuedAt(g, s, e);
    NoneParked(g, s);
    if s.status[e].Waiting? {
      var p := WaitingHasCause(g, s, e);
    }
    forall p | Chain(g, s, p) && |p| > 1 && p[0] == e && g.IsEdge(p[|p| - 1]) && s.status[p[|p| - 1]].Failed?
      ensures s.status[e].Waiting?
    {
      NothingPastAFailure(g, s, p);
    }
  }

  lemma NoneParked(g: Graph, s: Sched)
    requires Inv(g, s) && AtRest(g, s)
    requires forall f: nat :: g.IsEdge(f) ==> !s.status[f].Stuck?
    ensures forall e: nat :: g.IsEdge(e) ==> !s.status[e].Parked?
  {
    hide Inv;
    forall e: nat | g.IsEdge(e) ensures !s.status[e].Parked? {
      if s.status[e].Parked? {
        ParkedBehindStuck(g, s, e);
      }
    }
  }

  /** Without failures, a build at rest is complete: every edge with work to do ran or was
      pruned, nothing is queued, and the progress counters agree. */
  lemma Complete(g: Graph, s: Sched)
    requires Inv(g, s) && AtRest(g, s)
    requires forall f: nat :: g.IsEdge(f) ==> !s.status[f].Stuck? && !s.status[f].Failed?
    ensures forall e: nat :: g.IsEdge(e) && Active(s.status[e]) ==> Settled(s.status[e])
    ensures forall p: nat :: p < |g.depth| ==> s.parked[p] == []
    ensures s.nstarted == s.nfinished == s.ntotal
  {
    hide Inv;
    NoneParked(g, s);
    forall e: nat | g.IsEdge(e) && Active(s.status[e]) ensures Settled(s.status[e]) {
      RestAfterFailures(g, s, e);
    }
    CompleteTotals(g, s);
    CompleteQueues(g, s);
  }

  lemma CompleteTotals(g: Graph, s: Sched)
    requires Inv(g, s) && s.owed == {}
    requires forall e: nat :: g.IsEdge(e) && Active(s.status[e]) ==> Settled(s.status[e])
    ensures s.nstarted == s.nfinished == s.ntotal
  {
    hide NodesOk, QueuesOk, LogOk, PlanAt, DeliveryAt;
    forall e: nat | e < |g.edges| ensures e in Commands(g, s) <==> e in StartedCommands(g, s) {
      assert CountersAt(g, s, e);
    }
    assert Commands(g, s) == StartedCommands(g, s) == FinishedCommands(g, s);
  }

  lemma CompleteQueues(g: Graph, s: Sched)
    requires Inv(g, s)
    requires forall e: nat :: g.IsEdge(e) && Active(s.status[e]) ==> Settled(s.status[e])
    ensures forall p: nat :: p < |g.depth| ==> s.parked[p] == []
  {
    hide EdgesOk, NodesOk, TotalsOk, LogOk;
    forall p: nat | p < |g.depth| ensures s.parked[p] == [] {
      if s.parked[p] != [] {
        ParkedHead(g, s, p);
      }
    }
  }

  lemma ParkedHead(g: Graph, s: Sched, p: nat)
    requires g.WellFormed() && Shape(g, s) && QueuesOk(g, s) && p < |g.depth| && s.parked[p] != []
    ensures exists e: nat :: g.IsEdge(e) && s.status[e].Parked?
  {
    assert PoolOk(g, s, p);
    assert s.parked[p][0] in s.parked[p];
  }

  /** What the history of a build promises: no edge is queued or started twice, a pruned edge is
      never queued, and an edge is queued and started only after the producers of everything
      it waits for finished or were pruned. */
  lemma HistoryInOrder(g: Graph, s: Sched, e: nat, f: nat, i: nat)
    requires Inv(g, s) && WaitsFor(g, s, e, f)
    requires i < |s.log| && s.log[i] == Started(e)
    ensures Dropped(e) !in s.log
    ensures forall k :: 0 <= k < |s.log| && s.log[k] == Started(e) ==> k == i
    ensures exists q, k ::
              0 <= k < q < i && s.log[q] == Enqueued(e) && (s.log[k] == Finished(f) || s.log[k] == Dropped(f))
  {
    hide EdgesOk, NodesOk, TotalsOk, QueuesOk;
    assert LogAt(g, s, e);
    assert EventOk(g, s, i);
    var q :| 0 <= q < i && s.log[..i][q] == Enqueued(e);
    assert EventOk(g, s, q);
    assert SettledBy(s.log[..q], f);
    var k :| 0 <= k < q && (s.log[..q][k] == Finished(f) || s.log[..q][k] == Dropped(f));
  }

  /** An edge that is through with was pruned exactly if its own outputs were not out of date, and if an
      input made it dirty, every input that it waited for turned out to be unchanged. */
  lemma PrunedExactly(g: Graph, s: Sched, e: nat)
    requires Inv(g, s) && g.IsEdge(e) && Settled(s.status[e])
    ensures g.EdgeOk(e) && forall j :: j in s.block[e] ==> j < |g.edges[e].ins|
    ensures s.status[e].Pruned? <==>
      !s.dirtyOut[e] && (s.dirtyIn[e] ==> forall j :: j in s.block[e] ==> s.pruned[g.edges[e].ins[j]])
  {
    hide NodesOk, QueuesOk, TotalsOk, LogOk;
    assert g.EdgeOk(e) && PlanAt(g, s, e) && CountersAt(g, s, e);
    var all := s.block[e];
    if s.dirtyIn[e] && s.got[e] == all {
      assert GotPruned(g, s, e) == all <==> forall j :: j in all ==> s.pruned[g.edges[e].ins[j]];
    }
  }

  /** A node counts as unchanged only if its edge was pruned, or is `restat` and ran; and the nodes of a
      pruned edge do. */
  lemma UnchangedNodes(g: Graph, s: Sched, n: nat)
    requires Inv(g, s) && g.IsNode(n)
    ensures s.pruned[n] ==> g.nodes[n].gen.Some? && g.IsEdge(g.nodes[n].gen.value)
    ensures g.nodes[n].gen.Some? && g.IsEdge(g.nodes[n].gen.value) ==>
      var f := g.nodes[n].gen.value;
      && (s.status[f].Pruned? ==> s.pruned[n])
      && (s.pruned[n] ==> s.status[f].Pruned? || (s.status[f].Done? && g.edges[f].restat))
  {
    hide EdgesOk, QueuesOk, TotalsOk, LogOk;
    assert PrunedNodeOk(g, s, n) && g.NodeOk(n);
  }
}
