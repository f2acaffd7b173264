/** How the state of a build moves while announcements are under way (nodedone, edgedone): what
    one announcement may change, and the facts about uses that its loops rely on. */
module Announcements {
  import opened Wrappers
  import opened BuildGraph
  import opened Schedule
  import opened ScheduleSteps
  import opened ScheduleTell
  import opened ScheduleJobs

  // ---------------------------------------------------------------------------------------
  // What an announcement may change
  // ---------------------------------------------------------------------------------------

  /** The plan stays as it is, and the history goes on. */
  ghost predicate Continues(g: Graph, s: Sched, s': Sched) {
    SamePlan(g, s, s') && s.log <= s'.log
  }

  lemma ContinuesTrans(g: Graph, s: Sched, s1: Sched, s2: Sched)
    requires Continues(g, s, s1) && Continues(g, s1, s2)
    ensures Continues(g, s, s2)
  {
  }

  /** Waiting edges may have been queued or pruned; nothing else moved. */
  ghost predicate Advance(g: Graph, s: Sched, s': Sched) {
    && Continues(g, s, s')
    && s'.nstarted == s.nstarted && s'.nfinished == s.nfinished && s'.console == s.console
    && (forall e: nat {:trigger s'.status[e]} :: g.IsEdge(e) ==> Moved(s.status[e], s'.status[e]))
    && (forall n: nat {:trigger s'.pruned[n]} :: n < |g.nodes| && s'.pruned[n] != s.pruned[n] ==>
          exists f: nat :: g.nodes[n].gen == Some(f) && g.IsEdge(f) && s.status[f].Waiting? && s'.status[f].Pruned?)
  }

  predicate Moved(a: Status, b: Status) {
    a == b || (a.Waiting? && (b.Ready? || b.Parked? || b.Pruned?))
  }

  lemma AdvanceTrans(g: Graph, s: Sched, s1: Sched, s2: Sched)
    requires Advance(g, s, s1) && Advance(g, s1, s2)
    ensures Advance(g, s, s2)
  {
    forall n: nat | n < |g.nodes| && s2.pruned[n] != s.pruned[n]
      ensures exists f: nat :: g.nodes[n].gen == Some(f) && g.IsEdge(f) && s.status[f].Waiting? && s2.status[f].Pruned?
    {
      if s1.pruned[n] != s.pruned[n] {
        var f: nat :| g.nodes[n].gen == Some(f) && g.IsEdge(f) && s.status[f].Waiting? && s1.status[f].Pruned?;
        assert s2.status[f].Pruned?;
      } else {
        var f: nat :| g.nodes[n].gen == Some(f) && g.IsEdge(f) && s1.status[f].Waiting? && s2.status[f].Pruned?;
        assert s.status[f].Waiting?;
      }
    }
  }

  lemma AdvanceRefl(g: Graph, s: Sched)
    requires Shape(g, s)
    ensures Advance(g, s, s)
  {
  }

  /** Once settled, an edge and the marks on its outputs do not change. */
  lemma AdvanceSettled(g: Graph, s: Sched, s': Sched, n: nat)
    requires Advance(g, s, s') && g.WellFormed() && g.IsNode(n)
    requires g.nodes[n].gen.Some? && g.nodes[n].gen.value < |s.status| && Settled(s.status[g.nodes[n].gen.value])
    ensures s'.pruned[n] == s.pruned[n] && s'.status[g.nodes[n].gen.value] == s.status[g.nodes[n].gen.value]
  {
  }

  lemma AdvanceWaiting(g: Graph, s: Sched, s': Sched)
    requires Advance(g, s, s')
    ensures WaitingEdges(s') <= WaitingEdges(s)
    ensures Unstarted(s') <= Unstarted(s)
  {
  }

  lemma AdvanceUses(g: Graph, s: Sched, s': Sched, n: nat)
    requires Advance(g, s, s') && g.IsNode(n)
    ensures NodeUses(g, s', n) == NodeUses(g, s, n)
  {
  }

  /** The uses among the first `i` entries of a node's use array that take part in the build. */
  ghost function FirstUses(g: Graph, s: Sched, n: nat, i: nat): set<Use>
    requires g.IsNode(n) && i <= |g.nodes[n].uses|
  {
    set u | u in g.nodes[n].uses[..i] && u in NodeUses(g, s, n)
  }

  lemma TellAdvance(g: Graph, s: Sched, u: Use, prune: bool)
    requires CanTell(g, s, u, prune)
    ensures Advance(g, s, TellChecked(g, s, u, prune))
  {
    hide EdgesOk, NodesOk, QueuesOk, TotalsOk, LogOk;
    TellFacts(g, s, u, prune);
  }

  lemma EnqueueAdvance(g: Graph, s: Sched, e: nat)
    requires g.WellFormed() && Shape(g, s) && g.IsEdge(e) && s.status[e].Waiting?
    ensures Advance(g, s, Enqueue(g, s, e))
  {
    hide Enqueue;
    EnqueueFrame(g, s, e);
  }

  lemma DropFrame(g: Graph, s: Sched, e: nat)
    requires g.WellFormed() && Shape(g, s) && g.IsEdge(e) && s.status[e].Waiting?
    ensures var s' := Drop(g, s, e);
            && Advance(g, s, s') && s'.status == s.status[e := Pruned] && s'.open == s.open + EdgeUses(g, s, e)
            && s'.owed == (if Dirty(s, e) && !g.edges[e].phony then s.owed + {e} else s.owed)
            && s' == s.(status := s'.status, open := s'.open, pruned := s'.pruned, owed := s'.owed, log := s'.log)
  {
  }

  /** The outputs of an edge are distinct nodes, whose uses are distinct. */
  lemma UsesSplit(g: Graph, s: Sched, e: nat, k: nat)
    requires g.WellFormed() && Shape(g, s) && g.IsEdge(e) && k < |g.edges[e].outs|
    ensures g.EdgeOk(e)
    ensures var n := g.edges[e].outs[k];
            && NodeUses(g, s, n) !! UsesFrom(g, s, e, k + 1)
            && UsesFrom(g, s, e, k) == NodeUses(g, s, n) + UsesFrom(g, s, e, k + 1)
            && UsesFrom(g, s, e, k) <= EdgeUses(g, s, e)
  {
    assert g.EdgeOk(e);
    var n := g.edges[e].outs[k];
    forall u | u in NodeUses(g, s, n) ensures u !in UsesFrom(g, s, e, k + 1) {
      UsesFromMember(g, s, e, k + 1, u);
      UseOf(g, s, n, u);
      if i: nat :| k + 1 <= i < |g.edges[e].outs| && u in NodeUses(g, s, g.edges[e].outs[i]) {
        UseOf(g, s, g.edges[e].outs[i], u);
      }
    }
    forall u | u in UsesFrom(g, s, e, k) ensures u in EdgeUses(g, s, e) {
      UsesFromMember(g, s, e, k, u);
      UsesFromMember(g, s, e, 0, u);
    }
  }

  lemma UseOf(g: Graph, s: Sched, n: nat, u: Use)
    requires g.WellFormed() && g.IsNode(n) && u in NodeUses(g, s, n)
    ensures g.UseOk(n, u)
  {
    assert g.NodeOk(n);
    var i :| 0 <= i < |g.nodes[n].uses| && g.nodes[n].uses[i] == u;
    assert g.UseOk(n, g.nodes[n].uses[i]);
  }

  lemma PrunedOutput(g: Graph, s: Sched, e: nat, k: nat)
    requires g.WellFormed() && Shape(g, s) && NodesOk(g, s) && g.IsEdge(e) && k < |g.edges[e].outs|
      && s.status[e].Pruned?
    ensures g.EdgeOk(e) && s.pruned[g.edges[e].outs[k]]
  {
    assert g.EdgeOk(e);
    assert PrunedNodeOk(g, s, g.edges[e].outs[k]);
  }

  lemma AdvanceSame(g: Graph, s: Sched, s': Sched, e: nat)
    requires Advance(g, s, s') && g.IsEdge(e) && !s.status[e].Waiting?
    ensures s'.status[e] == s.status[e] && SamePlan(g, s, s')
  {
  }

  lemma PayAdvance(g: Graph, s0: Sched, s: Sched, s': Sched)
    requires Advance(g, s0, s) && s' == s.(ntotal := s'.ntotal, owed := s'.owed)
    ensures Advance(g, s0, s')
  {
  }

  lemma OwedFresh(g: Graph, s: Sched, e: nat)
    requires g.WellFormed() && Shape(g, s) && TotalsOk(g, s) && g.IsEdge(e) && s.status[e].Waiting?
    ensures e !in s.owed
  {
  }

  /** A pruned edge that still counts towards the total. */
  lemma PayFacts(g: Graph, s: Sched, e: nat)
    requires g.WellFormed() && Shape(g, s) && TotalsOk(g, s) && g.IsEdge(e) && e in s.owed
    requires Dirty(s, e) && !g.edges[e].phony
    ensures s.ntotal > 0
  {
    assert e in Commands(g, s);
  }

  /** Taking a pruned edge out of the total. */
  lemma PayKeeps(g: Graph, s: Sched, s': Sched, e: nat)
    requires Inv(g, s) && g.IsEdge(e) && e in s.owed && Dirty(s, e) && !g.edges[e].phony
    requires s.ntotal > 0 && s' == s.(ntotal := s.ntotal - 1, owed := s.owed - {e})
    ensures Inv(g, s')
  {
    hide EdgesOk, NodesOk, QueuesOk, LogOk, ConsoleBusy;
    SetRemove(Commands(g, s), Commands(g, s'), e);
    SameStarted(g, s, s');
    SameFinished(g, s, s');
    SameConsole(g, s, s');
    QuietStep(g, s, s');
    SameLog(g, s, s');
    SameQueues(g, s, s');
  }

  /** The next entry of a use array is announced if its edge takes part in the build. */
  lemma UseFacts(g: Graph, s0: Sched, s: Sched, n: nat, i: nat)
    requires Inv(g, s0) && Inv(g, s) && Advance(g, s0, s) && g.IsNode(n) && i < |g.nodes[n].uses|
    requires NodeUses(g, s0, n) <= s0.open && s.open == s0.open - FirstUses(g, s0, n, i)
    ensures var u := g.nodes[n].uses[i];
            && g.UseOk(n, u)
            && (!s.status[u.edge].Idle? ==> CanTell(g, s, u, s.pruned[n]))
            && FirstUses(g, s0, n, i + 1) == FirstUses(g, s0, n, i) + (if s.status[u.edge].Idle? then {} else {u})
  {
    hide EdgesOk, NodesOk, QueuesOk, TotalsOk, LogOk;
    assert g.NodeOk(n);
    var u := g.nodes[n].uses[i];
    assert g.UseOk(n, u);
    assert g.nodes[n].uses[..i + 1] == g.nodes[n].uses[..i] + [u];
    assert u in g.nodes[n].uses;
    assert u !in g.nodes[n].uses[..i];
  }

  /** Like Advance, but outputs of a `restat` edge may have been marked. */
  ghost predicate Drift(g: Graph, s: Sched, s': Sched) {
    && Continues(g, s, s')
    && s'.nstarted == s.nstarted && s'.nfinished == s.nfinished && s'.console == s.console
    && (forall e: nat {:trigger s'.status[e]} :: g.IsEdge(e) ==> Moved(s.status[e], s'.status[e]))
  }

  lemma DriftTrans(g: Graph, s: Sched, s1: Sched, s2: Sched)
    requires Drift(g, s, s1) && Drift(g, s1, s2)
    ensures Drift(g, s, s2)
  {
  }

  lemma DriftUses(g: Graph, s: Sched, s': Sched, n: nat)
    requires Drift(g, s, s') && g.IsNode(n)
    ensures NodeUses(g, s', n) == NodeUses(g, s, n)
  {
  }

  lemma UsesEnd(g: Graph, s: Sched, e: nat)
    requires g.WellFormed() && Shape(g, s) && g.IsEdge(e) && g.EdgeOk(e)
    ensures UsesFrom(g, s, e, 0) == EdgeUses(g, s, e) && UsesFrom(g, s, e, |g.edges[e].outs|) == {}
  {
  }

  lemma AdvanceDrift(g: Graph, s: Sched, s': Sched)
    requires Advance(g, s, s')
    ensures Drift(g, s, s')
  {
  }

  /** No output of `e` from the `k`-th on is marked as pruned. */
  ghost predicate UnmarkedFrom(g: Graph, s: Sched, e: nat, k: nat)
    requires g.IsEdge(e)
  {
    forall i: nat :: k <= i < |g.edges[e].outs| && g.edges[e].outs[i] < |s.pruned| ==> !s.pruned[g.edges[e].outs[i]]
  }

  lemma UnmarkedNext(g: Graph, s: Sched, s1: Sched, s2: Sched, e: nat, k: nat)
    requires g.WellFormed() && Shape(g, s) && g.IsEdge(e) && k < |g.edges[e].outs| && UnmarkedFrom(g, s, e, k)
    requires Advance(g, s1, s2) && Settled(s1.status[e]) && g.EdgeOk(e)
    requires s1.pruned == s.pruned || s1.pruned == s.pruned[g.edges[e].outs[k] := true]
    ensures UnmarkedFrom(g, s2, e, k + 1)
  {
    forall i: nat | k + 1 <= i < |g.edges[e].outs| ensures !s2.pruned[g.edges[e].outs[i]] {
      AdvanceSettled(g, s1, s2, g.edges[e].outs[i]);
    }
  }

  /** The outputs of an edge that was still running are not marked. */
  lemma UnmarkedRunning(g: Graph, s: Sched, s': Sched, e: nat)
    requires g.WellFormed() && Shape(g, s) && NodesOk(g, s) && g.IsEdge(e)
    requires !Settled(s.status[e]) && s'.pruned == s.pruned
    ensures UnmarkedFrom(g, s', e, 0)
  {
    assert g.EdgeOk(e);
    forall i: nat | i < |g.edges[e].outs| ensures !s.pruned[g.edges[e].outs[i]] {
      assert PrunedNodeOk(g, s, g.edges[e].outs[i]);
    }
  }

  /** The first `k` outputs of `e` are marked as pruned exactly if the edge is `restat` and its run left
      them untouched. */
  ghost predicate MarkedUpTo(g: Graph, s: Sched, e: nat, untouched: set<nat>, k: nat)
    requires g.IsEdge(e)
  {
    forall i: nat :: i < k && i < |g.edges[e].outs| && g.edges[e].outs[i] < |s.pruned| ==>
      (s.pruned[g.edges[e].outs[i]] <==> g.edges[e].restat && i in untouched)
  }

  lemma NoneMarked(g: Graph, s: Sched, e: nat, untouched: set<nat>)
    requires g.IsEdge(e)
    ensures MarkedUpTo(g, s, e, untouched, 0)
  {
  }

  lemma MarkedNext(g: Graph, s: Sched, s1: Sched, s2: Sched, e: nat, untouched: set<nat>, k: nat)
    requires g.WellFormed() && Shape(g, s) && g.IsEdge(e) && k < |g.edges[e].outs| && MarkedUpTo(g, s, e, untouched, k)
    requires Advance(g, s1, s2) && Settled(s1.status[e]) && g.EdgeOk(e)
    requires s1.pruned == s.pruned[g.edges[e].outs[k] := g.edges[e].restat && k in untouched]
    ensures MarkedUpTo(g, s2, e, untouched, k + 1)
  {
    forall i: nat | i < k + 1 ensures s2.pruned[g.edges[e].outs[i]] <==> g.edges[e].restat && i in untouched {
      AdvanceSettled(g, s1, s2, g.edges[e].outs[i]);
    }
  }

  /** Marking an output of a finished `restat` edge, before anyone is told, keeps the invariant. */
  lemma MarkKeeps(g: Graph, s: Sched, n: nat)
    requires Inv(g, s) && g.IsNode(n) && NodeUses(g, s, n) <= s.open
    requires g.nodes[n].gen.Some? && g.nodes[n].gen.value < |s.status|
    requires s.status[g.nodes[n].gen.value].Done? && g.edges[g.nodes[n].gen.value].restat
    ensures Inv(g, MarkPruned(g, s, n))
  {
    hide QueuesOk, TotalsOk, LogOk;
    var s' := MarkPruned(g, s, n);
    SameStatus(g, s, s');
    forall e: nat | g.IsEdge(e) ensures PlanAt(g, s', e) && CountersAt(g, s', e) && DeliveryAt(g, s', e) {
      assert PlanAt(g, s, e) && CountersAt(g, s, e) && DeliveryAt(g, s, e);
      PlanKept(g, s, s', e);
      UnsettledDelivery(g, s, s', e);
      MarkCounted(g, s, n, e);
    }
    forall v | v in s'.open ensures OpenOk(g, s', v) {
      assert OpenOk(g, s, v);
    }
    forall m: nat | g.IsNode(m) ensures PrunedNodeOk(g, s', m) {
      assert PrunedNodeOk(g, s, m) && g.NodeOk(m);
    }
  }

  lemma MarkCounted(g: Graph, s: Sched, n: nat, e: nat)
    requires g.WellFormed() && Shape(g, s) && g.IsNode(n) && NodeUses(g, s, n) <= s.open
    requires g.IsEdge(e) && DeliveryAt(g, s, e)
    ensures !s.status[e].Idle? ==> Counted(g, MarkPruned(g, s, n), e) == Counted(g, s, e)
  {
    if !s.status[e].Idle? {
      var s' := MarkPruned(g, s, n);
      assert g.EdgeOk(e);
      forall j | j in s.got[e] ensures PrunedInput(g, s', e, j) == PrunedInput(g, s, e, j) {
        assert DeliveredOk(g, s, e, j);
      }
    }
  }

  /** How the job of edge `e` leaves the build when it ends. */
  ghost predicate Ended(g: Graph, s: Sched, s': Sched, e: nat, failed: bool) {
    && Shape(g, s) && Continues(g, s, s') && g.IsEdge(e)
    && s'.nstarted == s.nstarted && s'.nfinished == s.nfinished + 1
    && s'.status[e] == (if failed then Failed else Done)
    && (forall f: nat {:trigger s'.status[f]} :: g.IsEdge(f) && f != e ==>
          Moved(s.status[f], s'.status[f]) || (s.status[f].Parked? && s'.status[f].Ready?))
  }

  /** A phony edge was taken off the work queue and is done. */
  ghost predicate Skipped(g: Graph, s: Sched, s': Sched, e: nat) {
    && Shape(g, s) && Continues(g, s, s') && g.IsEdge(e) && s.status[e].Ready? && s'.status[e].Done?
    && s'.nstarted == s.nstarted && s'.nfinished == s.nfinished
    && (forall f: nat {:trigger s'.status[f]} :: g.IsEdge(f) && f != e ==> Moved(s.status[f], s'.status[f]))
  }
}
