/** samu's scheduler (build.c): the global work queue and counters, the per-edge flags and
    counters, and the functions that update them in place while a build runs. */
module Builder {
  import opened Wrappers
  import opened BuildGraph
  import opened Schedule
  import opened ScheduleSteps
  import opened ScheduleTell
  import opened ScheduleJobs
  import opened Planning
  import opened Announcements

  /** How planning a target ends: it was added, or the program gives up because a file is
      missing or because of a dependency cycle. */
  datatype AddResult = Added | MissingFile(node: nat) | CycleAt(node: nat)

  class Build {
    const g: Graph

    var work: seq<bool>
    var cycle: seq<bool>
    var dirtyIn: seq<bool>
    var dirtyOut: seq<bool>
    var nblock: seq<nat>
    var nprune: seq<nat>
    var nodeDirty: seq<bool>

    var ready: seq<nat>
    var parked: seq<seq<nat>>
    var numjobs: seq<nat>
    var ntotal: nat
    var nstarted: nat
    var nfinished: nat
    var console: bool

    /** The snapshot that the invariant speaks about. */
    ghost var state: Sched

    /** The snapshot agrees with the program's variables. */
    ghost predicate Agrees()
      reads this
    {
      && dirtyIn == state.dirtyIn && dirtyOut == state.dirtyOut && nblock == state.nblock && nprune == state.nprune
      && ready == state.ready && parked == state.parked && numjobs == state.numjobs
      && ntotal == state.ntotal && nstarted == state.nstarted && nfinished == state.nfinished
        && console == state.console
    }

    /** While the build runs, the edges marked as work are those that take part in it. */
    ghost predicate FlagsOk()
      reads this
    {
      && |work| == |g.edges| == |state.status|
      && (forall e: nat {:trigger work[e]} :: e < |g.edges| ==> (work[e] <==> !state.status[e].Idle?))
    }

    ghost predicate Valid()
      reads this
    {
      Inv(g, state) && Agrees() && FlagsOk()
    }

    ghost predicate ProducerSettled(n: nat)
      requires g.IsNode(n)
      reads this
    {
      && g.nodes[n].gen.Some? && g.nodes[n].gen.value < |state.status|
      && Settled(state.status[g.nodes[n].gen.value])
    }

    /** The state between two steps of planning. `stack` holds the edges being planned. */
    ghost predicate Planned(stack: seq<nat>)
      reads this
    {
      && Inv(g, state) && Agrees() && Fresh(state) && MarksOk(g, state, nodeDirty)
      && FlagsMatch(g, state, work, cycle, stack)
      && |nodeDirty| == |g.nodes| && |work| == |cycle| == |g.edges|
    }

    /** A build in which nothing has been planned: no edge carries a flag, every queue is empty. */
    constructor (g: Graph)
      requires g.WellFormed()
      ensures this.g == g && Planned([])
      ensures forall e: nat :: g.IsEdge(e) ==> e < |state.status| && state.status[e].Idle?
    {
      this.g := g;
      var no := seq(|g.edges|, _ => false);
      var zero := seq(|g.edges|, _ => 0);
      work, cycle, dirtyIn, dirtyOut, nblock, nprune := no, no, no, no, zero, zero;
      nodeDirty := seq(|g.nodes|, _ => false);
      ready, parked, numjobs := [], seq(|g.depth|, _ => []), seq(|g.depth|, _ => 0);
      ntotal, nstarted, nfinished, console := 0, 0, 0, false;
      state := Blank(g);
      new;
      BlankFacts(g);
    }

    // -------------------------------------------------------------------------------------
    // Planning
    // -------------------------------------------------------------------------------------

    /** Schedules the edge that builds node `n`, after everything it depends on. */
    method BuildAdd(n: nat, ghost stack: seq<nat>) returns (r: AddResult)
      requires Planned(stack) && g.IsNode(n) && g.NodeOk(n)
      requires stack == [] ||
               (Path(g, stack) && (g.nodes[n].gen.Some? ==> Feeds(g, stack[|stack| - 1], g.nodes[n].gen.value)))
      modifies this
      ensures r.Added? ==> PlannedMore(old(state), old(nodeDirty), old(work), stack) && TargetOk(n)
      ensures r.Added? && g.nodes[n].gen.None? ==> state == old(state)
      ensures r.Added? && g.nodes[n].gen.Some? ==> Within(g, old(state), state, Root(stack, g.nodes[n].gen.value))
      ensures r.CycleAt? ==> g.nodes[n].gen.Some? && exists p :: Loop(g, Root(stack, g.nodes[n].gen.value), p)
      ensures r.MissingFile? ==> LeadsNowhere(n, stack)
      decreases Unvisited(work), 1
    {
      hide EdgesOk, NodesOk, QueuesOk, TotalsOk, LogOk, Fresh, MarksOk;
      if g.nodes[n].gen.None? {
        if g.nodes[n].mtime == MTIME_MISSING {
          return MissingFile(n);
        }
        LeafMarks(g, state, nodeDirty, n);
        nodeDirty := nodeDirty[n := false];
        return Added;
      }
      var e := g.nodes[n].gen.value;
      assert FlagAt(g, state, work, cycle, stack, e);
      if cycle[e] {
        CycleFound(g, stack, e);
        return CycleAt(n);
      }
      WithinSame(g, state, state, Root(stack, e));
      if work[e] {
        return Added;
      }
      r := AddEdge(e, stack);
    }

    /** Planning went on from the given state, without touching the edges in `stack`. */
    ghost predicate PlannedMore(before: Sched, marks: seq<bool>, visited: seq<bool>, stack: seq<nat>)
      reads this
    {
      && Planned(stack) && Grows(g, before, state, SetOf(stack)) && SameMarks(g, marks, nodeDirty, stack)
      && Unvisited(work) <= Unvisited(visited)
    }

    /** The node needs no planning any more: its edge is planned, or it is a file that exists. */
    ghost predicate TargetOk(n: nat)
      requires g.IsNode(n)
      reads this
    {
      match g.nodes[n].gen
      case Some(e) => e < |state.status| && !state.status[e].Idle?
      case None => g.nodes[n].mtime != MTIME_MISSING && n < |nodeDirty| && !nodeDirty[n]
    }

    ghost predicate LeadsNowhere(n: nat, stack: seq<nat>)
      requires g.WellFormed() && g.IsNode(n)
    {
      if g.nodes[n].gen.None? then g.nodes[n].mtime == MTIME_MISSING
      else exists p :: DeadEnd(g, Root(stack, g.nodes[n].gen.value), p)
    }

    /** The part of buildadd for an edge that was not visited before. */
    method AddEdge(e: nat, ghost stack: seq<nat>) returns (r: AddResult)
      requires Planned(stack) && g.IsEdge(e) && !work[e] && |g.edges[e].outs| > 0
      requires stack == [] || (Path(g, stack) && Feeds(g, stack[|stack| - 1], e))
      modifies this
      ensures r.Added? ==> PlannedMore(old(state), old(nodeDirty), old(work), stack)
      ensures r.Added? ==> e < |state.status| && !state.status[e].Idle? && Within(g, old(state), state, Root(stack, e))
      ensures r.CycleAt? ==> exists p :: Loop(g, Root(stack, e), p)
      ensures r.MissingFile? ==> exists p :: DeadEnd(g, Root(stack, e), p)
      decreases Unvisited(work), 0
    {
      hide EdgesOk, NodesOk, QueuesOk, TotalsOk, LogOk, Fresh, MarksOk, Grows, InputsDone, OutDirty, Newest, Within;
      ghost var s0, marks0, work0 := state, nodeDirty, work;
      assert FlagAt(g, state, work, cycle, stack, e);
      Open(e, stack);
      ghost var s1, marks1, work1 := state, nodeDirty, work;
      PathExtend(g, stack, e);
      var newest;
      r, newest := AddInputs(e, stack);
      if r.Added? {
        ghost var s2, marks2 := state, nodeDirty;
        if !s1.dirtyOut[e] {
          InputMarks(g, marks1, marks2, stack, e, false);
        }
        Close(e, newest, stack);
        GrowsTrans(g, s0, s1, s2, SetOf(stack), SetOf(stack));
        GrowsTrans(g, s0, s2, state, SetOf(stack), SetOf(stack));
        EdgeMarks(g, marks0, marks1, marks2, nodeDirty, stack, e);
        WithinSame(g, s0, s1, Root(stack, e));
        WithinTrans(g, s0, s1, s2, Root(stack, e));
        WithinStack(g, s2, state, stack, e);
        WithinTrans(g, s0, s2, state, Root(stack, e));
      }
    }

    /** Marks edge `e` as visited and resets its outputs, its flags and its block count. */
    method Open(e: nat, ghost stack: seq<nat>)
      requires Planned(stack) && g.IsEdge(e) && !work[e] && |g.edges[e].outs| > 0 && e !in stack
      modifies this
      ensures Planned(stack + [e]) && Grows(g, old(state), state, SetOf(stack))
      ensures MarksExcept(g, old(nodeDirty), nodeDirty, e)
      ensures Unvisited(work) < Unvisited(old(work))
      ensures state.dirtyOut[e] == (e in g.stale) && InputsDone(g, state, e, 0) && state.status == old(state).status
      ensures !state.dirtyOut[e] ==> Marked(g, nodeDirty, e, false)
    {
      hide EdgesOk, NodesOk, QueuesOk, TotalsOk, LogOk, MarksOk, FlagsMatch, Grows, InputsDone, OpenState, Fresh,
        Unvisited;
      ghost var s, marks := state, nodeDirty;
      ghost var s' := OpenState(g, s, e);
      OpenFacts(g, s, work, cycle, stack, e);
      OneVisited(work, e);
      TouchFresh(g, s, s', e);
      cycle := cycle[e := true];
      work := work[e := true];
      ResetOutputs(e);
      if e in g.stale {
        dirtyOut := dirtyOut[e := true];
      }
      nblock := nblock[e := 0];
      state := s';
      TouchKeeps(g, s, s', e);
      MarksFrame(g, s, s', marks, nodeDirty, e);
    }

    /** Resets the outputs of edge `e`; the first is marked if recorded dependencies are missing. */
    method ResetOutputs(e: nat)
      requires g.WellFormed() && g.IsEdge(e) && |nodeDirty| == |g.nodes| && |g.edges[e].outs| > 0
      modifies `nodeDirty
      ensures MarksExcept(g, old(nodeDirty), nodeDirty, e)
      ensures e !in g.stale ==> Marked(g, nodeDirty, e, false)
    {
      assert g.EdgeOk(e);
      MarkOutputs(e, false);
      if e in g.stale {
        nodeDirty := nodeDirty[g.edges[e].outs[0] := true];
      }
    }

    /** Marks every output of edge `e`. */
    method MarkOutputs(e: nat, value: bool)
      requires g.WellFormed() && g.IsEdge(e) && |nodeDirty| == |g.nodes|
      modifies `nodeDirty
      ensures MarksExcept(g, old(nodeDirty), nodeDirty, e) && Marked(g, nodeDirty, e, value)
    {
      assert g.EdgeOk(e);
      var outs := g.edges[e].outs;
      var i := 0;
      while i < |outs|
        invariant 0 <= i <= |outs| && g.EdgeOk(e) && MarksExcept(g, old(nodeDirty), nodeDirty, e)
        invariant forall k: nat :: k < i ==> nodeDirty[outs[k]] == value
      {
        nodeDirty := nodeDirty[outs[i] := value];
        i := i + 1;
      }
    }

    /** Plans the inputs of edge `e`, counts those that block it and finds the newest of them. */
    method AddInputs(e: nat, ghost stack: seq<nat>) returns (r: AddResult, newest: Option<int>)
      requires Planned(stack + [e]) && g.IsEdge(e) && e !in stack && Path(g, stack + [e]) && InputsDone(g, state, e, 0)
      modifies this
      ensures r.Added? ==> Planned(stack + [e]) && Grows(g, old(state), state, SetOf(stack))
      ensures r.Added? ==>
        SameMarks(g, old(nodeDirty), nodeDirty, stack + [e]) && Unvisited(work) <= Unvisited(old(work))
      ensures r.Added? ==> g.EdgeOk(e) && InputsDone(g, state, e, |g.edges[e].ins|)
      ensures r.Added? ==> Within(g, old(state), state, Root(stack, e))
      ensures r.Added? ==> newest == Newest(g, e, g.edges[e].inorder) && state.dirtyOut[e] == old(state).dirtyOut[e]
      ensures r.CycleAt? ==> exists p :: Loop(g, Root(stack, e), p)
      ensures r.MissingFile? ==> exists p :: DeadEnd(g, Root(stack, e), p)
      decreases Unvisited(work), 3
    {
      hide EdgesOk, NodesOk, QueuesOk, TotalsOk, LogOk, Fresh, MarksOk, FlagsMatch, InputsDone, Grows, Newest, Within;
      assert g.EdgeOk(e);
      GrowsRefl(g, state, SetOf(stack));
      WithinSame(g, state, state, Root(stack, e));
      r, newest := Added, None;
      NewestNone(g, e);
      var i := 0;
      while i < |g.edges[e].ins|
        invariant 0 <= i <= |g.edges[e].ins| && g.EdgeOk(e) && r.Added?
        invariant Planned(stack + [e]) && Grows(g, old(state), state, SetOf(stack))
        invariant Within(g, old(state), state, Root(stack, e))
        invariant SameMarks(g, old(nodeDirty), nodeDirty, stack + [e]) && Unvisited(work) <= Unvisited(old(work))
        invariant InputsDone(g, state, e, i) && state.dirtyOut[e] == old(state).dirtyOut[e]
        invariant newest == Newest(g, e, if i < g.edges[e].inorder then i else g.edges[e].inorder)
      {
        ghost var s := state;
        r := AddInput(e, i, stack);
        if !r.Added? {
          return;
        }
        GrowsTrans(g, old(state), s, state, SetOf(stack), SetOf(stack + [e]));
        WithinTrans(g, old(state), s, state, Root(stack, e));
        ghost var s1 := state;
        newest := CountInput(e, i, newest, stack);
        NewestNext(g, e, i);
        GrowsTrans(g, old(state), s1, state, SetOf(stack), SetOf(stack));
        WithinSame(g, s1, state, Root(stack, e));
        WithinTrans(g, old(state), s1, state, Root(stack, e));
        i := i + 1;
      }
    }

    /** Plans input `i` of edge `e`. */
    method AddInput(e: nat, i: nat, ghost stack: seq<nat>) returns (r: AddResult)
      requires Planned(stack + [e]) && g.IsEdge(e) && g.EdgeOk(e) && i < |g.edges[e].ins|
      requires Path(g, stack + [e]) && InputsDone(g, state, e, i)
      modifies this
      ensures r.Added? ==> PlannedMore(old(state), old(nodeDirty), old(work), stack + [e])
      ensures r.Added? ==> InputsDone(g, state, e, i) && InputReady(g, state, e, i)
      ensures r.Added? ==> state.dirtyOut[e] == old(state).dirtyOut[e] && Within(g, old(state), state, Root(stack, e))
      ensures r.Added? && g.Producer(e, i).None? ==> !nodeDirty[g.edges[e].ins[i]]
      ensures r.CycleAt? ==> exists p :: Loop(g, Root(stack, e), p)
      ensures r.MissingFile? ==> exists p :: DeadEnd(g, Root(stack, e), p)
      decreases Unvisited(work), 2
    {
      hide EdgesOk, NodesOk, QueuesOk, TotalsOk, LogOk, Fresh, MarksOk, FlagsMatch, InputsDone, Path, Feeds, Within;
      ghost var s := state;
      InputFeeds(g, e, i);
      TopFacts(g, s, work, cycle, stack, e);
      r := BuildAdd(g.edges[e].ins[i], stack + [e]);
      if r.Added? {
        InputsGrow(g, s, state, e, i, SetOf(stack + [e]));
        assert state.status[e] == s.status[e];
        ReadyNow(g, state, e, i);
        if g.Producer(e, i).Some? {
          RootSame(stack, e, g.Producer(e, i).value);
        } else {
          WithinSame(g, s, state, Root(stack, e));
        }
      } else if g.Producer(e, i).Some? {
        RootSame(stack, e, g.Producer(e, i).value);
      } else {
        DeadEndFound(g, stack, e, i);
      }
    }

    /** Takes input `i` of edge `e` into account, which has been planned. */
    method CountInput(e: nat, i: nat, newest0: Option<int>, ghost stack: seq<nat>) returns (newest: Option<int>)
      requires Planned(stack + [e]) && g.IsEdge(e) && i < |g.edges[e].ins| && g.EdgeOk(e) && e !in stack
      requires InputsDone(g, state, e, i) && InputReady(g, state, e, i)
      requires g.Producer(e, i).None? ==> !nodeDirty[g.edges[e].ins[i]]
      modifies `dirtyIn, `nblock, `state
      ensures Planned(stack + [e]) && Grows(g, old(state), state, SetOf(stack))
      ensures InputsDone(g, state, e, i + 1) && state.dirtyOut == old(state).dirtyOut
        && state.status == old(state).status
      ensures newest == if i < g.edges[e].inorder then NewerOf(newest0, g.nodes[g.edges[e].ins[i]].mtime) else newest0
    {
      hide EdgesOk, NodesOk, QueuesOk, TotalsOk, LogOk, Fresh, MarksOk, FlagsMatch, InputsDone, InputReady, Touches,
        Grows, Inv, Path;
      ghost var s := state;
      InvParts(g, s);
      TopFacts(g, s, work, cycle, stack, e);
      var n := g.edges[e].ins[i];
      ghost var f := g.Producer(e, i);
      newest := newest0;
      if i < g.edges[e].inorder {
        if nodeDirty[n] {
          dirtyIn := dirtyIn[e := true];
        }
        if g.nodes[n].mtime != MTIME_MISSING && !(newest.Some? && newest.value > g.nodes[n].mtime) {
          newest := Some(g.nodes[n].mtime);
        }
      }
      if nodeDirty[n] || (g.nodes[n].gen.Some? && nblock[g.nodes[n].gen.value] > 0) {
        nblock := nblock[e := nblock[e] + 1];
      }
      state := s.(dirtyIn := dirtyIn, nblock := nblock);
      CountStep(g, s, state, nodeDirty, work, cycle, stack, e, i);
    }

    /** Compares the outputs of edge `e` with its newest input, until one is out of date. */
    method CheckOutputs(e: nat, newest: Option<int>, ghost stack: seq<nat>)
      requires Planned(stack + [e]) && g.IsEdge(e) && g.EdgeOk(e) && e !in stack
      requires newest == Newest(g, e, g.edges[e].inorder)
      requires InputsDone(g, state, e, |g.edges[e].ins|) && state.dirtyOut[e] == (e in g.stale)
      requires !state.dirtyOut[e] ==> Marked(g, nodeDirty, e, false)
      modifies `dirtyOut, `nodeDirty, `state
      ensures Planned(stack + [e]) && Grows(g, old(state), state, SetOf(stack))
      ensures MarksExcept(g, old(nodeDirty), nodeDirty, e) && state.status == old(state).status
      ensures InputsDone(g, state, e, |g.edges[e].ins|) && (state.dirtyOut[e] <==> OutDirty(g, e))
      ensures !state.dirtyOut[e] ==> Marked(g, nodeDirty, e, false)
    {
      hide EdgesOk, NodesOk, QueuesOk, TotalsOk, LogOk, IsDirty, Fresh, FlagsMatch, InputsDone, Grows, Newest;
      ghost var s, marks := state, nodeDirty;
      TopFacts(g, s, work, cycle, stack, e);
      var i := 0;
      while i < |g.edges[e].outs| && !dirtyOut[e]
        invariant 0 <= i <= |g.edges[e].outs| && |dirtyOut| == |g.edges| && dirtyOut == s.dirtyOut[e := dirtyOut[e]]
        invariant dirtyOut[e] <==> OutDirtyUpTo(g, e, i)
        invariant MarksExcept(g, marks, nodeDirty, e)
        invariant !dirtyOut[e] ==> Marked(g, nodeDirty, e, false)
      {
        var n := g.edges[e].outs[i];
        if IsDirty(g, n, e, newest) {
          nodeDirty := nodeDirty[n := true];
          dirtyOut := dirtyOut[e := true];
        }
        i := i + 1;
      }
      state := s.(dirtyOut := dirtyOut);
      TouchIn(g, s, state, e);
      TouchStep(g, s, state, marks, nodeDirty, work, cycle, stack, e);
      SameInputs(g, s, state, e);
    }

    /** Completes the plan for edge `e`: marks its outputs, sets its prune count and queues it
        if it is dirty and nothing blocks it. */
    method Close(e: nat, newest: Option<int>, ghost stack: seq<nat>)
      requires Planned(stack + [e]) && g.IsEdge(e) && g.EdgeOk(e) && e !in stack
      requires newest == Newest(g, e, g.edges[e].inorder)
      requires InputsDone(g, state, e, |g.edges[e].ins|) && state.dirtyOut[e] == (e in g.stale)
      requires !state.dirtyOut[e] ==> Marked(g, nodeDirty, e, false)
      modifies this
      ensures Planned(stack) && Grows(g, old(state), state, SetOf(stack))
      ensures MarksExcept(g, old(nodeDirty), nodeDirty, e) && !state.status[e].Idle?
      ensures work == old(work)
      ensures forall f: nat :: g.IsEdge(f) && f != e ==> state.status[f] == old(state).status[f]
    {
      hide EdgesOk, NodesOk, QueuesOk, TotalsOk, LogOk, Fresh, MarksOk, FlagsMatch, InputsDone, Grows, Newest, OutDirty;
      ghost var s0 := state;
      CheckOutputs(e, newest, stack);
      ghost var s1 := state;
      SetPrune(e, stack);
      ghost var s2 := state;
      Commit(e, stack);
      GrowsTrans(g, s0, s1, s2, SetOf(stack), SetOf(stack));
      GrowsTrans(g, s0, s2, state, SetOf(stack), SetOf(stack));
    }

    /** Adds edge `e` to the build and takes it off the stack. */
    method Commit(e: nat, ghost stack: seq<nat>)
      requires Planned(stack + [e]) && g.IsEdge(e) && g.EdgeOk(e) && e !in stack
      requires InputsDone(g, state, e, |g.edges[e].ins|) && (state.dirtyOut[e] <==> OutDirty(g, e))
      requires Marked(g, nodeDirty, e, Dirty(state, e)) && (!state.dirtyOut[e] ==> state.nprune[e] == state.nblock[e])
      modifies `cycle, `ready, `parked, `numjobs, `ntotal, `state
      ensures Planned(stack) && Grows(g, old(state), state, SetOf(stack)) && !state.status[e].Idle?
      ensures forall f: nat :: g.IsEdge(f) && f != e ==> state.status[f] == old(state).status[f]
    {
      hide EdgesOk, NodesOk, QueuesOk, TotalsOk, LogOk, Fresh, MarksOk, FlagsMatch, InputsDone, Grows, OutDirty,
        AdmitAndQueue;
      ghost var s := state;
      TopFacts(g, s, work, cycle, stack, e);
      AdmitGrows(g, s, e, SetOf(stack));
      PopFlags(g, s, work, cycle, stack, e);
      Enter(e);
      cycle := cycle[e := false];
    }

    /** Marks the outputs of edge `e` if it is dirty, and sets how many inputs have to be pruned
        before its outputs can be. */
    method SetPrune(e: nat, ghost stack: seq<nat>)
      requires Planned(stack + [e]) && g.IsEdge(e) && g.EdgeOk(e) && e !in stack
      requires InputsDone(g, state, e, |g.edges[e].ins|) && (!state.dirtyOut[e] ==> Marked(g, nodeDirty, e, false))
      modifies `nodeDirty, `nprune, `state
      ensures Planned(stack + [e]) && Grows(g, old(state), state, SetOf(stack))
      ensures MarksExcept(g, old(nodeDirty), nodeDirty, e) && state.status == old(state).status
      ensures InputsDone(g, state, e, |g.edges[e].ins|) && state.dirtyOut[e] == old(state).dirtyOut[e]
      ensures Marked(g, nodeDirty, e, Dirty(state, e)) && (!state.dirtyOut[e] ==> state.nprune[e] == state.nblock[e])
    {
      hide EdgesOk, NodesOk, QueuesOk, TotalsOk, LogOk, Fresh, MarksOk, FlagsMatch, InputsDone, Grows;
      ghost var s, marks := state, nodeDirty;
      TopFacts(g, s, work, cycle, stack, e);
      if dirtyIn[e] || dirtyOut[e] {
        MarkOutputs(e, true);
      }
      if !dirtyOut[e] {
        nprune := nprune[e := nblock[e]];
      }
      state := s.(nprune := nprune);
      TouchIn(g, s, state, e);
      TouchStep(g, s, state, marks, nodeDirty, work, cycle, stack, e);
      SameInputs(g, s, state, e);
    }

    /** Makes edge `e`, whose flags and counts are known, part of the build. */
    method Enter(e: nat)
      requires Inv(g, state) && Fresh(state) && Agrees() && g.IsEdge(e) && state.status[e].Idle? && g.EdgeOk(e)
      requires InputsDone(g, state, e, |g.edges[e].ins|)
      requires !state.dirtyOut[e] ==> state.nprune[e] == state.nblock[e]
      requires MarksOk(g, state, nodeDirty) && |nodeDirty| == |g.nodes| && Marked(g, nodeDirty, e, Dirty(state, e))
      requires state.dirtyOut[e] <==> OutDirty(g, e)
      modifies `ready, `parked, `numjobs, `ntotal, `state
      ensures state == AdmitAndQueue(g, old(state), e) && Agrees() && !state.status[e].Idle?
      ensures Inv(g, state) && Fresh(state) && MarksOk(g, state, nodeDirty)
      ensures forall f: nat :: g.IsEdge(f) && f != e ==> state.status[f] == old(state).status[f]
    {
      hide EdgesOk, NodesOk, QueuesOk, TotalsOk, LogOk, OutDirty, MarksOk, InputsDone, Enqueue, Admit, AdmitAndQueue,
        Admissible, Inv, Fresh;
      ghost var s := state;
      InvParts(g, s);
      AdmissibleNow(g, s, e);
      AdmitVariables(g, s, e);
      AdmitKeeps(g, s, e);
      AdmitMarks(g, s, nodeDirty, e);
      EnterQueue(e);
    }

    /** The end of buildadd: a dirty edge that nothing blocks is queued, and commands are counted. */
    method EnterQueue(e: nat)
      requires g.WellFormed() && Shape(g, state) && Agrees() && g.IsEdge(e) && Admissible(g, state, e)
      modifies `ready, `parked, `numjobs, `ntotal, `state
      ensures Shape(g, old(state)) && state == AdmitAndQueue(g, old(state), e) && Agrees()
    {
      hide Enqueue, Admit, AdmitAndQueue, Admissible, Inv;
      ghost var s, s1 := state, Admit(g, state, e);
      AdmitVariables(g, s, e);
      EnqueueTotal(g, s1, e, s.ntotal);
      EnqueueFrame(g, s1, e);
      if dirtyIn[e] || dirtyOut[e] {
        if nblock[e] == 0 {
          state := s1.(ntotal := s.ntotal);
          Queue(e);
        }
        if !g.edges[e].phony {
          ntotal := ntotal + 1;
        }
      }
      state := AdmitAndQueue(g, s, e);
    }

    // -------------------------------------------------------------------------------------
    // Queueing and announcing
    // -------------------------------------------------------------------------------------

    /** Adds an edge to the work queue, or to its pool's queue while the pool is full. */
    method Queue(e: nat)
      requires g.WellFormed() && Shape(g, state) && Agrees() && g.IsEdge(e)
      modifies `ready, `parked, `numjobs, `state
      ensures state == Enqueue(g, old(state), e) && Agrees()
    {
      var edge := g.edges[e];
      var full := false;
      if edge.pool.Some? && !edge.phony {
        var p := PoolIndex(g, e);
        if numjobs[p] == g.depth[p] {
          full := true;
          parked := parked[p := [e] + parked[p]];
        } else {
          numjobs := numjobs[p := numjobs[p] + 1];
        }
      }
      if !full {
        ready := [e] + ready;
      }
      state := Enqueue(g, state, e);
    }

    /** Tells every edge that uses node `n` that the node is done, or pruned. */
    method NodeDone(n: nat, prune: bool)
      requires Valid() && g.IsNode(n) && state.pruned[n] == prune
      requires NodeUses(g, state, n) <= state.open && ProducerSettled(n)
      modifies `nblock, `nprune, `ready, `parked, `numjobs, `ntotal, `state
      ensures Valid() && Advance(g, old(state), state)
      ensures state.open == old(state).open - NodeUses(g, old(state), n)
      ensures state.owed == old(state).owed
      decreases WaitingEdges(state), 2
    {
      hide EdgesOk, NodesOk, QueuesOk, TotalsOk, LogOk, Advance;
      ghost var s0 := state;
      AdvanceRefl(g, s0);
      var uses := g.nodes[n].uses;
      var i := 0;
      while i < |uses|
        invariant 0 <= i <= |uses|
        invariant Valid() && Advance(g, s0, state)
        invariant state.open == s0.open - FirstUses(g, s0, n, i)
        invariant state.owed == s0.owed && state.pruned[n] == prune
      {
        ghost var s := state;
        UseFacts(g, s0, s, n, i);
        AdvanceWaiting(g, s0, s);
        // skip edges not used in this build
        if work[uses[i].edge] {
          TellEdge(uses[i].edge, prune, uses[i].pos);
          AdvanceTrans(g, s0, s, state);
          AdvanceSettled(g, s0, state, n);
        }
        i := i + 1;
      }
    }

    /** The counter updates of one round of nodedone. Returns whether the edge can be pruned. */
    method CountDown(e: nat, prune: bool, ghost pos: nat) returns (last: bool)
      requires Valid() && CanTell(g, state, Use(e, pos), prune)
      modifies `nblock, `nprune, `state
      ensures g.IsEdge(e) && old(state).nblock[e] > 0 && (!dirtyOut[e] ==> old(state).nprune[e] > 0)
      ensures state == Tell(g, old(state), Use(e, pos), prune) && Agrees()
      ensures last == LastPrune(old(state), e, prune)
    {
      hide EdgesOk, NodesOk, QueuesOk, TotalsOk, LogOk;
      TellFacts(g, state, Use(e, pos), prune);
      last := false;
      if !(if prune then dirtyOut[e] else dirtyIn[e] || dirtyOut[e]) {
        nprune := nprune[e := nprune[e] - 1];
        last := nprune[e] == 0;
      }
      if !last {
        nblock := nblock[e := nblock[e] - 1];
      }
      state := Tell(g, state, Use(e, pos), prune);
    }

    /** One round of the loop of nodedone: edge `e` learns that its input `pos` is done or pruned. */
    method TellEdge(e: nat, prune: bool, ghost pos: nat)
      requires Valid() && CanTell(g, state, Use(e, pos), prune)
      modifies `nblock, `nprune, `ready, `parked, `numjobs, `ntotal, `state
      ensures Valid() && Advance(g, old(state), state)
      ensures state.open == old(state).open - {Use(e, pos)}
      ensures state.owed == old(state).owed
      decreases WaitingEdges(state), 1
    {
      hide EdgesOk, NodesOk, QueuesOk, TotalsOk, LogOk, Drop, Enqueue, Advance;
      ghost var s, u := state, Use(e, pos);
      TellFacts(g, s, u, prune);
      var last := CountDown(e, prune, pos);
      TellAdvance(g, s, u, prune);
      if last {
        // either the edge was clean, or all its blocking inputs were pruned
        TellDrops(g, s, u, prune);
        UsesStable(g, s, state, e);
        OwedFresh(g, s, e);
        PruneOutputs(e, s);
      } else if nblock[e] == 0 {
        EnqueueFrame(g, state, e);
        ghost var s1 := state;
        Queue(e);
        EnqueueAdvance(g, s1, e);
        AdvanceTrans(g, s, s1, state);
        TellQueues(g, s, u, prune);
      } else {
        TellWaits(g, s, u, prune);
      }
    }

    /** The outputs of an edge that need not run are announced as pruned. */
    method PruneOutputs(e: nat, ghost s0: Sched)
      requires Agrees() && FlagsOk() && g.WellFormed() && Shape(g, state) && g.IsEdge(e) && state.status[e].Waiting?
      requires Inv(g, Drop(g, state, e)) && Advance(g, s0, state)
      requires state.open !! EdgeUses(g, state, e) && e !in state.owed
      modifies `nblock, `nprune, `ready, `parked, `numjobs, `ntotal, `state
      ensures Valid() && Advance(g, s0, state)
      ensures state.open == old(state).open && state.owed == old(state).owed
      decreases WaitingEdges(state), 0
    {
      hide EdgesOk, NodesOk, QueuesOk, TotalsOk, LogOk, Advance, EdgeUses, Drop;
      ghost var s1 := state;
      DropFrame(g, s1, e);
      state := Drop(g, s1, e);
      ghost var s2 := state;
      AdvanceTrans(g, s0, s1, s2);
      UsesStable(g, s1, s2, e);
      assert WaitingEdges(s2) == WaitingEdges(s1) - {e};
      PruneEach(e);
      AdvanceTrans(g, s0, s2, state);
      AdvanceSame(g, s2, state, e);
      if (dirtyIn[e] || dirtyOut[e]) && !g.edges[e].phony {
        ghost var s := state;
        PayFacts(g, s, e);
        ntotal := ntotal - 1;
        state := s.(ntotal := s.ntotal - 1, owed := s.owed - {e});
        PayKeeps(g, s, state, e);
        PayAdvance(g, s0, s, state);
      }
    }

    method PruneEach(e: nat)
      requires Valid() && g.IsEdge(e) && state.status[e].Pruned? && EdgeUses(g, state, e) <= state.open
      modifies `nblock, `nprune, `ready, `parked, `numjobs, `ntotal, `state
      ensures Valid() && Advance(g, old(state), state)
      ensures state.open == old(state).open - EdgeUses(g, old(state), e)
      ensures state.owed == old(state).owed
      decreases WaitingEdges(state), 3
    {
      hide EdgesOk, NodesOk, QueuesOk, TotalsOk, LogOk, Advance;
      ghost var s2 := state;
      ghost var base := state.open - EdgeUses(g, s2, e);
      assert g.EdgeOk(e);
      AdvanceRefl(g, s2);
      var outs := g.edges[e].outs;
      var j := 0;
      while j < |outs|
        invariant 0 <= j <= |outs| && g.EdgeOk(e)
        invariant Valid() && Advance(g, s2, state)
        invariant state.open == base + UsesFrom(g, s2, e, j)
        invariant state.owed == s2.owed
      {
        ghost var s := state;
        UsesSplit(g, s2, e, j);
        AdvanceUses(g, s2, s, outs[j]);
        AdvanceSettled(g, s2, s, outs[j]);
        AdvanceWaiting(g, s2, s);
        PrunedOutput(g, s2, e, j);
        NodeDone(outs[j], true);
        AdvanceTrans(g, s2, s, state);
        j := j + 1;
      }
    }

    // -------------------------------------------------------------------------------------
    // Finishing jobs
    // -------------------------------------------------------------------------------------

    /** Announces the outputs of an edge that ran. An output of a `restat` edge counts as pruned exactly
        if the run left it `untouched`, which is for the file system to say. */
    method EdgeDone(e: nat, untouched: set<nat>)
      requires Valid() && g.IsEdge(e) && state.status[e].Done?
      requires EdgeUses(g, state, e) == state.open && state.owed == {} && UnmarkedFrom(g, state, e, 0)
      modifies `nblock, `nprune, `ready, `parked, `numjobs, `ntotal, `state
      ensures Valid() && Drift(g, old(state), state) && state.open == {} && state.owed == {}
      ensures MarkedUpTo(g, state, e, untouched, |g.edges[e].outs|)
    {
      hide EdgesOk, NodesOk, QueuesOk, TotalsOk, LogOk, Advance, NodeUses, UsesFrom, MarkedUpTo;
      ghost var s0 := state;
      assert g.EdgeOk(e);
      var outs := g.edges[e].outs;
      UsesEnd(g, s0, e);
      NoneMarked(g, s0, e, untouched);
      var i := 0;
      while i < |outs|
        invariant 0 <= i <= |outs| && g.EdgeOk(e)
        invariant Valid() && Drift(g, s0, state)
        invariant state.open == UsesFrom(g, s0, e, i) && state.owed == {}
        invariant UnmarkedFrom(g, state, e, i) && MarkedUpTo(g, state, e, untouched, i)
      {
        UsesSplit(g, s0, e, i);
        ghost var s := state;
        DriftUses(g, s0, s, outs[i]);
        MarkOutput(e, outs[i], g.edges[e].restat && i in untouched);
        ghost var s1 := state;
        DriftUses(g, s0, s1, outs[i]);
        NodeDone(outs[i], g.edges[e].restat && i in untouched);
        UnmarkedNext(g, s, s1, state, e, i);
        MarkedNext(g, s, s1, state, e, untouched, i);
        AdvanceDrift(g, s1, state);
        DriftTrans(g, s0, s1, state);
        i := i + 1;
      }
    }

    /** Records whether output `n` of edge `e`, which just ran, counts as pruned. */
    ghost method MarkOutput(e: nat, n: nat, prune: bool)
      requires Valid() && g.IsEdge(e) && state.status[e].Done? && g.IsNode(n) && g.nodes[n].gen == Some(e)
      requires NodeUses(g, state, n) <= state.open && !state.pruned[n] && (prune ==> g.edges[e].restat)
      modifies `state
      ensures Valid() && state == old(state).(pruned := old(state).pruned[n := prune])
      ensures !prune ==> state == old(state)
    {
      if prune {
        MarkKeeps(g, state, n);
        state := MarkPruned(g, state, n);
      } else {
        assert state.pruned == state.pruned[n := prune];
      }
    }

    /** Announces the outputs of a phony edge. */
    method PhonyDone(e: nat)
      requires Valid() && g.IsEdge(e) && state.status[e].Done?
      requires EdgeUses(g, state, e) == state.open && state.owed == {} && UnmarkedFrom(g, state, e, 0)
      modifies `nblock, `nprune, `ready, `parked, `numjobs, `ntotal, `state
      ensures Valid() && Drift(g, old(state), state) && state.open == {} && state.owed == {}
    {
      hide EdgesOk, NodesOk, QueuesOk, TotalsOk, LogOk, Advance, NodeUses, UsesFrom;
      ghost var s0 := state;
      assert g.EdgeOk(e);
      var outs := g.edges[e].outs;
      UsesEnd(g, s0, e);
      var i := 0;
      while i < |outs|
        invariant 0 <= i <= |outs| && g.EdgeOk(e)
        invariant Valid() && Drift(g, s0, state)
        invariant state.open == UsesFrom(g, s0, e, i) && state.owed == {}
        invariant UnmarkedFrom(g, state, e, i)
      {
        UsesSplit(g, s0, e, i);
        ghost var s := state;
        DriftUses(g, s0, s, outs[i]);
        NodeDone(outs[i], false);
        UnmarkedNext(g, s, s, state, e, i);
        AdvanceDrift(g, s, state);
        DriftTrans(g, s0, s, state);
        i := i + 1;
      }
    }

    /** The job of edge `e` has ended: its pool slot goes to a parked edge, if there is one, and
        unless the job failed its outputs are announced. */
    method JobDone(e: nat, failed: bool, untouched: set<nat>)
      requires Valid() && g.IsEdge(e) && state.status[e].Running? && !g.edges[e].phony
      requires state.open == {} && state.owed == {}
      modifies `nblock, `nprune, `ready, `parked, `numjobs, `ntotal, `nfinished, `console, `state
      ensures Valid() && state.open == {} && state.owed == {}
      ensures Ended(g, old(state), state, e, failed)
      ensures !failed ==> MarkedUpTo(g, state, e, untouched, |g.edges[e].outs|)
    {
      hide EdgesOk, NodesOk, QueuesOk, TotalsOk, LogOk, JobEnd;
      ghost var s := state;
      JobEndKeeps(g, s, e, !failed);
      JobEndKinds(g, s, e, !failed);
      EndJob(e, failed);
      if !failed {
        UsesStable(g, s, state, e);
        UnmarkedRunning(g, s, state, e);
        EdgeDone(e, untouched);
      }
    }

    /** The bookkeeping of jobdone. */
    method EndJob(e: nat, failed: bool)
      requires Valid() && g.IsEdge(e) && state.status[e].Running? && !g.edges[e].phony
      modifies `ready, `parked, `numjobs, `nfinished, `console, `state
      ensures state == JobEnd(g, old(state), e, !failed) && Agrees()
    {
      hide Inv, QueuesOk, JobEnd;
      InvParts(g, state);
      JobEndVariables(g, state, e, !failed);
      nfinished := nfinished + 1;
      if g.edges[e].pool.Some? {
        var p := PoolIndex(g, e);
        if p == CONSOLE {
          console := false;
        }
        // move edge from pool queue to main work queue
        if parked[p] != [] {
          ready := [parked[p][0]] + ready;
          parked := parked[p := parked[p][1..]];
        } else {
          numjobs := numjobs[p := numjobs[p] - 1];
        }
      }
      state := JobEnd(g, state, e, !failed);
    }

    // -------------------------------------------------------------------------------------
    // Starting jobs
    // -------------------------------------------------------------------------------------

    /** Takes the first ready edge, which is phony, off the queue and announces its outputs. */
    method TakePhony() returns (e: nat)
      requires Valid() && ready != [] && g.IsEdge(ready[0]) && g.edges[ready[0]].phony
      requires state.open == {} && state.owed == {}
      modifies `nblock, `nprune, `ready, `parked, `numjobs, `ntotal, `state
      ensures Valid() && state.open == {} && state.owed == {}
      ensures Skipped(g, old(state), state, e) && old(state).ready != [] && e == old(state).ready[0]
    {
      hide EdgesOk, NodesOk, QueuesOk, TotalsOk, LogOk;
      ghost var s := state;
      HeadFacts(g, s);
      SkipKeeps(g, s);
      e := ready[0];
      ready := ready[1..];
      state := Skip(g, s);
      UsesStable(g, s, state, e);
      UnmarkedRunning(g, s, state, e);
      PhonyDone(e);
    }

    /** Takes the first ready edge off the queue and tries to start its command, which may fail
        for reasons outside the program. */
    method TakeJob(started: bool) returns (e: nat)
      requires Valid() && ready != [] && g.IsEdge(ready[0]) && !g.edges[ready[0]].phony
      modifies `ready, `nstarted, `console, `state
      ensures Valid() && old(state).ready != [] && e == old(state).ready[0]
      ensures state == Begin(g, old(state), started)
    {
      hide EdgesOk, NodesOk, QueuesOk, TotalsOk, LogOk;
      ghost var s := state;
      HeadFacts(g, s);
      BeginKeeps(g, s, started);
      e := ready[0];
      ready := ready[1..];
      nstarted := nstarted + 1;
      if started && g.edges[e].pool == Some(CONSOLE) {
        console := true;
      }
      state := Begin(g, s, started);
    }
  }
}
