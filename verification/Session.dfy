/** A whole session of samu (main() in samu.c): the targets are planned one after the other, and
    if that succeeds the build is run. */
module Session {
  import opened Wrappers
  import opened BuildGraph
  import opened Schedule
  import opened ScheduleTheorems
  import opened Planning
  import opened Announcements
  import opened Builder
  import opened BuildLoop

  /** Below target `n` there is neither a dependency cycle nor a missing file. */
  ghost predicate Sound(g: Graph, n: nat)
    requires g.WellFormed() && g.IsNode(n)
  {
    match g.nodes[n].gen
    case None => g.nodes[n].mtime != MTIME_MISSING
    case Some(e) => forall p :: !Loop(g, e, p) && !DeadEnd(g, e, p)
  }

  /** Target `n` is a file that exists, or its edge is part of the plan. */
  ghost predicate InPlan(g: Graph, s: Sched, n: nat)
    requires Shape(g, s) && g.IsNode(n)
  {
    match g.nodes[n].gen
    case None => g.nodes[n].mtime != MTIME_MISSING
    case Some(e) => g.IsEdge(e) && !s.status[e].Idle?
  }

  /** A path leads from the edge that builds a target down to edge `e`. */
  ghost predicate Below(g: Graph, targets: seq<nat>, e: nat)
    requires g.WellFormed()
  {
    exists i, p :: 0 <= i < |targets| && LeadsDown(g, targets[i], p, e)
  }

  ghost predicate LeadsDown(g: Graph, n: nat, p: seq<nat>, e: nat)
    requires g.WellFormed()
  {
    g.IsNode(n) && Path(g, p) && g.nodes[n].gen == Some(p[0]) && p[|p| - 1] == e
  }

  lemma BelowTarget(g: Graph, targets: seq<nat>, i: nat, s: Sched, s': Sched, e: nat)
    requires g.WellFormed() && i < |targets| && g.IsNode(targets[i]) && g.nodes[targets[i]].gen.Some?
    requires Within(g, s, s', g.nodes[targets[i]].gen.value) && g.IsEdge(e) && s.status[e].Idle? && !s'.status[e].Idle?
    ensures Below(g, targets, e)
  {
    assert Reaches(g, g.nodes[targets[i]].gen.value, e);
    var p :| Path(g, p) && p[0] == g.nodes[targets[i]].gen.value && p[|p| - 1] == e;
    assert LeadsDown(g, targets[i], p, e);
  }

  /** Plans the targets. It succeeds exactly if all of them are sound, and otherwise names a
      target below which it found the cycle or the missing file. */
  method AddTargets(b: Build, targets: seq<nat>) returns (r: AddResult)
    requires b.Planned([]) && forall i :: 0 <= i < |targets| ==> b.g.IsNode(targets[i])
    modifies b
    ensures r.Added? <==> forall i :: 0 <= i < |targets| ==> Sound(b.g, targets[i])
    ensures r.Added? ==> b.Planned([]) && forall i :: 0 <= i < |targets| ==> InPlan(b.g, b.state, targets[i])
    ensures r.Added? ==>
              forall e: nat :: b.g.IsEdge(e) && old(b.state).status[e].Idle? && !b.state.status[e].Idle? ==>
                Below(b.g, targets, e)
    ensures r.CycleAt? ==> exists i, p :: 0 <= i < |targets| && CycleBelow(b.g, targets[i], p)
  {
    hide EdgesOk, NodesOk, QueuesOk, TotalsOk, LogOk, MarksOk, Fresh, Loop, DeadEnd, Within, Below;
    r := Added;
    var i := 0;
    while i < |targets|
      invariant 0 <= i <= |targets| && r.Added? && b.Planned([])
      invariant forall k :: 0 <= k < i ==> InPlan(b.g, b.state, targets[k])
      invariant forall e: nat {:trigger b.state.status[e]} ::
        b.g.IsEdge(e) && old(b.state).status[e].Idle? && !b.state.status[e].Idle? ==> Below(b.g, targets, e)
    {
      ghost var s := b.state;
      assert b.g.NodeOk(targets[i]);
      r := b.BuildAdd(targets[i], []);
      if !r.Added? {
        assert !Sound(b.g, targets[i]);
        if r.CycleAt? {
          ghost var p :| Loop(b.g, b.g.nodes[targets[i]].gen.value, p);
          assert CycleBelow(b.g, targets[i], p);
        }
        return;
      }
      forall e: nat | b.g.IsEdge(e) && s.status[e].Idle? && !b.state.status[e].Idle? ensures Below(b.g, targets, e) {
        if b.g.nodes[targets[i]].gen.Some? {
          BelowTarget(b.g, targets, i, s, b.state, e);
        }
      }
      forall k | 0 <= k < i ensures InPlan(b.g, b.state, targets[k]) {
        assert InPlan(b.g, s, targets[k]);
      }
      i := i + 1;
    }
    forall k | 0 <= k < |targets| ensures Sound(b.g, targets[k]) {
      InPlanSound(b.g, b.state, targets[k]);
    }
  }

  ghost predicate CycleBelow(g: Graph, n: nat, p: seq<nat>)
    requires g.WellFormed()
  {
    g.IsNode(n) && g.nodes[n].gen.Some? && Loop(g, g.nodes[n].gen.value, p)
  }

  lemma InPlanSound(g: Graph, s: Sched, n: nat)
    requires Inv(g, s) && g.IsNode(n) && InPlan(g, s, n)
    ensures Sound(g, n)
  {
    hide EdgesOk, NodesOk, QueuesOk, TotalsOk, LogOk, Loop, DeadEnd;
    if g.nodes[n].gen.Some? {
      var e := g.nodes[n].gen.value;
      forall p ensures !Loop(g, e, p) && !DeadEnd(g, e, p) {
        PlannedIsSound(g, s, e, p);
      }
    }
  }

  /** Edge `e` was started exactly once. */
  predicate StartedOnce(log: seq<Event>, e: nat) {
    exists i :: 0 <= i < |log| && log[i] == Started(e) && forall k :: 0 <= k < |log| && log[k] == Started(e) ==> k == i
  }

  /** The plan that a session draws up: nothing has run, the flags are those of the graph, all
      targets are in it, and nothing else but what is below them. */
  ghost predicate IsPlan(g: Graph, targets: seq<nat>, plan: Sched, marks: seq<bool>) {
    && Inv(g, plan) && Fresh(plan) && MarksOk(g, plan, marks)
    && (forall i :: 0 <= i < |targets| ==> g.IsNode(targets[i]) && InPlan(g, plan, targets[i]))
    && forall e: nat :: g.IsEdge(e) && !plan.status[e].Idle? ==> Below(g, targets, e)
  }

  /** The edge was dealt with: it was found to be up to date after all, or it is done, and if it has
      a command, that was started exactly once. */
  ghost predicate DealtWith(g: Graph, s: Sched, e: nat) {
    && g.IsEdge(e) && e < |s.status| && Settled(s.status[e])
    && (s.status[e].Pruned? ==> Started(e) !in s.log)
    && (s.status[e].Done? && !g.edges[e].phony ==> StartedOnce(s.log, e))
  }

  /** A session: with sound targets it runs until nothing is left, at most `polls` polls. Only
      commands below the targets that are out of date are started. If it ends by itself and no job failed, every
      command below a target that is out of date was dealt with; if the plan has any command to run,
      so was every edge below a target that a change concerns. A poll at which no job ended was made while
      jobs were running, as many as could be started. */
  method Session(g: Graph, targets: seq<nat>, maxjobs: nat, maxfail: nat, limited: bool, polls: nat)
    returns (r: AddResult, exited: bool, numfail: nat, b: Build, ghost plan: Sched, ghost marks: seq<bool>,
      ghost ended: seq<nat>)
    requires g.WellFormed() && maxjobs > 0 && maxfail > 0
    requires forall i :: 0 <= i < |targets| ==> g.IsNode(targets[i])
    ensures b.g == g && (r.Added? <==> forall i :: 0 <= i < |targets| ==> Sound(g, targets[i]))
    ensures r.Added? ==> IsPlan(g, targets, plan, marks) && Inv(g, b.state) && Continues(g, plan, b.state)
    ensures r.Added? ==> forall e: nat :: Started(e) in b.state.log ==>
              g.IsEdge(e) && Below(g, targets, e) && !g.edges[e].phony && OutOfDate(g, e)
    ensures r.Added? ==> Shape(g, b.state) && numfail == |Broken(g, b.state)| && (plan.ntotal == 0 ==> exited)
    ensures r.Added? && exited && plan.ntotal > 0 && numfail < maxfail ==> AtRest(g, b.state)
    ensures r.Added? && exited && numfail == 0 ==>
              forall e: nat :: g.IsEdge(e) && Below(g, targets, e) && !g.edges[e].phony && OutOfDate(g, e) ==>
                DealtWith(g, b.state, e)
    ensures r.Added? && exited && numfail == 0 && plan.ntotal > 0 ==>
              forall e: nat :: g.IsEdge(e) && Below(g, targets, e) && Concerned(g, e) ==> DealtWith(g, b.state, e)
    ensures r.Added? ==> |ended| <= polls && (!exited ==> |ended| == polls)
    ensures r.Added? ==> Sum(ended) == b.nfinished && |Productive(ended)| <= |g.edges|
    ensures r.Added? ==> |RunningEdges(g, b.state)| <= if exited then 0 else maxjobs
    ensures r.Added? ==> StartsWithin(b.state.log, 0, maxfail)
    ensures r.Added? && !exited && ended != [] && ended[|ended| - 1] == 0 ==>
              Waits(g, b.state, if limited then 1 else maxjobs, maxjobs, numfail, maxfail)
  {
    hide EdgesOk, NodesOk, QueuesOk, TotalsOk, LogOk, MarksOk, Sound, OutOfDate, Concerned, Below, DealtWith, Settled;
    hide StartsWithin;
    b := new Build(g);
    exited, numfail, plan, marks, ended := false, 0, b.state, b.nodeDirty, [];
    r := AddTargets(b, targets);
    if r.Added? {
      StartRun(b);
      plan, marks := b.state, b.nodeDirty;
      exited, numfail, ended := Run(b, maxjobs, maxfail, limited, polls);
      AllWithin(g, plan, b.state, maxfail);
      forall e: nat | Started(e) in b.state.log
        ensures g.IsEdge(e) && Below(g, targets, e) && !g.edges[e].phony && OutOfDate(g, e)
      {
        OnlyOutOfDate(g, plan, marks, b.state, e);
      }
      forall e: nat | g.IsEdge(e) && Below(g, targets, e) && exited && numfail == 0
        ensures !g.edges[e].phony && OutOfDate(g, e) ==> DealtWith(g, b.state, e)
        ensures plan.ntotal > 0 && Concerned(g, e) ==> DealtWith(g, b.state, e)
      {
        AllDealtWith(g, targets, plan, marks, b.state, e);
      }
    }
  }

  /** Nothing was started before the run. */
  lemma AllWithin(g: Graph, plan: Sched, s: Sched, maxfail: nat)
    requires Inv(g, plan) && Fresh(plan) && Continues(g, plan, s) && StartsWithin(s.log, |plan.log|, maxfail)
    ensures StartsWithin(s.log, 0, maxfail)
  {
    hide EdgesOk, NodesOk, QueuesOk, TotalsOk, EventOk;
    forall k | 0 <= k < |plan.log| ensures !plan.log[k].Started? {
      var ev := plan.log[k];
      assert ev in plan.log && LogAt(g, plan, ev.edge);
    }
    assert forall i :: 0 <= i < |plan.log| ==> s.log[i] == plan.log[i];
  }

  /** Whatever is below a target is in the plan. */
  lemma BelowPlanned(g: Graph, targets: seq<nat>, plan: Sched, marks: seq<bool>, e: nat)
    requires g.WellFormed() && IsPlan(g, targets, plan, marks) && Below(g, targets, e)
    ensures g.IsEdge(e) && !plan.status[e].Idle?
  {
    hide EdgesOk, NodesOk, QueuesOk, TotalsOk, LogOk, MarksOk, Fresh;
    var i, p :| 0 <= i < |targets| && LeadsDown(g, targets[i], p, e);
    hide Below, LeadsDown;
    assert InPlan(g, plan, targets[i]);
    PathPlanned(g, plan, targets[i], p, e);
  }

  lemma PathPlanned(g: Graph, s: Sched, n: nat, p: seq<nat>, e: nat)
    requires Inv(g, s) && g.WellFormed() && LeadsDown(g, n, p, e) && InPlan(g, s, n)
    ensures g.IsEdge(e) && !s.status[e].Idle?
  {
    hide EdgesOk, NodesOk, QueuesOk, TotalsOk, LogOk, Step;
    PathDescends(g, s, p, 0, |p| - 1);
  }

  lemma OnlyOutOfDate(g: Graph, plan: Sched, marks: seq<bool>, s: Sched, e: nat)
    requires Inv(g, plan) && MarksOk(g, plan, marks) && Inv(g, s) && Continues(g, plan, s) && Started(e) in s.log
    ensures g.IsEdge(e) && !plan.status[e].Idle? && !g.edges[e].phony && OutOfDate(g, e)
  {
    hide NodesOk, QueuesOk, TotalsOk, MarksOk, OutOfDate, PlanAt, DeliveryAt;
    assert LogAt(g, s, e);
    assert CountersAt(g, s, e);
    DirtyMeans(g, plan, marks, e);
  }

  /** What the end of a run without failures comes to, edge by edge. */
  lemma AllDealtWith(g: Graph, targets: seq<nat>, plan: Sched, marks: seq<bool>, s: Sched, e: nat)
    requires IsPlan(g, targets, plan, marks) && Inv(g, s) && Continues(g, plan, s) && g.IsEdge(e)
      && Below(g, targets, e)
    requires plan.ntotal > 0 ==> forall f: nat :: g.IsEdge(f) && Active(s.status[f]) ==> Settled(s.status[f])
    ensures !g.edges[e].phony && OutOfDate(g, e) ==> DealtWith(g, s, e)
    ensures plan.ntotal > 0 && Concerned(g, e) ==> DealtWith(g, s, e)
  {
    hide EdgesOk, NodesOk, QueuesOk, TotalsOk, LogOk, MarksOk, OutOfDate, Concerned, Below, Fresh;
    BelowPlanned(g, targets, plan, marks, e);
    DirtyMeans(g, plan, marks, e);
    ActiveReaches(g, plan, marks, e);
    DirtyIsActive(g, plan, e);
    if plan.ntotal == 0 {
      NothingToDo(g, plan);
    } else if Active(s.status[e]) {
      StartsOnce(g, s, e);
    }
  }

  lemma DirtyIsActive(g: Graph, s: Sched, e: nat)
    requires Inv(g, s) && g.IsEdge(e) && !s.status[e].Idle?
    ensures Dirty(s, e) ==> Active(s.status[e])
  {
    hide NodesOk, QueuesOk, TotalsOk, LogOk;
    assert PlanAt(g, s, e);
  }

  /** A settled edge with a command was started once, unless it was pruned. */
  lemma StartsOnce(g: Graph, s: Sched, e: nat)
    requires Inv(g, s) && g.IsEdge(e) && Settled(s.status[e])
    ensures DealtWith(g, s, e)
  {
    hide EdgesOk, NodesOk, QueuesOk, TotalsOk, EventOk;
    hide LogOk;
    LogFacts(g, s, e);
    if s.status[e].Done? && !g.edges[e].phony {
      OnlyOnce(s.log, e);
    }
  }

  lemma LogFacts(g: Graph, s: Sched, e: nat)
    requires g.WellFormed() && Shape(g, s) && LogOk(g, s)
    ensures NoDuplicates(s.log) && LogAt(g, s, e)
  {
    hide EventOk, LogAt;
  }

  lemma OnlyOnce(log: seq<Event>, e: nat)
    requires NoDuplicates(log) && Started(e) in log
    ensures StartedOnce(log, e)
  {
    var i :| 0 <= i < |log| && log[i] == Started(e);
  }

  /** Without commands to run, no edge with a command is dirty. */
  lemma NothingToDo(g: Graph, s: Sched)
    requires Inv(g, s) && Fresh(s) && s.ntotal == 0
    ensures forall e: nat :: g.IsEdge(e) && !g.edges[e].phony && Active(s.status[e]) ==> !Dirty(s, e)
  {
    hide EdgesOk, NodesOk, QueuesOk, LogOk;
    forall e: nat | g.IsEdge(e) && !g.edges[e].phony && Active(s.status[e]) ensures !Dirty(s, e) {
      assert e !in Commands(g, s);
    }
  }

  lemma StartRun(b: Build)
    requires b.Planned([])
    ensures b.Valid()
  {
    hide EdgesOk, NodesOk, QueuesOk, TotalsOk, LogOk, MarksOk, Fresh;
    forall e: nat | e < |b.g.edges| ensures b.work[e] <==> !b.state.status[e].Idle? {
      assert FlagAt(b.g, b.state, b.work, b.cycle, [], e);
    }
  }
}
