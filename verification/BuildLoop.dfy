/** The main loop of samu (build() in build.c): it starts ready edges while there are free job
    slots, waits for jobs to end, and stops when nothing is left to wait for. Which jobs end at
    a poll, whether they failed, whether a start succeeds and what the load average says are
    arbitrary, so what is proved here holds of every run. */
module BuildLoop {
  import opened BuildGraph
  import opened Schedule
  import opened ScheduleSteps
  import opened ScheduleJobs
  import opened Planning
  import opened Announcements
  import opened ScheduleTheorems
  import opened Builder
  import opened JobSlots

  /** The edges whose job failed or could not be started. */
  ghost function Broken(g: Graph, s: Sched): set<nat>
    requires Shape(g, s)
  {
    set e: nat | e < |g.edges| && (s.status[e].Failed? || s.status[e].Stuck?)
  }

  ghost function RunningEdges(g: Graph, s: Sched): set<nat>
    requires Shape(g, s)
  {
    set e: nat | e < |g.edges| && s.status[e].Running?
  }

  /** There are as many running edges as busy slots. */
  lemma RunningCount(g: Graph, s: Sched, edge: seq<nat>, busy: set<nat>)
    requires SlotsMatch(g, s, edge, busy)
    ensures |RunningEdges(g, s)| == |busy|
  {
    var image := set k | k in busy && k < |edge| :: edge[k];
    forall e | e in RunningEdges(g, s) ensures e in image {
      assert Placed(edge, busy, e);
    }
    assert RunningEdges(g, s) == image;
    ImageSize(edge, busy);
  }

  lemma {:induction false} ImageSize(edge: seq<nat>, busy: set<nat>)
    requires forall k :: k in busy ==> k < |edge|
    requires forall k, l {:trigger edge[k], edge[l]} :: k in busy && l in busy && k != l ==> edge[k] != edge[l]
    ensures |set k | k in busy && k < |edge| :: edge[k]| == |busy|
  {
    var image := set k | k in busy && k < |edge| :: edge[k];
    if busy == {} {
      assert image == {};
    } else {
      var k :| k in busy;
      ImageSize(edge, busy - {k});
      var rest := set l | l in busy - {k} && l < |edge| :: edge[l];
      assert image == rest + {edge[k]} && edge[k] !in rest;
    }
  }

  /** What a poll waits for: some job runs, at most as many as may, and no ready edge is left unless
      enough jobs run or failed. */
  ghost predicate Waits(g: Graph, s: Sched, least: nat, maxjobs: nat, numfail: nat, maxfail: nat) {
    && Shape(g, s)
    && 0 < |RunningEdges(g, s)| <= maxjobs
    && (s.ready == [] || |RunningEdges(g, s)| >= least || numfail >= maxfail)
  }

  /** The busy slots hold the running edges, each once. */
  ghost predicate SlotsMatch(g: Graph, s: Sched, edge: seq<nat>, busy: set<nat>) {
    && Shape(g, s)
    && (forall k {:trigger k in busy} :: k in busy ==>
          k < |edge| && g.IsEdge(edge[k]) && s.status[edge[k]].Running? && !g.edges[edge[k]].phony)
    && (forall k, l {:trigger edge[k], edge[l]} :: k in busy && l in busy && k != l ==> edge[k] != edge[l])
    && (forall e: nat {:trigger Placed(edge, busy, e)} :: g.IsEdge(e) && s.status[e].Running? ==> Placed(edge, busy, e))
  }

  ghost predicate Placed(edge: seq<nat>, busy: set<nat>, e: nat) {
    exists k :: k in busy && k < |edge| && edge[k] == e
  }

  /** The variables of the main loop fit together. */
  ghost predicate LoopOk(b: Build, t: JobTable, maxjobs: nat, numjobs: nat, numfail: nat)
    reads b, t
  {
    && b.Valid() && t.Valid() && b.state.open == {} && b.state.owed == {}
    && SlotsMatch(b.g, b.state, t.edge, t.Busy())
    && numjobs == |t.Busy()| <= maxjobs && |t.next| <= maxjobs
    && numfail == |Broken(b.g, b.state)|
  }

  lemma BrokenSame(g: Graph, s: Sched, s': Sched)
    requires Shape(g, s) && Shape(g, s')
    requires forall e: nat {:trigger s'.status[e]} :: g.IsEdge(e) ==>
               (s'.status[e].Failed? || s'.status[e].Stuck? <==> s.status[e].Failed? || s.status[e].Stuck?)
    ensures Broken(g, s') == Broken(g, s)
  {
  }

  lemma MatchSame(g: Graph, s: Sched, s': Sched, edge: seq<nat>, edge': seq<nat>, busy: set<nat>)
    requires SlotsMatch(g, s, edge, busy) && Shape(g, s') && edge <= edge'
    requires forall e: nat {:trigger s'.status[e]} :: g.IsEdge(e) ==> s'.status[e].Running? == s.status[e].Running?
    ensures SlotsMatch(g, s', edge', busy)
  {
    forall k | k in busy
      ensures k < |edge'| && g.IsEdge(edge'[k]) && s'.status[edge'[k]].Running? && !g.edges[edge'[k]].phony
    {
      assert edge'[k] == edge[k];
    }
    forall k, l | k in busy && l in busy && k != l ensures edge'[k] != edge'[l] {
      assert edge'[k] == edge[k] && edge'[l] == edge[l];
    }
    forall e: nat | g.IsEdge(e) && s'.status[e].Running? ensures Placed(edge', busy, e) {
      assert Placed(edge, busy, e);
      var k :| k in busy && k < |edge| && edge[k] == e;
      assert edge'[k] == e;
    }
  }

  lemma MatchStart(g: Graph, s: Sched, s': Sched, edge: seq<nat>, busy: set<nat>, slot: nat, e: nat)
    requires SlotsMatch(g, s, edge, busy) && Shape(g, s') && slot < |edge| && slot !in busy
    requires g.IsEdge(e) && !g.edges[e].phony && !s.status[e].Running? && s'.status == s.status[e := Running]
    ensures SlotsMatch(g, s', edge[slot := e], busy + {slot})
  {
    var edge', busy' := edge[slot := e], busy + {slot};
    forall f: nat | g.IsEdge(f) && s'.status[f].Running? ensures Placed(edge', busy', f) {
      if f == e {
        assert edge'[slot] == e;
      } else {
        assert Placed(edge, busy, f);
        var k :| k in busy && k < |edge| && edge[k] == f;
        assert edge'[k] == f && k in busy';
      }
    }
  }

  lemma MatchEnd(g: Graph, s: Sched, s': Sched, edge: seq<nat>, busy: set<nat>, slot: nat, failed: bool)
    requires SlotsMatch(g, s, edge, busy) && slot in busy && slot < |edge| && Ended(g, s, s', edge[slot], failed)
    ensures SlotsMatch(g, s', edge, busy - {slot})
  {
    var busy' := busy - {slot};
    forall f: nat | g.IsEdge(f) && s'.status[f].Running? ensures Placed(edge, busy', f) {
      assert Placed(edge, busy, f);
      var k :| k in busy && k < |edge| && edge[k] == f;
      assert k in busy';
    }
  }

  // ---------------------------------------------------------------------------------------
  // The limit on failures
  // ---------------------------------------------------------------------------------------

  /** How many jobs failed, or failed to start, in a stretch of the history. */
  function Failures(log: seq<Event>): (n: nat) {
    if log == [] then 0 else Failures(log[..|log| - 1]) + if log[|log| - 1].Broke? then 1 else 0
  }

  /** From point `from` of the history on, a job was only started while fewer than `maxfail` had failed. */
  predicate StartsWithin(log: seq<Event>, from: nat, maxfail: nat) {
    forall i {:trigger log[i]} :: from <= i < |log| && log[i].Started? ==> Failures(log[..i]) < maxfail
  }

  /** No job was started since the history was `old`. */
  predicate NoStart(older: seq<Event>, newer: seq<Event>) {
    older <= newer && forall i {:trigger newer[i]} :: |older| <= i < |newer| ==> !newer[i].Started?
  }

  function BrokeIn(log: seq<Event>): set<nat> {
    set ev | ev in log && ev.Broke? :: ev.edge
  }

  lemma {:induction false} FailuresAre(log: seq<Event>)
    requires NoDuplicates(log)
    ensures Failures(log) == |BrokeIn(log)|
  {
    if log == [] {
      assert BrokeIn(log) == {};
    } else {
      var front, ev := log[..|log| - 1], log[|log| - 1];
      FailuresAre(front);
      assert log == front + [ev];
      if ev.Broke? {
        assert ev.edge !in BrokeIn(front);
        assert BrokeIn(log) == BrokeIn(front) + {ev.edge};
      } else {
        assert BrokeIn(log) == BrokeIn(front);
      }
    }
  }

  /** The history has one failure for every broken edge. */
  lemma FailuresCounted(g: Graph, s: Sched)
    requires g.WellFormed() && Shape(g, s) && LogOk(g, s)
    ensures Failures(s.log) == |Broken(g, s)|
  {
    hide EventOk;
    FailuresAre(s.log);
    forall e: nat ensures e in BrokeIn(s.log) <==> e in Broken(g, s) {
      assert LogAt(g, s, e);
      assert e in BrokeIn(s.log) <==> Broke(e) in s.log;
    }
    assert BrokeIn(s.log) == Broken(g, s);
  }

  /** Where no edge with a command came to have been started, no start was recorded. */
  lemma NothingStarted(g: Graph, s: Sched, s': Sched)
    requires g.WellFormed() && Shape(g, s) && Shape(g, s') && LogOk(g, s) && LogOk(g, s') && s.log <= s'.log
    requires forall e: nat {:trigger s'.status[e]} :: g.IsEdge(e) && !g.edges[e].phony && WasStarted(s'.status[e]) ==>
               WasStarted(s.status[e])
    ensures NoStart(s.log, s'.log)
  {
    hide EventOk, WasStarted;
    forall i | |s.log| <= i < |s'.log| ensures !s'.log[i].Started? {
      var ev := s'.log[i];
      assert ev !in s.log;
      assert LogAt(g, s', ev.edge) && LogAt(g, s, ev.edge);
      assert ev in s'.log;
    }
  }

  lemma NoStartRefl(log: seq<Event>)
    ensures NoStart(log, log)
  {
  }

  lemma NoStartTrans(log: seq<Event>, log1: seq<Event>, log2: seq<Event>)
    requires NoStart(log, log1) && NoStart(log1, log2)
    ensures NoStart(log, log2)
  {
    forall i | |log| <= i < |log2| ensures !log2[i].Started? {
      if i < |log1| {
        assert log2[i] == log1[i];
      }
    }
  }

  lemma QuietKeeps(log: seq<Event>, newer: seq<Event>, from: nat, maxfail: nat)
    requires StartsWithin(log, from, maxfail) && NoStart(log, newer)
    ensures StartsWithin(newer, from, maxfail)
  {
    forall i | from <= i < |newer| && newer[i].Started? ensures Failures(newer[..i]) < maxfail {
      assert newer[i] == log[i] && newer[..i] == log[..i];
    }
  }

  /** One job was started, or failed to start. */
  ghost predicate OneStart(older: seq<Event>, newer: seq<Event>) {
    exists e :: newer == older + [Started(e)] || newer == older + [Started(e), Broke(e)]
  }

  lemma StepKeeps(log: seq<Event>, newer: seq<Event>, from: nat, maxfail: nat)
    requires StartsWithin(log, from, maxfail) && Failures(log) < maxfail
    requires NoStart(log, newer) || OneStart(log, newer)
    ensures StartsWithin(newer, from, maxfail)
  {
    if NoStart(log, newer) {
      QuietKeeps(log, newer, from, maxfail);
    } else {
      forall i | from <= i < |newer| && newer[i].Started? ensures Failures(newer[..i]) < maxfail {
        if i < |log| {
          assert newer[i] == log[i] && newer[..i] == log[..i];
        } else {
          assert newer[..i] == log;
        }
      }
    }
  }

  /** The loop that starts ready edges. It stays within `limit` running jobs, and starts nothing once
      `maxfail` jobs have failed. */
  method StartReady(b: Build, t: JobTable, limit: nat, maxjobs: nat, numjobs0: nat, numfail0: nat, maxfail: nat)
    returns (numjobs: nat, numfail: nat)
    requires LoopOk(b, t, maxjobs, numjobs0, numfail0) && limit <= maxjobs
    modifies b, t
    ensures LoopOk(b, t, maxjobs, numjobs, numfail)
    ensures b.ready == [] || numjobs >= limit || numfail >= maxfail
    ensures numjobs0 >= limit || numfail0 >= maxfail ==> b.state == old(b.state)
    ensures numjobs0 <= numjobs && (numjobs <= limit || numjobs == numjobs0)
    ensures StartsWithin(b.state.log, |old(b.state).log|, maxfail)
    ensures b.nfinished == old(b.nfinished) && Continues(b.g, old(b.state), b.state)
  {
    numjobs, numfail := numjobs0, numfail0;
    while b.ready != [] && numjobs < limit && numfail < maxfail
      invariant LoopOk(b, t, maxjobs, numjobs, numfail)
      invariant numjobs0 >= limit || numfail0 >= maxfail ==> b.state == old(b.state)
      invariant numjobs0 <= numjobs && (numjobs <= limit || numjobs == numjobs0)
      invariant StartsWithin(b.state.log, |old(b.state).log|, maxfail)
      invariant b.nfinished == old(b.nfinished) && Continues(b.g, old(b.state), b.state)
      decreases Unstarted(b.state)
    {
      hide LoopOk, Continues, StartsWithin, NoStart;
      ghost var s := b.state;
      numjobs, numfail := StartNext(b, t, maxjobs, numjobs, numfail);
      StepKeeps(s.log, b.state.log, |old(b.state).log|, maxfail);
      ContinuesTrans(b.g, old(b.state), s, b.state);
    }
  }

  /** Takes the first ready edge. */
  method StartNext(b: Build, t: JobTable, maxjobs: nat, numjobs0: nat, numfail0: nat)
    returns (numjobs: nat, numfail: nat)
    requires LoopOk(b, t, maxjobs, numjobs0, numfail0) && numjobs0 < maxjobs && b.ready != []
    modifies b, t
    ensures LoopOk(b, t, maxjobs, numjobs, numfail)
    ensures b.nfinished == old(b.nfinished) && Unstarted(b.state) < Unstarted(old(b.state))
    ensures numjobs0 <= numjobs <= numjobs0 + 1 && Failures(old(b.state).log) == numfail0
    ensures NoStart(old(b.state).log, b.state.log) || OneStart(old(b.state).log, b.state.log)
    ensures Continues(b.g, old(b.state), b.state)
  {
    hide EdgesOk, NodesOk, QueuesOk, TotalsOk, LogOk, Continues, NoStart, OneStart, SlotsMatch;
    HeadFacts(b.g, b.state);
    if b.g.edges[b.ready[0]].phony {
      numjobs, numfail := numjobs0, numfail0;
      SkipPhony(b, t, maxjobs, numjobs, numfail);
    } else {
      numjobs, numfail := StartJob(b, t, maxjobs, numjobs0, numfail0);
    }
  }

  /** The first ready edge is phony: it needs no job. */
  method SkipPhony(b: Build, t: JobTable, maxjobs: nat, numjobs: nat, numfail: nat)
    requires LoopOk(b, t, maxjobs, numjobs, numfail)
    requires b.ready != [] && b.g.IsEdge(b.ready[0]) && b.g.edges[b.ready[0]].phony
    modifies b
    ensures LoopOk(b, t, maxjobs, numjobs, numfail)
    ensures b.nfinished == old(b.nfinished) && Unstarted(b.state) < Unstarted(old(b.state))
    ensures Failures(old(b.state).log) == numfail && NoStart(old(b.state).log, b.state.log)
    ensures Continues(b.g, old(b.state), b.state)
  {
    hide EdgesOk, NodesOk, QueuesOk, TotalsOk, LogOk, Continues, NoStart;
    ghost var s := b.state;
    FailuresCounted(b.g, s);
    var e := b.TakePhony();
    SkipStep(b.g, s, b.state, e);
    MatchSame(b.g, s, b.state, t.edge, t.edge, t.Busy());
  }

  /** Finds a slot for the first ready edge, which has a command, and starts its job there. */
  method StartJob(b: Build, t: JobTable, maxjobs: nat, numjobs0: nat, numfail0: nat)
    returns (numjobs: nat, numfail: nat)
    requires LoopOk(b, t, maxjobs, numjobs0, numfail0) && numjobs0 < maxjobs
    requires b.ready != [] && b.g.IsEdge(b.ready[0]) && !b.g.edges[b.ready[0]].phony
    modifies b, t
    ensures LoopOk(b, t, maxjobs, numjobs, numfail)
    ensures b.nfinished == old(b.nfinished) && Unstarted(b.state) < Unstarted(old(b.state))
    ensures numjobs + numfail == numjobs0 + numfail0 + 1 && numjobs0 <= numjobs && numfail0 <= numfail
    ensures Failures(old(b.state).log) == numfail0
    ensures OneStart(old(b.state).log, b.state.log)
    ensures Continues(b.g, old(b.state), b.state)
  {
    hide EdgesOk, NodesOk, QueuesOk, TotalsOk, LogOk, SlotsMatch, Begin;
    FailuresCounted(b.g, b.state);
    MakeRoom(b, t, maxjobs, numjobs0, numfail0);
    ghost var s, busy := b.state, t.Busy();
    HeadFacts(b.g, s);
    var started: bool := *;
    BeginStep(b.g, s, started);
    var e := b.TakeJob(started);
    numjobs, numfail := numjobs0, numfail0;
    if started {
      ghost var edge := t.edge;
      var slot := t.Take(e);
      MatchStart(b.g, s, b.state, edge, busy, slot, e);
      numjobs := numjobs + 1;
    } else {
      MatchSame(b.g, s, b.state, t.edge, t.edge, busy);
      numfail := numfail + 1;
    }
  }

  /** There is a free slot. */
  method MakeRoom(b: Build, t: JobTable, maxjobs: nat, numjobs: nat, numfail: nat)
    requires LoopOk(b, t, maxjobs, numjobs, numfail) && numjobs < maxjobs
    modifies t
    ensures LoopOk(b, t, maxjobs, numjobs, numfail) && t.head < |t.next|
  {
    hide EdgesOk, NodesOk, QueuesOk, TotalsOk, LogOk, SlotsMatch, GrownSize;
    ghost var edge, busy := t.edge, t.Busy();
    t.Grow(maxjobs);
    MatchSame(b.g, b.state, b.state, edge, t.edge, busy);
  }

  lemma SkipStep(g: Graph, s: Sched, s': Sched, e: nat)
    requires Skipped(g, s, s', e) && g.WellFormed() && LogOk(g, s) && LogOk(g, s') && g.edges[e].phony
    ensures Continues(g, s, s') && NoStart(s.log, s'.log)
    ensures Broken(g, s') == Broken(g, s) && Unstarted(s') < Unstarted(s)
    ensures forall f: nat :: g.IsEdge(f) ==> s'.status[f].Running? == s.status[f].Running?
  {
    hide LogOk;
    BrokenSame(g, s, s');
    assert e in Unstarted(s) && e !in Unstarted(s');
    NothingStarted(g, s, s');
  }

  lemma BeginStep(g: Graph, s: Sched, started: bool)
    requires Shape(g, s) && s.ready != [] && g.IsEdge(s.ready[0]) && s.status[s.ready[0]].Ready?
    ensures var e, s' := s.ready[0], Begin(g, s, started);
            && s'.nfinished == s.nfinished && s'.open == s.open && s'.owed == s.owed
            && s'.status == s.status[e := if started then Running else Stuck]
            && s'.log == s.log + (if started then [Started(e)] else [Started(e), Broke(e)])
            && Continues(g, s, s') && Unstarted(s') < Unstarted(s)
            && (started ==> Broken(g, s') == Broken(g, s))
            && (!started ==> |Broken(g, s')| == |Broken(g, s)| + 1)
  {
    var e, s' := s.ready[0], Begin(g, s, started);
    BeginFrame(g, s, started);
    hide Begin, Continues;
    FewerUnstarted(s, s', e);
    if started {
      BrokenSame(g, s, s');
    } else {
      SetAdd(Broken(g, s), Broken(g, s'), e);
    }
  }

  lemma BeginFrame(g: Graph, s: Sched, started: bool)
    requires Shape(g, s) && s.ready != [] && g.IsEdge(s.ready[0]) && s.status[s.ready[0]].Ready?
    ensures var e, s' := s.ready[0], Begin(g, s, started);
            && s'.nfinished == s.nfinished && s'.open == s.open && s'.owed == s.owed
            && s'.status == s.status[e := if started then Running else Stuck]
            && s'.log == s.log + (if started then [Started(e)] else [Started(e), Broke(e)])
            && Continues(g, s, s')
  {
  }

  lemma FewerUnstarted(s: Sched, s': Sched, e: nat)
    requires e < |s.status| && s.status[e].Ready?
      && (s'.status == s.status[e := Running] || s'.status == s.status[e := Stuck])
    ensures Unstarted(s') < Unstarted(s)
  {
    assert e in Unstarted(s) && e !in Unstarted(s');
  }

  /** The jobs that were in the slots `gone` have ended, those in `failures` with a failure. */
  ghost predicate EndedIn(g: Graph, s: Sched, edge: seq<nat>, gone: set<nat>, failures: set<nat>) {
    forall k {:trigger k in gone} :: k in gone ==>
      && k < |edge| && g.IsEdge(edge[k]) && edge[k] < |s.status|
      && s.status[edge[k]] == if k in failures then Failed else Done
  }

  /** One poll. The jobs in the busy slots among `hangups` have ended, those among `failures` with a
      failure; all of them are dealt with, and no others. */
  method Poll(b: Build, t: JobTable, hangups: set<nat>, failures: set<nat>, maxjobs: nat, numjobs0: nat, numfail0: nat)
    returns (numjobs: nat, numfail: nat, ghost ended: nat)
    requires LoopOk(b, t, maxjobs, numjobs0, numfail0)
    modifies b, t
    ensures LoopOk(b, t, maxjobs, numjobs, numfail)
    ensures b.nfinished == old(b.nfinished) + ended && Continues(b.g, old(b.state), b.state)
    ensures numjobs + ended == numjobs0 && NoStart(old(b.state).log, b.state.log)
    ensures ended == 0 ==> b.state == old(b.state) && numfail == numfail0
    ensures t.Busy() == old(t.Busy()) - hangups
    ensures Dealt(b.g, b.state, old(t.edge), old(t.Busy()), t.Busy(), old(t.Busy()) * hangups, failures, ended,
              numfail - numfail0)
  {
    hide Continues, LoopOk, NoStart, SlotEnded, GoneSoFar, Dealt;
    ContinuesRefl(b, t, maxjobs, numjobs0, numfail0);
    NoStartRefl(b.state.log);
    numjobs, numfail, ended := numjobs0, numfail0, 0;
    ghost var busy, edge := t.Busy(), t.edge;
    NoneGone(b, t, maxjobs, numjobs, numfail, hangups, failures);
    var i := 0;
    while i < |t.next|
      invariant i <= |t.next| == old(|t.next|) && LoopOk(b, t, maxjobs, numjobs, numfail) && t.edge == edge
      invariant b.nfinished == old(b.nfinished) + ended && Continues(b.g, old(b.state), b.state)
      invariant numjobs + ended == numjobs0 && NoStart(old(b.state).log, b.state.log)
      invariant ended == 0 ==> b.state == old(b.state) && numfail == numfail0
      invariant Dealt(b.g, b.state, edge, busy, t.Busy(), GoneSoFar(busy, hangups, i), failures, ended,
                  numfail - numfail0)
    {
      ghost var s, was, n := b.state, t.Busy(), 0;
      ghost var fewer := numfail - numfail0;
      numjobs, numfail, n := PollSlot(b, t, i, i in hangups, i in failures, maxjobs, numjobs, numfail);
      DealtStep(b.g, s, b.state, edge, busy, was, t.Busy(), hangups, failures, i, ended, fewer, n, numfail - numfail0);
      ContinuesTrans(b.g, old(b.state), s, b.state);
      NoStartTrans(old(b.state).log, s.log, b.state.log);
      ended := ended + n;
      i := i + 1;
    }
    AllDealt(b.g, b.state, edge, busy, t.Busy(), hangups, failures, ended, numfail - numfail0, |t.next|);
  }

  /** The busy slots below `i` whose jobs have ended. */
  ghost function GoneSoFar(busy: set<nat>, hangups: set<nat>, i: nat): set<nat> {
    set k | k in busy && k in hangups && k < i
  }

  /** The slots `gone` were dealt with: `ended` of them, `failed` with a failure. */
  ghost predicate Dealt(g: Graph, s: Sched, edge: seq<nat>, busy: set<nat>, left: set<nat>, gone: set<nat>,
                        failures: set<nat>, ended: int, failed: int)
  {
    left == busy - gone && ended == |gone| && failed == |gone * failures| && EndedIn(g, s, edge, gone, failures)
  }

  lemma NoneGone(b: Build, t: JobTable, maxjobs: nat, numjobs: nat, numfail: nat, hangups: set<nat>,
                 failures: set<nat>)
    requires LoopOk(b, t, maxjobs, numjobs, numfail)
    ensures Dealt(b.g, b.state, t.edge, t.Busy(), t.Busy(), GoneSoFar(t.Busy(), hangups, 0), failures, 0, 0)
    ensures forall k :: k in t.Busy() ==> k < |t.next|
  {
    hide Inv;
    assert GoneSoFar(t.Busy(), hangups, 0) == {};
  }

  lemma DealtStep(g: Graph, s: Sched, s': Sched, edge: seq<nat>, busy: set<nat>, left: set<nat>, left': set<nat>,
                  hangups: set<nat>, failures: set<nat>, i: nat, ended: nat, failed: int, n: nat, failed': int)
    requires Dealt(g, s, edge, busy, left, GoneSoFar(busy, hangups, i), failures, ended, failed)
    requires n == if i in hangups && i in left then 1 else 0
    requires n == 0 ==> s' == s && failed' == failed && left' == left
    requires n == 1 ==> left' == left - {i} && failed' == failed + if i in failures then 1 else 0
    requires n == 1 ==> i < |edge| && SlotEnded(g, s, s', edge[i], i in failures)
    ensures Dealt(g, s', edge, busy, left', GoneSoFar(busy, hangups, i + 1), failures, ended + n, failed')
  {
    hide SlotEnded, EndedIn;
    var gone := GoneSoFar(busy, hangups, i);
    GoneNext(busy, hangups, i);
    hide GoneSoFar;
    if n == 1 {
      OneMoreEnded(g, s, s', edge, gone, i, failures);
      assert busy - (gone + {i}) == busy - gone - {i};
    }
  }

  lemma GoneNext(busy: set<nat>, hangups: set<nat>, i: nat)
    ensures var gone := GoneSoFar(busy, hangups, i);
      && i !in gone
      && GoneSoFar(busy, hangups, i + 1) == if i in hangups && i in busy then gone + {i} else gone
  {
  }

  lemma AllDealt(g: Graph, s: Sched, edge: seq<nat>, busy: set<nat>, left: set<nat>, hangups: set<nat>,
                 failures: set<nat>, ended: int, failed: int, n: nat)
    requires Dealt(g, s, edge, busy, left, GoneSoFar(busy, hangups, n), failures, ended, failed)
    requires forall k :: k in busy ==> k < n
    ensures Dealt(g, s, edge, busy, left, busy * hangups, failures, ended, failed) && left == busy - hangups
  {
    hide EndedIn;
    assert GoneSoFar(busy, hangups, n) == busy * hangups;
  }

  /** Slot `i` is looked at after the poll. */
  method PollSlot(b: Build, t: JobTable, i: nat, hangup: bool, failed: bool, maxjobs: nat, numjobs0: nat, numfail0: nat)
    returns (numjobs: nat, numfail: nat, ghost n: nat)
    requires LoopOk(b, t, maxjobs, numjobs0, numfail0) && i < |t.next|
    modifies b, t
    ensures LoopOk(b, t, maxjobs, numjobs, numfail) && |t.next| == old(|t.next|) && t.edge == old(t.edge)
    ensures n == (if hangup && i in old(t.Busy()) then 1 else 0) && numjobs + n == numjobs0
    ensures b.nfinished == old(b.nfinished) + n && Continues(b.g, old(b.state), b.state)
    ensures NoStart(old(b.state).log, b.state.log)
    ensures n == 0 ==> b.state == old(b.state) && numfail == numfail0 && t.Busy() == old(t.Busy())
    ensures n == 1 ==> t.Busy() == old(t.Busy()) - {i} && numfail == numfail0 + if failed then 1 else 0
    ensures n == 1 ==> i < |t.edge| && SlotEnded(b.g, old(b.state), b.state, t.edge[i], failed)
  {
    hide LoopOk, Continues, SlotEnded;
    SlotFlag(b, t, maxjobs, numjobs0, numfail0, i);
    ContinuesRefl(b, t, maxjobs, numjobs0, numfail0);
    numjobs, numfail, n := numjobs0, numfail0, 0;
    if t.busy[i] && hangup {
      numjobs, numfail := EndSlot(b, t, i, failed, maxjobs, numjobs, numfail);
      n := 1;
    }
  }

  lemma OneMoreEnded(g: Graph, s: Sched, s': Sched, edge: seq<nat>, gone: set<nat>, i: nat, failures: set<nat>)
    requires EndedIn(g, s, edge, gone, failures) && i !in gone
    requires i < |edge| && SlotEnded(g, s, s', edge[i], i in failures)
    ensures EndedIn(g, s', edge, gone + {i}, failures)
    ensures |gone + {i}| == |gone| + 1
    ensures |(gone + {i}) * failures| == |gone * failures| + if i in failures then 1 else 0
  {
    SetAdd(gone, gone + {i}, i);
    if i in failures {
      SetAdd(gone * failures, (gone + {i}) * failures, i);
    } else {
      assert (gone + {i}) * failures == gone * failures;
    }
  }

  /** The job of edge `e` has ended, and what ended before stays as it is. */
  ghost predicate SlotEnded(g: Graph, s: Sched, s': Sched, e: nat, failed: bool) {
    && Shape(g, s) && Shape(g, s') && g.IsEdge(e) && s'.status[e] == (if failed then Failed else Done)
    && s.status[e].Running?
    && (forall f: nat {:trigger s'.status[f]} :: g.IsEdge(f) && f != e ==>
          (s.status[f].Done? || s.status[f].Failed? ==> s'.status[f] == s.status[f]))
  }

  lemma ContinuesRefl(b: Build, t: JobTable, maxjobs: nat, numjobs: nat, numfail: nat)
    requires LoopOk(b, t, maxjobs, numjobs, numfail)
    ensures Continues(b.g, b.state, b.state)
  {
    hide EdgesOk, NodesOk, QueuesOk, TotalsOk, LogOk;
  }

  lemma SlotFlag(b: Build, t: JobTable, maxjobs: nat, numjobs: nat, numfail: nat, i: nat)
    requires LoopOk(b, t, maxjobs, numjobs, numfail) && i < |t.next|
    ensures i < |t.busy| && (t.busy[i] <==> i in t.Busy()) && i < |t.edge|
  {
    hide Inv;
  }

  /** The job in slot `i` has ended. */
  method EndSlot(b: Build, t: JobTable, i: nat, failed: bool, maxjobs: nat, numjobs0: nat, numfail0: nat)
    returns (numjobs: nat, numfail: nat)
    requires LoopOk(b, t, maxjobs, numjobs0, numfail0) && i in t.Busy() && i < |t.edge|
    modifies b, t
    ensures LoopOk(b, t, maxjobs, numjobs, numfail) && |t.next| == old(|t.next|) && t.edge == old(t.edge)
    ensures b.nfinished == old(b.nfinished) + 1 && Continues(b.g, old(b.state), b.state)
    ensures numjobs == numjobs0 - 1 && NoStart(old(b.state).log, b.state.log)
    ensures t.Busy() == old(t.Busy()) - {i} && numfail == numfail0 + if failed then 1 else 0
    ensures SlotEnded(b.g, old(b.state), b.state, t.edge[i], failed)
  {
    hide EdgesOk, NodesOk, QueuesOk, TotalsOk, LogOk, Continues, NoStart;
    numjobs, numfail := numjobs0 - 1, numfail0;
    var untouched: set<nat> := *;
    ghost var s, busy := b.state, t.Busy();
    var e := t.edge[i];
    b.JobDone(e, failed, untouched);
    EndStep(b.g, s, b.state, e, failed);
    MatchEnd(b.g, s, b.state, t.edge, busy, i, failed);
    t.Release(i);
    if failed {
      numfail := numfail + 1;
    }
  }

  lemma EndStep(g: Graph, s: Sched, s': Sched, e: nat, failed: bool)
    requires g.WellFormed() && Shape(g, s) && Shape(g, s') && LogOk(g, s) && LogOk(g, s')
    requires Ended(g, s, s', e, failed) && g.IsEdge(e) && s.status[e].Running?
    ensures Continues(g, s, s') && NoStart(s.log, s'.log) && SlotEnded(g, s, s', e, failed)
    ensures failed ==> |Broken(g, s')| == |Broken(g, s)| + 1
    ensures !failed ==> Broken(g, s') == Broken(g, s)
  {
    hide LogOk, NoStart, Ended, Continues;
    EndOthers(g, s, s', e, failed);
    EndStarts(g, s, s', e, failed);
    EndBroken(g, s, s', e, failed);
  }

  lemma EndOthers(g: Graph, s: Sched, s': Sched, e: nat, failed: bool)
    requires Ended(g, s, s', e, failed) && Shape(g, s') && g.IsEdge(e) && s.status[e].Running?
    ensures SlotEnded(g, s, s', e, failed)
  {
  }

  lemma EndStarts(g: Graph, s: Sched, s': Sched, e: nat, failed: bool)
    requires Ended(g, s, s', e, failed) && s.status[e].Running? && g.WellFormed() && LogOk(g, s) && LogOk(g, s')
    ensures Continues(g, s, s') && NoStart(s.log, s'.log)
  {
    hide LogOk;
    NothingStarted(g, s, s');
  }

  lemma EndBroken(g: Graph, s: Sched, s': Sched, e: nat, failed: bool)
    requires Ended(g, s, s', e, failed) && s.status[e].Running?
    ensures failed ==> |Broken(g, s')| == |Broken(g, s)| + 1
    ensures !failed ==> Broken(g, s') == Broken(g, s)
  {
    if failed {
      SetAdd(Broken(g, s), Broken(g, s'), e);
    } else {
      BrokenSame(g, s, s');
    }
  }

  function Sum(q: seq<nat>): (r: nat)
  {
    if q == [] then 0 else Sum(q[..|q| - 1]) + q[|q| - 1]
  }

  /** The polls at which some job ended. */
  ghost function Productive(q: seq<nat>): set<nat> {
    set k: nat | k < |q| && q[k] > 0
  }

  lemma {:induction false} SumBound(q: seq<nat>)
    ensures |Productive(q)| <= Sum(q)
  {
    if q == [] {
      assert Productive(q) == {};
    } else {
      var front, n := q[..|q| - 1], q[|q| - 1];
      SumBound(front);
      if n > 0 {
        assert Productive(q) == Productive(front) + {|front|};
      } else {
        assert Productive(q) == Productive(front);
      }
    }
  }

  lemma SumNone()
    ensures Sum([]) == 0 && Productive([]) == {}
  {
  }

  lemma SumSnoc(q: seq<nat>, n: nat)
    ensures Sum(q + [n]) == Sum(q) + n
  {
    assert (q + [n])[..|q|] == q;
  }

  /** Runs the build, for at most `polls` polls; `ended` tells how many jobs ended at each of them.
      The plan stays what it was, and never do more jobs run than may. A poll at which no job ended was
      made while jobs were running, as many as could be started. If the loop ends by itself with failures
      to spare, everything that does not depend on a failure is done; without failures, everything is. It
      does end by itself once the polls at which some job ended outnumber the edges. */
  method Run(b: Build, maxjobs: nat, maxfail: nat, limited: bool, polls: nat)
    returns (exited: bool, numfail: nat, ghost ended: seq<nat>)
    requires b.Valid() && Fresh(b.state) && maxjobs > 0 && maxfail > 0
    modifies b
    ensures b.Valid() && b.state.open == {} && b.state.owed == {}
    ensures Continues(b.g, old(b.state), b.state)
    ensures old(b.ntotal) == 0 ==> exited && numfail == 0 && b.state == old(b.state)
    ensures Shape(b.g, b.state) && numfail == |Broken(b.g, b.state)|
    ensures exited && old(b.ntotal) > 0 && numfail < maxfail ==> AtRest(b.g, b.state)
    ensures exited && old(b.ntotal) > 0 && numfail == 0 ==>
              && (forall e: nat :: b.g.IsEdge(e) && Active(b.state.status[e]) ==> Settled(b.state.status[e]))
              && b.nstarted == b.nfinished == b.ntotal
    ensures |ended| <= polls && (!exited ==> |ended| == polls)
    ensures |RunningEdges(b.g, b.state)| <= if exited then 0 else maxjobs
    ensures StartsWithin(b.state.log, |old(b.state).log|, maxfail)
    ensures !exited && ended != [] && ended[|ended| - 1] == 0 ==>
              Waits(b.g, b.state, if limited then 1 else maxjobs, maxjobs, numfail, maxfail)
    ensures Sum(ended) == b.nfinished <= |b.g.edges|
    ensures |Productive(ended)| <= |b.g.edges|
  {
    hide LoopOk, Continues, Sum, Productive, Waits, Fresh, Inv, Build.Valid, StartsWithin;
    exited, numfail, ended := false, 0, [];
    StartFacts(b);
    SumNone();
    NoneYet(b.state.log, maxfail);
    if b.ntotal == 0 {
      exited := true;
      return;
    }
    var t := StartLoop(b, maxjobs);
    var numjobs, done := 0, 0;
    while done < polls
      invariant fresh(t) && LoopOk(b, t, maxjobs, numjobs, numfail)
      invariant Continues(b.g, old(b.state), b.state)
      invariant StartsWithin(b.state.log, |old(b.state).log|, maxfail)
      invariant done == |ended| <= polls && Sum(ended) == b.nfinished
      invariant ended != [] && ended[|ended| - 1] == 0 ==>
        Waits(b.g, b.state, if limited then 1 else maxjobs, maxjobs, numfail, maxfail)
    {
      ghost var s, n := b.state, 0;
      var overloaded: bool := *;
      exited, numjobs, numfail, n := Round(b, t, maxjobs, maxfail, limited, overloaded, numjobs, numfail);
      ContinuesTrans(b.g, old(b.state), s, b.state);
      LogGrows(b.g, s, b.state);
      StartsTrans(s.log, b.state.log, |old(b.state).log|, maxfail);
      if exited {
        break;
      }
      SumSnoc(ended, n);
      ended := ended + [n];
      done := done + 1;
    }
    SumBound(ended);
    WithinLimit(b, t, maxjobs, numjobs, numfail);
    LoopEnds(b, t, maxjobs, numjobs, numfail);
  }

  lemma NoneYet(log: seq<Event>, maxfail: nat)
    ensures StartsWithin(log, |log|, maxfail)
  {
  }

  lemma LogGrows(g: Graph, s: Sched, s': Sched)
    requires Continues(g, s, s')
    ensures s.log <= s'.log
  {
  }

  lemma StartsTrans(log: seq<Event>, log1: seq<Event>, from: nat, maxfail: nat)
    requires StartsWithin(log, from, maxfail) && log <= log1 && StartsWithin(log1, |log|, maxfail)
    ensures StartsWithin(log1, from, maxfail)
  {
    forall i | from <= i < |log1| && log1[i].Started? ensures Failures(log1[..i]) < maxfail {
      if i < |log| {
        assert log1[i] == log[i] && log1[..i] == log[..i];
      }
    }
  }

  lemma StartFacts(b: Build)
    requires b.Valid() && Fresh(b.state)
    ensures Shape(b.g, b.state) && Continues(b.g, b.state, b.state) && b.state.open == {} && b.state.owed == {}
    ensures b.nfinished == 0 && |Broken(b.g, b.state)| == 0 && |RunningEdges(b.g, b.state)| == 0
  {
    hide EdgesOk, NodesOk, QueuesOk, TotalsOk, LogOk;
    FreshFacts(b.g, b.state);
    RunningCount(b.g, b.state, [], {});
  }

  /** Nothing runs and nothing has failed when the loop starts. */
  method StartLoop(b: Build, maxjobs: nat) returns (t: JobTable)
    requires b.Valid() && Fresh(b.state)
    modifies b`nstarted
    ensures fresh(t) && LoopOk(b, t, maxjobs, 0, 0)
    ensures b.state == old(b.state) && b.nfinished == old(b.nfinished)
  {
    hide EdgesOk, NodesOk, QueuesOk, TotalsOk, LogOk;
    FreshFacts(b.g, b.state);
    b.nstarted := 0;
    t := new JobTable();
    assert t.Busy() == {};
  }

  /** One round of the loop: jobs are started, only one if the machine is overloaded, and unless none is
      running then, one poll is made. */
  method Round(b: Build, t: JobTable, maxjobs: nat, maxfail: nat, limited: bool, overloaded: bool, numjobs0: nat,
               numfail0: nat)
    returns (exited: bool, numjobs: nat, numfail: nat, ghost ended: nat)
    requires LoopOk(b, t, maxjobs, numjobs0, numfail0) && maxjobs > 0
    modifies b, t
    ensures LoopOk(b, t, maxjobs, numjobs, numfail) && Continues(b.g, old(b.state), b.state)
    ensures b.nfinished == old(b.nfinished) + ended
    ensures StartsWithin(b.state.log, |old(b.state).log|, maxfail)
    ensures var running, limit := numjobs + ended, if limited && overloaded then 1 else maxjobs;
      running <= limit || running == numjobs0
    ensures exited ==> ended == 0 && numjobs == 0 && (b.ready == [] || numfail >= maxfail)
    ensures !exited && ended == 0 ==> Waits(b.g, b.state, if limited then 1 else maxjobs, maxjobs, numfail, maxfail)
  {
    hide LoopOk, Continues, Waits, StartsWithin;
    // limit number of jobs based on load
    var limit := if limited && overloaded then 1 else maxjobs;
    numjobs, numfail := StartReady(b, t, limit, maxjobs, numjobs0, numfail0, maxfail);
    exited, ended := numjobs == 0, 0;
    if !exited {
      ghost var s := b.state;
      WaitsNow(b, t, limit, if limited then 1 else maxjobs, maxjobs, numjobs, numfail, maxfail);
      var hangups: set<nat> := *;
      var failures: set<nat> := *;
      numjobs, numfail, ended := Poll(b, t, hangups, failures, maxjobs, numjobs, numfail);
      ContinuesTrans(b.g, old(b.state), s, b.state);
      QuietKeeps(s.log, b.state.log, |old(b.state).log|, maxfail);
    }
  }

  lemma WithinLimit(b: Build, t: JobTable, maxjobs: nat, numjobs: nat, numfail: nat)
    requires LoopOk(b, t, maxjobs, numjobs, numfail)
    ensures Shape(b.g, b.state) && |RunningEdges(b.g, b.state)| == numjobs <= maxjobs
  {
    hide Inv;
    RunningCount(b.g, b.state, t.edge, t.Busy());
  }

  lemma WaitsNow(b: Build, t: JobTable, limit: nat, least: nat, maxjobs: nat, numjobs: nat, numfail: nat, maxfail: nat)
    requires LoopOk(b, t, maxjobs, numjobs, numfail) && numjobs > 0 && least <= limit
    requires b.ready == [] || numjobs >= limit || numfail >= maxfail
    ensures Waits(b.g, b.state, least, maxjobs, numfail, maxfail)
  {
    hide Inv;
    WithinLimit(b, t, maxjobs, numjobs, numfail);
  }

  /** What a run comes to when the loop ends with `numjobs` running jobs. */
  lemma LoopEnds(b: Build, t: JobTable, maxjobs: nat, numjobs: nat, numfail: nat)
    requires LoopOk(b, t, maxjobs, numjobs, numfail)
    ensures b.Valid() && b.state.open == {} && b.state.owed == {}
    ensures Shape(b.g, b.state) && numfail == |Broken(b.g, b.state)| && b.nfinished <= |b.g.edges|
    ensures numjobs == 0 && b.ready == [] ==> AtRest(b.g, b.state)
    ensures numjobs == 0 && b.ready == [] && numfail == 0 ==>
              && (forall e: nat :: b.g.IsEdge(e) && Active(b.state.status[e]) ==> Settled(b.state.status[e]))
              && b.nstarted == b.nfinished == b.ntotal
  {
    hide EdgesOk, NodesOk, QueuesOk, TotalsOk, LogOk;
    FinishedBound(b.g, b.state);
    if numjobs == 0 && b.ready == [] {
      NoneRunning(b.g, b.state, t.edge, t.Busy());
      if numfail == 0 {
        NoneBroken(b.g, b.state);
        Complete(b.g, b.state);
      }
    }
  }

  lemma FreshFacts(g: Graph, s: Sched)
    requires Inv(g, s) && Fresh(s)
    ensures s.nstarted == s.nfinished == 0 && Broken(g, s) == {}
    ensures SlotsMatch(g, s, [], {})
  {
    hide EdgesOk, NodesOk, QueuesOk, LogOk;
    assert StartedCommands(g, s) == {} && FinishedCommands(g, s) == {};
  }

  lemma FinishedBound(g: Graph, s: Sched)
    requires Inv(g, s)
    ensures s.nfinished <= |g.edges|
  {
    hide EdgesOk, NodesOk, QueuesOk, LogOk;
    Subset(FinishedCommands(g, s), Below(|g.edges|));
  }

  lemma NoneRunning(g: Graph, s: Sched, edge: seq<nat>, busy: set<nat>)
    requires SlotsMatch(g, s, edge, busy) && |busy| == 0
    ensures forall e: nat :: g.IsEdge(e) ==> !s.status[e].Running?
  {
    forall e: nat | g.IsEdge(e) ensures !s.status[e].Running? {
      assert !Placed(edge, busy, e);
    }
  }

  lemma NoneBroken(g: Graph, s: Sched)
    requires Shape(g, s) && |Broken(g, s)| == 0
    ensures forall e: nat :: g.IsEdge(e) ==> !s.status[e].Stuck? && !s.status[e].Failed?
  {
    forall e: nat | g.IsEdge(e) ensures !s.status[e].Stuck? && !s.status[e].Failed? {
      assert e !in Broken(g, s);
    }
  }
}
