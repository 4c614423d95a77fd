/**
  The worker pools refine the stages of a round: every interleaving of their
  goroutines, with the pools changing as the service calls do, is a sequence of
  calls of the transition system, one for each item, in some order.
 */
module Refinement {
  import opened Common
  import opened NodePools
  import opened Planning
  import opened Rounds
  import opened Workers
  import opened InProgress

  /** The worker pool that runs a stage. */
  ghost predicate Runs(job: Job, plan: Plan, stage: Stage) {
    job.names == StageNames(plan, stage) && (job.kind.Ensuring? <==> stage.Creating?)
  }

  function Unsettled(ws: seq<Worker>): set<nat> {
    if ws == [] then {}
    else Unsettled(ws[..|ws| - 1]) + if Settled(ws[|ws| - 1]) then {} else {|ws| - 1}
  }

  function Faulty(ws: seq<Worker>): set<nat> {
    if ws == [] then {}
    else Faulty(ws[..|ws| - 1]) + if FaultOf(ws[|ws| - 1]).Some? then {|ws| - 1} else {}
  }

  lemma {:induction false} SetsOfWorkers(ws: seq<Worker>)
    ensures forall i: nat :: i in Unsettled(ws) <==> i < |ws| && !Settled(ws[i])
    ensures forall i: nat :: i in Faulty(ws) <==> i < |ws| && FaultOf(ws[i]).Some?
    decreases |ws|
  {
    if ws != [] {
      SetsOfWorkers(ws[..|ws| - 1]);
    }
  }

  /** A state of the transition system that shows the same items open and failed as the workers do. */
  ghost predicate Shows(s: State, job: Job, p: Workers.Pool) {
    && s.phase.Running? && Runs(job, s.round.plan, s.phase.stage)
    && s.phase.pending == Unsettled(p.workers) && s.phase.failed == Faulty(p.workers)
  }

  /** The item that an action settles, if it settles one: by its service call, or by refusing a duplicate. */
  function SettledBy(p: Workers.Pool, p': Workers.Pool, a: Action): Option<nat> {
    match a
    case MainStep => None
    case WorkerStep(i, _) =>
      if i < |p.workers| && i < |p'.workers| && !Settled(p.workers[i]) && Settled(p'.workers[i]) then Some(i) else None
  }

  ghost predicate MayAct(before: Pools, after: Pools) {
    after == before || EnvironmentAct(before, after)
  }

  /** What settling an item does to the pools: its call's effect, or nothing when it is refused. */
  ghost predicate Settles(g: Gke, plan: Plan, stage: Stage, p': Workers.Pool, i: nat, before: Pools, after: Pools) {
    && i < |StageNames(plan, stage)| && i < |p'.workers|
    && if IsDuplicate(FaultOf(p'.workers[i])) then after == before
       else CallEffect(g, plan, stage, i, FaultOf(p'.workers[i]).None?, before, after)
  }

  /** What happens to the pools by the end of an action: the environment may act, and then the call has its effect, if it is one. */
  ghost predicate ActionEffect(g: Gke, job: Job, plan: Plan, stage: Stage, p: Workers.Pool, a: Action, before: Pools, after: Pools)
    requires |p.workers| == |job.names|
  {
    match Act(job, p, a)
    case None => false
    case Some(p') =>
      match SettledBy(p, p', a)
      case None => MayAct(before, after)
      case Some(i) => exists mid :: MayAct(before, mid) && Settles(g, plan, stage, p', i, mid, after)
  }

  /** The state of the transition system after an action that turned the pools into `pools`. */
  function Follow(s: State, p': Workers.Pool, settled: Option<nat>, pools: Pools): State
    requires s.phase.Running?
    requires settled.Some? ==> settled.value < |StageNames(s.round.plan, s.phase.stage)| && settled.value < |p'.workers|
  {
    match settled
    case None => s.(pools := pools)
    case Some(i) =>
      var ok := FaultOf(p'.workers[i]).None?;
      State(pools, s.round,
            Running(s.phase.stage, s.phase.pending - {i}, if ok then s.phase.failed else s.phase.failed + {i}),
            s.log + [CallEvent(s.round.plan, s.phase.stage, i, ok)])
  }

  lemma StageStartShows(job: Job, s: State)
    requires s.phase.Running? && Runs(job, s.round.plan, s.phase.stage)
    requires s.phase == Running(s.phase.stage, Items(s.round.plan, s.phase.stage), {})
    ensures Shows(s, job, Start(job))
  {
    SetsOfWorkers(Start(job).workers);
    assert s.phase.pending == Unsettled(Start(job).workers);
    assert Faulty(Start(job).workers) == {};
  }

  lemma SettlingUpdatesSets(ws: seq<Worker>, i: nat, w: Worker)
    requires i < |ws|
    requires Settled(ws[i]) ==> Settled(w) && FaultOf(w) == FaultOf(ws[i])
    ensures Unsettled(ws[i := w]) == Unsettled(ws) - if Settled(w) then {i} else {}
    ensures FaultOf(w).Some? ==> Faulty(ws[i := w]) == Faulty(ws) + {i}
    ensures FaultOf(w).None? ==> Faulty(ws[i := w]) == Faulty(ws)
  {
    SetsOfWorkers(ws);
    SetsOfWorkers(ws[i := w]);
    assert FaultOf(ws[i]).Some? ==> Settled(ws[i]);
  }

  /** An action leaves what is shown alone, or settles one open item. */
  lemma ActionUpdatesSets(job: Job, p: Workers.Pool, a: Action)
    requires Sound(job, p) && Act(job, p, a).Some?
    ensures var p' := Act(job, p, a).value;
            |p'.workers| == |p.workers| &&
            match SettledBy(p, p', a)
            case None => Unsettled(p'.workers) == Unsettled(p.workers) && Faulty(p'.workers) == Faulty(p.workers)
            case Some(i) =>
              && i in Unsettled(p.workers) && i < |job.names|
              && Unsettled(p'.workers) == Unsettled(p.workers) - {i}
              && Faulty(p'.workers) == Faulty(p.workers) + (if FaultOf(p'.workers[i]).Some? then {i} else {})
  {
    hide Unsettled, Faulty, Tallies, ErrorsKept;
    KeepsWorkers(job, p, a);
    SetsOfWorkers(p.workers);
    var p' := Act(job, p, a).value;
    match a
    case MainStep =>
      if p.main.Acquiring? {
        SettlingUpdatesSets(p.workers, p.main.next, p'.workers[p.main.next]);
      } else {
        assert p'.workers == p.workers;
      }
    case WorkerStep(i, outcome) =>
      WorkerChange(job, p, i, outcome);
      SettlingUpdatesSets(p.workers, i, p'.workers[i]);
  }

  /**
    Every action of every goroutine is invisible but for what the environment
    does, or is the call step of the item it settles, with the error it met, on
    the pools as the environment has left them; a refused duplicate is a failing
    call without effect.
   */
  lemma ActionRefinesRound(g: Gke, job: Job, p: Workers.Pool, a: Action, s: State, pools: Pools) returns (mid: Pools)
    requires Sound(job, p) && Act(job, p, a).Some? && Shows(s, job, p)
    requires ActionEffect(g, job, s.round.plan, s.phase.stage, p, a, s.pools, pools)
    ensures var p' := Act(job, p, a).value;
            var s1 := s.(pools := mid);
            var s' := Follow(s1, p', SettledBy(p, p', a), pools);
            && s'.pools == pools && s'.round == s.round && Shows(s', job, p') && s'.phase.stage == s.phase.stage
            && (s1 == s || Step(g, s, s1)) && (s' == s1 || Step(g, s1, s'))
  {
    hide EnvironmentAct, CallEffect, StartStep, FinishStep;
    var p' := Act(job, p, a).value;
    var settled := SettledBy(p, p', a);
    ActionUpdatesSets(job, p, a);
    if settled.None? {
      mid := pools;
    } else {
      var i := settled.value;
      mid :| MayAct(s.pools, mid) && Settles(g, s.round.plan, s.phase.stage, p', i, mid, pools);
      var s1 := s.(pools := mid);
      var ok := FaultOf(p'.workers[i]).None?;
      if IsDuplicate(FaultOf(p'.workers[i])) {
        DuplicatesOnlyWhenDeleting(job, p, a, i);
        RefusalHasNoEffect(g, s.round.plan, s.phase.stage, i, ok, pools);
      }
      assert CallStep(g, s1, Follow(s1, p', settled, pools), i, ok);
    }
    assert mid != s.pools ==> EnvironmentStep(s, s.(pools := mid));
  }

  lemma RefusalHasNoEffect(g: Gke, plan: Plan, stage: Stage, i: nat, ok: bool, pools: Pools)
    requires !stage.Creating? && i < |StageNames(plan, stage)|
    ensures CallEffect(g, plan, stage, i, ok, pools, pools)
  {
  }

  lemma DuplicatesOnlyWhenDeleting(job: Job, p: Workers.Pool, a: Action, i: nat)
    requires Sound(job, p) && Act(job, p, a).Some? && |Act(job, p, a).value.workers| == |p.workers|
    requires SettledBy(p, Act(job, p, a).value, a) == Some(i) && IsDuplicate(FaultOf(Act(job, p, a).value.workers[i]))
    ensures job.kind.Deleting?
  {
  }

  /** When the worker pool returns, the stage is over, and it returns an error exactly when the stage has a failed item. */
  lemma ReturnEndsStage(job: Job, actions: seq<Action>, s: State)
    requires Finished(job, actions) && Shows(s, job, Run(job, actions).value)
    ensures s.phase.pending == {}
    ensures Run(job, actions).value.collected == [] <==> s.phase.failed == {}
  {
    var p := Run(job, actions).value;
    ReturnedErrorsAreTheFaults(job, actions);
    SetsOfWorkers(p.workers);
    if s.phase.failed == {} {
      assert forall i: nat :: i < |p.workers| ==> i !in Faulty(p.workers);
    }
  }

  /* ---- Whole interleavings ---- */

  /** The pools before and after each action of an interleaving. */
  ghost predicate PoolsFollow(g: Gke, job: Job, plan: Plan, stage: Stage, actions: seq<Action>, ps: seq<Pools>)
    decreases |actions|
  {
    && |ps| == |actions| + 1
    && (actions != [] ==>
          var front, a := actions[..|actions| - 1], actions[|actions| - 1];
          && PoolsFollow(g, job, plan, stage, front, ps[..|actions|])
          && Run(job, front).Some?
          && ActionEffect(g, job, plan, stage, Run(job, front).value, a, ps[|actions| - 1], ps[|actions|]))
  }

  ghost predicate Steps(g: Gke, run: seq<State>) {
    run != [] && forall k :: 0 <= k < |run| - 1 ==> Step(g, run[k], run[k + 1])
  }

  lemma StepsExtend(g: Gke, run: seq<State>, s: State)
    requires Steps(g, run) && Step(g, run[|run| - 1], s)
    ensures Steps(g, run + [s])
  {
    hide Step;
    var run' := run + [s];
    assert forall k :: 0 <= k < |run| ==> run'[k] == run[k];
  }

  /**
    Every interleaving of a worker pool, with the environment acting between any
    two actions, is a sequence of steps of the transition system from the start of the
    stage to a state that shows where the workers stand.
   */
  lemma {:induction false} InterleavingsAreSteps(g: Gke, job: Job, actions: seq<Action>, ps: seq<Pools>, s: State)
    returns (run: seq<State>)
    requires s.phase.Running? && Runs(job, s.round.plan, s.phase.stage)
    requires s.phase == Running(s.phase.stage, Items(s.round.plan, s.phase.stage), {})
    requires PoolsFollow(g, job, s.round.plan, s.phase.stage, actions, ps) && ps[0] == s.pools
    ensures Run(job, actions).Some?
    ensures Steps(g, run) && run[0] == s && run[|run| - 1].pools == ps[|actions|] && run[|run| - 1].round == s.round
    ensures Shows(run[|run| - 1], job, Run(job, actions).value) && run[|run| - 1].phase.stage == s.phase.stage
    decreases |actions|
  {
    hide Step;
    if actions == [] {
      StageStartShows(job, s);
      run := [s];
    } else {
      var front, a := actions[..|actions| - 1], actions[|actions| - 1];
      run := InterleavingsAreSteps(g, job, front, ps[..|actions|], s);
      RunsAreSound(job, front);
      var p, now := Run(job, front).value, run[|run| - 1];
      var mid := ActionRefinesRound(g, job, p, a, now, ps[|actions|]);
      var acted := now.(pools := mid);
      if acted != now {
        StepsExtend(g, run, acted);
        run := run + [acted];
      }
      var next := Follow(acted, Act(job, p, a).value, SettledBy(p, Act(job, p, a).value, a), ps[|actions|]);
      if next != acted {
        StepsExtend(g, run, next);
        run := run + [next];
      }
    }
  }
}
