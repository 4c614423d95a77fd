/** What the end of a round says about its calls. */
module Outcomes {
  import opened Planning
  import opened NodePools
  import opened Rounds

  ghost predicate SomeFailed(log: seq<Event>) {
    exists e :: e in log && !e.ok
  }

  /** Every deletion and creation of the plan has been called and has returned without error. */
  ghost predicate AllDone(plan: Plan, log: seq<Event>) {
    && (forall n :: Deletes(plan, n) ==> Deleted(n, true) in log)
    && (forall d :: d in plan.creates ==> Created(d.name, true) in log)
  }

  /** The phase accounts for the log: what has failed, and what has been created. */
  ghost predicate Accounted(s: State) {
    match s.phase
    case Idle(inError) => (inError <==> SomeFailed(s.log)) && (!inError ==> AllDone(s.round.plan, s.log))
    case Running(stage, pending, failed) =>
      && (failed != {} <==> SomeFailed(s.log))
      && (stage.Creating? ==> forall i: nat :: i < |s.round.plan.creates| && i !in pending && i !in failed ==>
            Created(s.round.plan.creates[i].name, true) in s.log)
  }

  lemma CallKeepsAccounted(g: Gke, s: State, s': State, i: nat, ok: bool)
    requires Accounted(s) && CallStep(g, s, s', i, ok)
    ensures Accounted(s')
  {
    hide CallEffect;
    var e := CallEvent(s.round.plan, s.phase.stage, i, ok);
    assert e.ok == ok && forall f :: f in s'.log <==> f in s.log || f == e;
  }

  lemma FinishKeepsAccounted(g: Gke, s: State, s': State)
    requires Accounted(s) && LogFollowsPlan(s) && FinishStep(s, s')
    ensures Accounted(s')
  {
    var plan := s.round.plan;
    if s.phase.stage.Creating? && s.phase.failed == {} {
      forall d | d in plan.creates ensures Created(d.name, true) in s.log {
        var i :| 0 <= i < |plan.creates| && plan.creates[i] == d;
        assert i !in s.phase.pending;
      }
    }
  }

  lemma StepKeepsAccounted(g: Gke, s: State, s': State)
    requires Accounted(s) && LogFollowsPlan(s) && Step(g, s, s')
    ensures Accounted(s')
  {
    hide CallStep, FinishStep, AllDone;
    if EnvironmentStep(s, s') {
    } else if StartStep(g, s, s') {
    } else if i, ok :| CallStep(g, s, s', i, ok) {
      CallKeepsAccounted(g, s, s', i, ok);
    } else {
      FinishKeepsAccounted(g, s, s');
    }
  }

  /** A controller that has not run a round yet. */
  predicate Fresh(s: State) {
    s.log == [] && s.phase == Idle(false) && s.round.plan == Plan([], [], [], [])
  }

  lemma {:induction false} RunsAreAccounted(g: Gke, run: seq<State>, k: nat)
    requires IsRun(g, run) && Fresh(run[0]) && k < |run|
    ensures Accounted(run[k])
  {
    if k > 0 {
      RunsAreAccounted(g, run, k - 1);
      RunsKeepRoundsSound(g, run, k - 1);
      assert Step(g, run[k - 1], run[k - 1 + 1]);
      StepKeepsAccounted(g, run[k - 1], run[k]);
    }
  }

  /**
    A round ends without an error exactly when none of its calls had one, and then
    it has made every planned deletion and every planned creation.
   */
  lemma EndsWithoutErrorIffNoCallFailed(g: Gke, run: seq<State>, k: nat)
    requires IsRun(g, run) && Fresh(run[0]) && k < |run| && run[k].phase.Idle?
    ensures run[k].phase == Idle(false) <==> forall e :: e in run[k].log ==> e.ok
    ensures run[k].phase == Idle(false) ==> AllDone(run[k].round.plan, run[k].log)
  {
    RunsAreAccounted(g, run, k);
  }
}
