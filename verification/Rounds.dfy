/**
  The reconcile loop as a transition system over the cluster's node pools.

  A round starts from a listing and a plan, then calls the service once for each
  name of the three deletion lists, list after list, and once for each creation.
  Calls of one list happen in any order, and each may fail. Between any two calls
  the environment may act on the pools.
 */
module Rounds {
  import opened NodePools
  import opened Diff
  import opened Planning

  /** The service's pools by name. */
  type Pools = map<string, ClusterPool>

  datatype Stage = DeletingMissing | DeletingErrored | DeletingUpdated | Creating

  datatype Event = Deleted(name: string, ok: bool) | Created(name: string, ok: bool)

  /** What a round has fixed when it starts. */
  datatype Round = Round(desired: seq<Desired>, listing: seq<NodePoolRef>, inUse: set<string>, plan: Plan)

  /** Between rounds, or within one: the items of the stage not yet called, and those whose call failed. */
  datatype Phase = Idle(inError: bool) | Running(stage: Stage, pending: set<nat>, failed: set<nat>)

  /** The pools, the current or last round, where it stands, and its calls so far. */
  datatype State = State(pools: Pools, round: Round, phase: Phase, log: seq<Event>)

  predicate WellKeyed(pools: Pools) {
    forall n :: n in pools ==> pools[n].spec.name == n
  }

  /** A faithful listing: one reference for each pool, in any order. */
  predicate IsListing(refs: seq<NodePoolRef>, pools: Pools) {
    && DistinctRefs(refs)
    && (forall r :: r in refs ==> r.name in pools && r == RefOf(pools[r.name]))
    && (forall n :: n in pools ==> RefOf(pools[n]) in refs)
  }

  function StageNames(plan: Plan, stage: Stage): seq<string> {
    match stage
    case DeletingMissing => plan.missing
    case DeletingErrored => plan.errors
    case DeletingUpdated => plan.updates
    case Creating => NamesOf(plan.creates)
  }

  function Below(n: nat): (items: set<nat>)
    ensures forall i: nat :: i in items <==> i < n
  {
    if n == 0 then {} else Below(n - 1) + {n - 1}
  }

  function Items(plan: Plan, stage: Stage): set<nat> {
    Below(|StageNames(plan, stage)|)
  }

  /* ---- Steps ---- */

  /**
    The environment may remove pools, change any pool's status and do anything to
    pools without the static label; it neither makes nor edits static pools.
   */
  ghost predicate EnvironmentAct(before: Pools, after: Pools) {
    && WellKeyed(after)
    && forall n :: n in after && IsStatic(after[n].spec) ==> n in before && before[n].spec == after[n].spec
  }

  ghost predicate EnvironmentStep(s: State, s': State) {
    EnvironmentAct(s.pools, s'.pools) && s' == s.(pools := s'.pools)
  }

  ghost predicate StartStep(g: Gke, s: State, s': State) {
    && s.phase.Idle?
    && IsListing(s'.round.listing, s.pools)
    && DiffOf(g, s'.round.listing, s'.round.desired).Success?
    && s'.round.plan == PlanOf(g, s'.round.listing, s'.round.desired, s'.round.inUse)
    && s' == State(s.pools, s'.round, Running(DeletingMissing, Items(s'.round.plan, DeletingMissing), {}), [])
  }

  /** A delete call leaves the pool alone, removes it, or changes its status. */
  predicate DeleteEffect(before: Pools, name: string, after: Pools) {
    || after == before
    || after == before - {name}
    || (name in before && name in after && after[name].spec == before[name].spec && after == before[name := after[name]])
  }

  /** A create call does nothing, or adds the pool, in some status, where there was none of its name. */
  predicate CreateEffect(before: Pools, np: NodePool, after: Pools) {
    || after == before
    || (np.name !in before && np.name in after && after[np.name].spec == np && after == before[np.name := after[np.name]])
  }

  predicate CallEffect(g: Gke, plan: Plan, stage: Stage, i: nat, ok: bool, before: Pools, after: Pools)
    requires i < |StageNames(plan, stage)|
  {
    if stage.Creating? then
      match BuildDesired(g, plan.creates[i])
      case Failure(_) => after == before && !ok
      case Success(np) => CreateEffect(before, np, after)
    else DeleteEffect(before, StageNames(plan, stage)[i], after)
  }

  function CallEvent(plan: Plan, stage: Stage, i: nat, ok: bool): Event
    requires i < |StageNames(plan, stage)|
  {
    if stage.Creating? then Created(StageNames(plan, stage)[i], ok) else Deleted(StageNames(plan, stage)[i], ok)
  }

  /** The service call for one pending item of the stage, and whether it returned without error. */
  ghost predicate CallStep(g: Gke, s: State, s': State, i: nat, ok: bool) {
    && s.phase.Running? && i in s.phase.pending && i < |StageNames(s.round.plan, s.phase.stage)|
    && CallEffect(g, s.round.plan, s.phase.stage, i, ok, s.pools, s'.pools)
    && s' == State(
         s'.pools, s.round,
         Running(s.phase.stage, s.phase.pending - {i}, if ok then s.phase.failed else s.phase.failed + {i}),
         s.log + [CallEvent(s.round.plan, s.phase.stage, i, ok)])
  }

  function NextPhase(plan: Plan, stage: Stage, failed: set<nat>): Phase {
    if failed != {} then Idle(true)
    else
      match stage
      case DeletingMissing => Running(DeletingErrored, Items(plan, DeletingErrored), {})
      case DeletingErrored => Running(DeletingUpdated, Items(plan, DeletingUpdated), {})
      case DeletingUpdated => Running(Creating, Items(plan, Creating), {})
      case Creating => Idle(false)
  }

  /** With every call of a stage returned, the round goes on, or ends in an error if one failed. */
  ghost predicate FinishStep(s: State, s': State) {
    && s.phase.Running? && s.phase.pending == {}
    && s' == s.(phase := NextPhase(s.round.plan, s.phase.stage, s.phase.failed))
  }

  ghost predicate Step(g: Gke, s: State, s': State) {
    || EnvironmentStep(s, s')
    || StartStep(g, s, s')
    || (exists i, ok :: CallStep(g, s, s', i, ok))
    || FinishStep(s, s')
  }

  ghost predicate IsRun(g: Gke, run: seq<State>) {
    && run != []
    && WellKeyed(run[0].pools) && run[0].phase.Idle?
    && forall k :: 0 <= k < |run| - 1 ==> Step(g, run[k], run[k + 1])
  }

  lemma {:induction false} RunsAreWellKeyed(g: Gke, run: seq<State>, k: nat)
    requires IsRun(g, run) && k < |run|
    ensures WellKeyed(run[k].pools)
  {
    if k > 0 {
      RunsAreWellKeyed(g, run, k - 1);
      assert Step(g, run[k - 1], run[k - 1 + 1]);
    }
  }

  /* ---- What a round still has to delete, and has deleted ---- */

  function At(names: seq<string>, items: set<nat>): set<string> {
    set i: nat | i in items && i < |names| :: names[i]
  }

  function AsSet(names: seq<string>): set<string> {
    set n | n in names
  }

  /** The planned deletions that have not yet returned without error. */
  function Outstanding(plan: Plan, phase: Phase): set<string>
    requires phase.Running?
  {
    var open := At(StageNames(plan, phase.stage), phase.pending + phase.failed);
    match phase.stage
    case DeletingMissing => open + AsSet(plan.errors) + AsSet(plan.updates)
    case DeletingErrored => open + AsSet(plan.updates)
    case DeletingUpdated => open
    case Creating => {}
  }

  lemma OutstandingAfterCall(plan: Plan, phase: Phase, i: nat, ok: bool)
    requires phase.Running? && i in phase.pending && i < |StageNames(plan, phase.stage)|
    ensures var phase' := Running(phase.stage, phase.pending - {i}, if ok then phase.failed else phase.failed + {i});
            && Outstanding(plan, phase') <= Outstanding(plan, phase)
            && (!ok ==> Outstanding(plan, phase') == Outstanding(plan, phase))
            && (!phase.stage.Creating? ==> Outstanding(plan, phase) <= Outstanding(plan, phase') + {StageNames(plan, phase.stage)[i]})
  {
    if !ok {
      assert phase.pending - {i} + (phase.failed + {i}) == phase.pending + phase.failed;
    }
  }

  lemma OutstandingAfterFinish(plan: Plan, phase: Phase)
    requires phase.Running? && phase.pending == {} && NextPhase(plan, phase.stage, phase.failed).Running?
    ensures Outstanding(plan, NextPhase(plan, phase.stage, phase.failed)) == Outstanding(plan, phase)
  {
    var phase' := NextPhase(plan, phase.stage, phase.failed);
    assert At(StageNames(plan, phase.stage), {} + {}) == {};
    assert At(StageNames(plan, phase'.stage), Items(plan, phase'.stage) + {}) == AsSet(StageNames(plan, phase'.stage));
  }

  lemma OutstandingAtStart(plan: Plan)
    ensures forall n :: Deletes(plan, n) <==> n in Outstanding(plan, Running(DeletingMissing, Items(plan, DeletingMissing), {}))
  {
    assert At(plan.missing, Items(plan, DeletingMissing) + {}) == AsSet(plan.missing);
  }

  /** The round in progress was planned from its listing. */
  ghost predicate Planned(g: Gke, round: Round) {
    && DistinctRefs(round.listing)
    && DiffOf(g, round.listing, round.desired).Success?
    && round.plan == PlanOf(g, round.listing, round.desired, round.inUse)
  }

  /**
    The log of a round: it names only what the plan names, every planned deletion
    no longer outstanding has returned without error, and every creation comes
    after all of them.
   */
  ghost predicate LogFollowsPlan(s: State) {
    && (forall e :: e in s.log ==> if e.Deleted? then Deletes(s.round.plan, e.name) else Names(s.round.plan.creates, e.name))
    && (s.phase.Running? ==> forall n :: Deletes(s.round.plan, n) && n !in Outstanding(s.round.plan, s.phase) ==> Deleted(n, true) in s.log)
    && (forall k :: 0 <= k < |s.log| && s.log[k].Created? ==>
          forall n :: Deletes(s.round.plan, n) ==> Deleted(n, true) in s.log[..k])
  }

  lemma NamesOfNames(ds: seq<Desired>, i: nat)
    requires i < |ds|
    ensures Names(ds, NamesOf(ds)[i])
  {
    assert ds[i] in ds;
  }

  lemma CallKeepsLog(g: Gke, s: State, s': State, i: nat, ok: bool)
    requires LogFollowsPlan(s) && CallStep(g, s, s', i, ok)
    ensures LogFollowsPlan(s')
  {
    var plan, stage := s.round.plan, s.phase.stage;
    var e := CallEvent(plan, stage, i, ok);
    OutstandingAfterCall(plan, s.phase, i, ok);
    if stage.Creating? {
      NamesOfNames(plan.creates, i);
    } else {
      assert StageNames(plan, stage)[i] in StageNames(plan, stage);
    }
    forall n | Deletes(plan, n) && n !in Outstanding(plan, s'.phase) ensures Deleted(n, true) in s'.log {
      if n in Outstanding(plan, s.phase) {
        assert e == Deleted(n, true) && s'.log[|s.log|] == e;
      } else {
        assert Deleted(n, true) in s.log;
      }
    }
    forall k, n | 0 <= k < |s'.log| && s'.log[k].Created? && Deletes(plan, n) ensures Deleted(n, true) in s'.log[..k] {
      if k < |s.log| {
        assert s'.log[..k] == s.log[..k];
      } else {
        assert s'.log[..k] == s.log;
      }
    }
  }

  ghost predicate RoundIsSound(g: Gke, s: State) {
    && (s.phase.Running? ==> Planned(g, s.round))
    && LogFollowsPlan(s)
  }

  lemma StepKeepsRoundSound(g: Gke, s: State, s': State)
    requires RoundIsSound(g, s) && Step(g, s, s')
    ensures RoundIsSound(g, s')
  {
    if StartStep(g, s, s') {
      OutstandingAtStart(s'.round.plan);
    } else if i, ok :| CallStep(g, s, s', i, ok) {
      CallKeepsLog(g, s, s', i, ok);
    } else if FinishStep(s, s') {
      if s'.phase.Running? {
        OutstandingAfterFinish(s.round.plan, s.phase);
      }
    }
  }

  lemma {:induction false} RunsKeepRoundsSound(g: Gke, run: seq<State>, k: nat)
    requires IsRun(g, run) && run[0].log == [] && k < |run|
    ensures RoundIsSound(g, run[k])
  {
    if k > 0 {
      RunsKeepRoundsSound(g, run, k - 1);
      assert Step(g, run[k - 1], run[k - 1 + 1]);
      StepKeepsRoundSound(g, run[k - 1], run[k]);
    }
  }

  /** In every run, no creation is issued before every planned deletion of its round has returned without error. */
  lemma CreationsFollowAllDeletions(g: Gke, run: seq<State>, k: nat, j: nat, n: string)
    requires IsRun(g, run) && run[0].log == [] && k < |run|
    requires j < |run[k].log| && run[k].log[j].Created? && Deletes(run[k].round.plan, n)
    ensures exists i :: 0 <= i < j && run[k].log[i] == Deleted(n, true)
  {
    RunsKeepRoundsSound(g, run, k);
    assert Deleted(n, true) in run[k].log[..j];
  }

  lemma PlanListsAreDisjoint(g: Gke, round: Round, n: string)
    requires Planned(g, round)
    ensures n in round.plan.missing ==> n !in round.plan.errors && n !in round.plan.updates
    ensures n in round.plan.errors ==> n !in round.plan.updates
  {
    var diff, refs := DiffOf(g, round.listing, round.desired).value, ByName(round.listing);
    DiffMembers(g, round.listing, round.desired);
    PlanMembers(diff, refs, round.inUse);
    hide DiffOf, LockFilter, ByName;
  }

  lemma LaterListFollows(s: State, name: string, n: string)
    requires LogFollowsPlan(s) && s.phase.Running? && !s.phase.stage.Creating? && name in StageNames(s.round.plan, s.phase.stage)
    requires var plan := s.round.plan;
             forall m :: m in {name, n} ==>
               && (m in plan.missing ==> m !in plan.errors && m !in plan.updates)
               && (m in plan.errors ==> m !in plan.updates)
    ensures name in s.round.plan.errors && n in s.round.plan.missing ==> Deleted(n, true) in s.log
    ensures name in s.round.plan.updates && (n in s.round.plan.missing || n in s.round.plan.errors) ==> Deleted(n, true) in s.log
  {
    assert name in {name, n} && n in {name, n};
    assert Deletes(s.round.plan, n) && n !in Outstanding(s.round.plan, s.phase) ==> Deleted(n, true) in s.log;
    hide LogFollowsPlan;
  }

  /**
    Deletions go list by list in every run: no pool in ERROR is deleted before all
    strays, and no changed one before all strays and all pools in ERROR, have been
    deleted without an error.
   */
  lemma DeletionsGoListByList(g: Gke, run: seq<State>, k: nat, i: nat, ok: bool, name: string, n: string)
    requires IsRun(g, run) && run[0].log == [] && k + 1 < |run| && CallStep(g, run[k], run[k + 1], i, ok)
    requires run[k + 1].log == run[k].log + [Deleted(name, ok)]
    ensures name in run[k].round.plan.errors && n in run[k].round.plan.missing ==> Deleted(n, true) in run[k].log
    ensures name in run[k].round.plan.updates && (n in run[k].round.plan.missing || n in run[k].round.plan.errors) ==>
              Deleted(n, true) in run[k].log
  {
    var s := run[k];
    RunsKeepRoundsSound(g, run, k);
    PlanListsAreDisjoint(g, s.round, n);
    PlanListsAreDisjoint(g, s.round, name);
    assert run[k + 1].log[|s.log|] == Deleted(name, ok);
    hide Planned, CallEffect, IsRun, CallStep, LogFollowsPlan;
    LaterListFollows(s, name, n);
  }

  /**
    In-use safety over every run: a service call never removes or adds a pool that
    its round saw in use and listed healthy; an in-use pool that a call removes
    was desired and listed in ERROR.
   */
  lemma InUsePoolsSurvive(g: Gke, run: seq<State>, k: nat, i: nat, ok: bool, n: string)
    requires IsRun(g, run) && run[0].log == [] && k + 1 < |run| && CallStep(g, run[k], run[k + 1], i, ok)
    requires n in run[k].round.inUse
    ensures n in run[k].pools && n !in run[k + 1].pools ==>
              Names(run[k].round.desired, n) && exists r :: r in run[k].round.listing && r.name == n && r.error
    ensures n !in run[k].pools && n in run[k + 1].pools ==>
              !exists r :: r in run[k].round.listing && r.name == n && !r.error
  {
    hide DiffOf, PlanOf, LogFollowsPlan, Names;
    var s, s' := run[k], run[k + 1];
    RunsKeepRoundsSound(g, run, k);
    InUseGuardExactly(g, s.round.listing, s.round.desired, s.round.inUse, n);
    if s.phase.stage.Creating? {
      var d := s.round.plan.creates[i];
      assert d in s.round.plan.creates;
    } else {
      assert StageNames(s.round.plan, s.phase.stage)[i] in StageNames(s.round.plan, s.phase.stage);
    }
  }
}
