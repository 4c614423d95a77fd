/**
  Deletions that are reported as done and did not happen: exactly when they are
  harmless, and a run in which one is not.
 */
module FalseReports {
  import opened Common
  import opened NodePools
  import opened Diff
  import opened Planning
  import opened Rounds
  import opened Safety
  import opened Convergence
  import opened Undisturbed
  import opened Limits

  /* ---- Exactly when false reports are harmless ---- */

  /** A pool whose deletion did not happen holds what another entry was created for. */
  ghost predicate Betrayed(pools: Pools, plan: Plan, stay: set<string>, n: string, d: Desired) {
    n in stay && d in plan.creates && d.name !in stay && Blocks(pools, n, d)
  }

  /** A round's givens, from which it keeps capacity exclusive if deletions hold. */
  ghost predicate Harmless(g: Gke, pools: Pools, round: Round) {
    && RoundGiven(g, pools, round.listing, round.desired) && Planned(g, round)
    && Exclusive(pools) && HarmlessStart(g, pools, round)
    && forall d :: d in round.desired ==> BuildsStatic(g, d)
  }

  /** Which false reports are harmless: those of pools that hold nothing created by this round under another name. */
  lemma FalseReportsExactly(g: Gke, pools: Pools, round: Round, stay: set<string>)
    requires Harmless(g, pools, round)
    ensures Exclusive(AfterLies(g, pools, round.plan, stay)) <==> !exists n, d :: Betrayed(pools, round.plan, stay, n, d)
  {
    RoundIsPlanned(g, pools, round);
    assert WellKeyed(pools) && IsListing(round.listing, pools) && OneNamePerSubblock(round.plan.creates);
    hide RoundGiven, Planned, AfterLies, PlanFits, BuildsStatic, Clash, NoSquatters, IsListing, WellKeyed, Exclusive;
    ExclusiveAfterLiesExactly(g, pools, round.plan, stay);
    assert CreatedOnce(round.plan.creates, stay);
    forall n, d ensures Clash(pools, round.plan, stay, n, d) <==> Betrayed(pools, round.plan, stay, n, d) {
      OnlyLiesClash(g, pools, round, stay, n, d);
    }
  }

  /** Deletions that a round plans and that may be reported falsely. */
  ghost predicate MayStay(pools: Pools, plan: Plan, stay: set<string>) {
    forall n :: n in stay ==> Deletes(plan, n) && n in pools
  }

  /**
    Before the round: all false reports are harmless exactly when the round moves
    no sub-block from one name to another.
   */
  lemma AllFalseReportsAreHarmlessIffNothingMoves(g: Gke, pools: Pools, round: Round)
    requires Harmless(g, pools, round)
    ensures (forall stay :: MayStay(pools, round.plan, stay) ==> Exclusive(AfterLies(g, pools, round.plan, stay)))
       <==> MovesNothing(pools, round.plan)
  {
    hide Harmless, AfterLies, Exclusive;
    forall stay ensures Exclusive(AfterLies(g, pools, round.plan, stay)) <==> !exists n, d :: Betrayed(pools, round.plan, stay, n, d) {
      FalseReportsExactly(g, pools, round, stay);
    }
    if MovesNothing(pools, round.plan) {
      forall stay | MayStay(pools, round.plan, stay) ensures !exists n, d :: Betrayed(pools, round.plan, stay, n, d) {
        forall n, d ensures !Betrayed(pools, round.plan, stay, n, d) {
          assert Deletes(round.plan, n) ==> Clears(pools, round.plan, n);
        }
      }
    } else {
      var n :| Deletes(round.plan, n) && !Clears(pools, round.plan, n);
      var d :| d in round.plan.creates && Blocks(pools, n, d);
      assert MayStay(pools, round.plan, {n}) && Betrayed(pools, round.plan, {n}, n, d);
    }
  }

  lemma SameSpecsSameExclusive(p: Pools, q: Pools)
    requires SameSpecs(p, q)
    ensures Exclusive(p) <==> Exclusive(q)
  {
    forall n ensures (n in p <==> n in q) && (n in q ==> p[n].spec == q[n].spec) {
      assert StandsAs(q, p, n);
    }
    hide SameSpecs, SubblockOf, LabelsOf;
  }

  /**
    For every undisturbed round that succeeds, in any order of its calls: it ends
    with exclusive pools exactly when no pool whose deletion was falsely reported
    holds what it created under another name.
   */
  lemma RoundWithFalseReportsExactly(g: Gke, lies: set<string>, run: seq<State>)
    requires CalmRound(g, lies, run) && Succeeded(run) && Harmless(g, run[0].pools, run[1].round)
    ensures Exclusive(run[|run| - 1].pools)
       <==> !exists n, d :: Betrayed(run[0].pools, run[1].round.plan, Stayed(run[0].pools, run[1].round.plan, lies), n, d)
  {
    FalseReportsOutcome(g, lies, run);
    hide CalmRound, Harmless, AfterLies, Exclusive, Betrayed, SameSpecs, Stayed;
    var plan := run[1].round.plan;
    var stay := Stayed(run[0].pools, plan, lies);
    SameSpecsSameExclusive(run[|run| - 1].pools, AfterLies(g, run[0].pools, plan, stay));
    FalseReportsExactly(g, run[0].pools, run[1].round, stay);
  }

  /* ---- A run with one false report ---- */

  lemma SelectOne(g: Gke, refs: Refs, d: Desired, verdicts: set<Verdict>)
    ensures Select(g, refs, [d], verdicts) == if VerdictOf(g, refs, d) in verdicts then [d] else []
  {
    hide VerdictOf;
    assert [d][..0] == [];
  }

  lemma StraysOne(r: NodePoolRef, name: string)
    requires IsStaticRef(r) && r.name != name
    ensures Strays([r], {name}) == [r.name] && ByName([r]) == map[r.name := r]
  {
    assert [r][..0] == [];
  }

  lemma MovingDiff(g: Gke, r: NodePoolRef, d: Desired)
    requires BuildDesired(g, d).Success? && IsStaticRef(r) && r.name != d.name
    ensures DiffOf(g, [r], [d]) == Success(Differences([d], [r.name], [], []))
  {
    DiffSucceedsIffAllBuild(g, [r], [d]);
    StraysOne(r, d.name);
    SelectOne(g, map[r.name := r], d, NEEDS_CREATION);
    SelectOne(g, map[r.name := r], d, {Changed});
    SelectOne(g, map[r.name := r], d, {Errored});
    hide BuildDesired, Strays, ByName, Select, FirstFailure;
    assert NameSet([d]) == {d.name} by {
      assert [d][0].name in NameSet([d]);
    }
  }

  lemma NothingLocked(name: string, d: Desired)
    ensures Unlocked([name], {}) == [name] && Unlocked([], {}) == [] && Allowed([d], {}, {}) == [d]
  {
    assert [name][..0] == [] && [d][..0] == [];
  }

  /** The plan that moves a sub-block from a pool that is no longer desired to a new one. */
  lemma MovingPlan(g: Gke, stray: ClusterPool, d: Desired)
    requires BuildDesired(g, d).Success? && IsStatic(stray.spec) && stray.spec.name != d.name
    ensures DiffOf(g, [RefOf(stray)], [d]).Success?
    ensures PlanOf(g, [RefOf(stray)], [d], {}) == Plan([d], [stray.spec.name], [], [])
  {
    var r := RefOf(stray);
    MovingDiff(g, r, d);
    hide DiffOf, BuildDesired, ByName, Unlocked, Allowed;
    var diff := DiffOf(g, [r], [d]).value;
    assert LockedNames(diff.toDeleteMissing, {}) == {} && LockedNames(diff.toDeleteUpdate, {}) == {};
    assert SubblocksOf(ByName([r]), {}) + SubblocksOf(ByName([r]), {}) == {};
    NothingLocked(r.name, d);
  }

  /** The states of a run in which the deletion of the stray pool is reported as done while the pool stays. */
  ghost function Lying(g: Gke, stray: ClusterPool, d: Desired, k: nat): State
    requires BuildDesired(g, d).Success?
  {
    var pools := map[stray.spec.name := stray];
    var plan := Plan([d], [stray.spec.name], [], []);
    var round := Round([d], [RefOf(stray)], {}, plan);
    var lie := [Deleted(stray.spec.name, true)];
    if k == 0 then State(pools, round, Idle(false), [])
    else if k == 1 then State(pools, round, Running(DeletingMissing, Rounds.Items(plan, DeletingMissing), {}), [])
    else if k == 2 then State(pools, round, Running(DeletingMissing, Rounds.Items(plan, DeletingMissing) - {0}, {}), lie)
    else if k == 3 then State(pools, round, Running(DeletingErrored, Rounds.Items(plan, DeletingErrored), {}), lie)
    else if k == 4 then State(pools, round, Running(DeletingUpdated, Rounds.Items(plan, DeletingUpdated), {}), lie)
    else if k == 5 then State(pools, round, Running(Creating, Rounds.Items(plan, Creating), {}), lie)
    else State(pools[d.name := ClusterPool(BuildDesired(g, d).value, RUNNING)], round,
               Running(Creating, Rounds.Items(plan, Creating) - {0}, {}), lie + [Created(d.name, true)])
  }

  ghost function LyingRun(g: Gke, stray: ClusterPool, d: Desired): (run: seq<State>)
    requires BuildDesired(g, d).Success?
    ensures |run| == 7 && forall k: nat :: k < 7 ==> run[k] == Lying(g, stray, d, k)
  {
    seq(7, k requires 0 <= k => Lying(g, stray, d, k))
  }

  lemma LyingStep(g: Gke, stray: ClusterPool, d: Desired, k: nat)
    requires BuildDesired(g, d).Success? && IsStatic(stray.spec) && stray.spec.name != d.name && k < 6
    ensures Step(g, Lying(g, stray, d, k), Lying(g, stray, d, k + 1))
  {
    var s, s' := Lying(g, stray, d, k), Lying(g, stray, d, k + 1);
    if k == 0 {
      LyingStart(g, stray, d);
    } else if k == 1 || k == 5 {
      LyingCall(g, stray, d, k);
    } else {
      hide BuildDesired, EnvironmentStep, StartStep, CallStep;
      var plan := Plan([d], [stray.spec.name], [], []);
      assert Rounds.Items(plan, DeletingMissing) - {0} == {};
      assert Rounds.Items(plan, DeletingErrored) == {} && Rounds.Items(plan, DeletingUpdated) == {};
      assert FinishStep(s, s');
    }
  }

  lemma LyingStart(g: Gke, stray: ClusterPool, d: Desired)
    requires BuildDesired(g, d).Success? && IsStatic(stray.spec) && stray.spec.name != d.name
    ensures StartStep(g, Lying(g, stray, d, 0), Lying(g, stray, d, 1))
  {
    hide BuildDesired, DiffOf, PlanOf;
    MovingPlan(g, stray, d);
    assert [RefOf(stray)][0] in [RefOf(stray)];
  }

  lemma LyingCall(g: Gke, stray: ClusterPool, d: Desired, k: nat)
    requires BuildDesired(g, d).Success? && stray.spec.name != d.name && (k == 1 || k == 5)
    ensures CallStep(g, Lying(g, stray, d, k), Lying(g, stray, d, k + 1), 0, true)
  {
    BuiltPoolListsAsAsked(g, d.name, d.subblock, d.config, RUNNING);
    assert BuildDesired(g, d).value.name == d.name;
    hide BuildDesired;
    var pools := map[stray.spec.name := stray];
    var built := ClusterPool(BuildDesired(g, d).value, RUNNING);
    assert pools[d.name := built] == pools[d.name := pools[d.name := built][d.name]];
  }

  lemma LyingRunIsRun(g: Gke, stray: ClusterPool, d: Desired)
    requires BuildDesired(g, d).Success? && IsStatic(stray.spec) && stray.spec.name != d.name
    ensures IsRun(g, LyingRun(g, stray, d))
  {
    var run := LyingRun(g, stray, d);
    assert WellKeyed(run[0].pools) && run[0].phase.Idle? by {
      assert run[0] == Lying(g, stray, d, 0);
    }
    hide Lying, LyingRun, Step, BuildDesired;
    forall k | 0 <= k < |run| - 1 ensures Step(g, run[k], run[k + 1]) {
      LyingStep(g, stray, d, k);
    }
  }

  lemma LyingPools(g: Gke, stray: ClusterPool, d: Desired, k: nat)
    requires BuildDesired(g, d).Success? && k < 7
    ensures Lying(g, stray, d, k).round.desired == [d]
    ensures Lying(g, stray, d, k).pools
         == if k < 6 then map[stray.spec.name := stray]
            else map[stray.spec.name := stray][d.name := ClusterPool(BuildDesired(g, d).value, RUNNING)]
  {
    hide BuildDesired;
  }

  lemma LyingRunStartsClean(g: Gke, stray: ClusterPool, d: Desired)
    requires BuildDesired(g, d).Success? && stray.spec.name != d.name
    ensures CleanStarts(g, LyingRun(g, stray, d))
  {
    hide BuildDesired, StartStep, Lying, LyingRun;
    var run := LyingRun(g, stray, d);
    forall k {:trigger run[k]} | 0 <= k < |run| - 1
      ensures OneNamePerSubblock(run[k + 1].round.desired) && NoCollision(g, run[k].pools, run[k + 1].round.desired)
    {
      LyingPools(g, stray, d, k);
      LyingPools(g, stray, d, k + 1);
    }
  }

  lemma BothHold(g: Gke, stray: ClusterPool, d: Desired)
    requires BuildsStatic(g, d) && IsStatic(stray.spec) && CarriesOwnHash(g, stray.spec)
    requires stray.spec.name != d.name && SubblockOf(stray.spec) == d.subblock
    ensures Consistent(g, map[stray.spec.name := stray])
    ensures !Exclusive(map[stray.spec.name := stray][d.name := ClusterPool(BuildDesired(g, d).value, RUNNING)])
  {
    BuiltPoolListsAsAsked(g, d.name, d.subblock, d.config, RUNNING);
    hide BuildDesired, SubblockOf, LabelsOf, HashDataOf;
    var after := map[stray.spec.name := stray][d.name := ClusterPool(BuildDesired(g, d).value, RUNNING)];
    assert Static(after, stray.spec.name) && Static(after, d.name);
  }

  /**
    Exclusivity rests on the service's word: a deletion whose operation ended in an
    error is reported as done, and one such deletion is enough for two static
    pools on one sub-block, with everything else in order.
   */
  lemma LyingDeletionBreaksExclusivity(g: Gke, stray: ClusterPool, d: Desired)
    requires BuildsStatic(g, d) && IsStatic(stray.spec) && CarriesOwnHash(g, stray.spec)
    requires stray.spec.name != d.name && SubblockOf(stray.spec) == d.subblock
    ensures exists run: seq<State> ::
              IsRun(g, run) && Consistent(g, run[0].pools) && CleanStarts(g, run) && !Exclusive(run[|run| - 1].pools)
  {
    LyingRunIsRun(g, stray, d);
    LyingRunStartsClean(g, stray, d);
    LyingPools(g, stray, d, 0);
    LyingPools(g, stray, d, 6);
    BothHold(g, stray, d);
    hide *;
    var run := LyingRun(g, stray, d);
    assert run[0] == Lying(g, stray, d, 0) && run[|run| - 1] == Lying(g, stray, d, 6);
  }
}
