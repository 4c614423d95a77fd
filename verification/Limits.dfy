/**
  How far the safety and convergence results reach: which configurations meet
  their hypotheses, and what happens to those that do not.
 */
module Limits {
  import opened Common
  import opened NodePools
  import opened Diff
  import opened Planning
  import opened Rounds
  import opened Safety
  import opened Convergence
  import opened Ranking
  import opened Expansion

  /* ---- From entries to capacity ---- */

  predicate SlashFree(bs: seq<Batch>) {
    forall b :: b in bs ==> '/' !in b.block
  }

  lemma ItemsAreTheirs(project: string, bs: seq<Batch>, d: Desired) returns (x: Expansion.Item)
    requires Natural(bs) && d in DesiredList(project, Expansion.Items(bs))
    ensures x.batch in bs && x.batch.start <= x.index <= x.batch.end && 0 <= x.index && d == DesiredOf(project, x)
  {
    var items := Expansion.Items(bs);
    var k :| 0 <= k < |items| && DesiredList(project, items)[k] == d;
    x := items[k];
    ItemsExactly(bs, x);
  }

  lemma ItemIsDesired(project: string, bs: seq<Batch>, b: Batch, index: int)
    requires b in bs && b.start <= index <= b.end
    ensures DesiredOf(project, Expansion.Item(b, index)) in DesiredList(project, Expansion.Items(bs))
  {
    var items, x := Expansion.Items(bs), Expansion.Item(b, index);
    ItemsExactly(bs, x);
    var k :| 0 <= k < |items| && items[k] == x;
    assert DesiredList(project, items)[k] == DesiredOf(project, x);
  }

  /**
    A configuration asks for one sub-block under two names exactly when entries
    for overlapping ranges of one block of one reservation name pools differently.
   */
  lemma CapacityIsNamedOnceIffUnambiguous(project: string, bs: seq<Batch>)
    requires Natural(bs) && SlashFree(bs)
    ensures OneNamePerSubblock(DesiredList(project, Expansion.Items(bs))) <==> UnambiguousCapacity(bs)
  {
    hide DesiredOf, Expansion.Items, SameTemplate, SameCapacity;
    var ds := DesiredList(project, Expansion.Items(bs));
    if UnambiguousCapacity(bs) {
      forall d, e | d in ds && e in ds && d.subblock == e.subblock ensures d.name == e.name {
        var x := ItemsAreTheirs(project, bs, d);
        var y := ItemsAreTheirs(project, bs, e);
        SameSubblockExactly(project, x, y);
        SameNameExactly(project, x, y);
      }
    }
    if OneNamePerSubblock(ds) {
      forall b, c | b in bs && c in bs && SameCapacity(b, c) && RangesOverlap(b, c) ensures SameTemplate(b, c) {
        var index := SharedIndex(b, c);
        var x, y := Expansion.Item(b, index), Expansion.Item(c, index);
        ItemIsDesired(project, bs, b, index);
        ItemIsDesired(project, bs, c, index);
        SameSubblockExactly(project, x, y);
        SameNameExactly(project, x, y);
      }
    }
  }

  /* ---- Ambiguous configurations ---- */

  /** What a desired entry builds is a static pool that holds a sub-block. */
  ghost predicate BuildsStatic(g: Gke, d: Desired) {
    BuildDesired(g, d).Success? && IsStatic(BuildDesired(g, d).value) && d.subblock != ""
  }

  lemma BuildsStaticMeans(g: Gke, d: Desired)
    requires BuildsStatic(g, d)
    ensures BuildDesired(g, d).Success? && IsStatic(BuildDesired(g, d).value)
    ensures SubblockOf(BuildDesired(g, d).value) == d.subblock && d.subblock != ""
  {
    BuiltPoolListsAsAsked(g, d.name, d.subblock, d.config, RUNNING);
  }

  /* ---- The pools after a round, exactly ---- */

  /** A pool that stands after the round, as it was kept or its deletion did not happen, holds what another entry was created for. */
  ghost predicate Clash(pools: Pools, plan: Plan, stay: set<string>, n: string, d: Desired) {
    d in plan.creates && d.name !in stay && Blocks(pools, n, d) && (n in stay || !Deletes(plan, n))
  }

  /** No two creations that happen are for one sub-block under two names. */
  ghost predicate CreatedOnce(creates: seq<Desired>, stay: set<string>) {
    forall d, e :: d in creates && e in creates && d.name !in stay && e.name !in stay && d.subblock == e.subblock ==> d.name == e.name
  }

  /** What stands after a round was created by it, or was there and stayed. */
  lemma StandsAfter(g: Gke, pools: Pools, plan: Plan, stay: set<string>, n: string)
    requires PlanFits(g, pools, plan) && Static(AfterLies(g, pools, plan, stay), n)
    requires forall d :: d in plan.creates ==> BuildsStatic(g, d)
    ensures || (exists d :: d in plan.creates && d.name == n && n !in stay && SubblockOf(AfterLies(g, pools, plan, stay)[n].spec) == d.subblock)
            || (Static(pools, n) && (n in stay || !Deletes(plan, n)) && AfterLies(g, pools, plan, stay)[n] == pools[n])
  {
    hide AfterLies, BuildDesired, BuildsStatic;
    AfterLiesAt(g, pools, plan, stay, n);
    if n !in stay {
      if d :| d in plan.creates && d.name == n {
        AfterLiesBuilt(g, pools, plan, stay, d);
        BuildsStaticMeans(g, d);
      }
    }
  }

  lemma CreatedHolds(g: Gke, pools: Pools, plan: Plan, stay: set<string>, d: Desired)
    requires PlanFits(g, pools, plan) && d in plan.creates && d.name !in stay && BuildsStatic(g, d)
    ensures var after := AfterLies(g, pools, plan, stay);
            Static(after, d.name) && SubblockOf(after[d.name].spec) == d.subblock != ""
  {
    hide AfterLies, BuildDesired, BuildsStatic, PlanFits;
    AfterLiesBuilt(g, pools, plan, stay, d);
    BuildsStaticMeans(g, d);
  }

  lemma ClashBreaksExclusivity(g: Gke, pools: Pools, plan: Plan, stay: set<string>, n: string, d: Desired)
    requires PlanFits(g, pools, plan) && BuildsStatic(g, d) && Clash(pools, plan, stay, n, d)
    ensures !Exclusive(AfterLies(g, pools, plan, stay))
  {
    hide AfterLies, BuildsStatic, SubblockOf, LabelsOf, BuildDesired;
    CreatedHolds(g, pools, plan, stay, d);
    assert !Names(plan.creates, n) || n in stay;
    hide PlanFits;
    AfterLiesAt(g, pools, plan, stay, n);
    var after := AfterLies(g, pools, plan, stay);
    assert Static(after, n) && Static(after, d.name);
  }

  lemma TwoCreationsBreakExclusivity(g: Gke, pools: Pools, plan: Plan, stay: set<string>, d: Desired, e: Desired)
    requires PlanFits(g, pools, plan) && BuildsStatic(g, d) && BuildsStatic(g, e)
    requires d in plan.creates && e in plan.creates && d.name !in stay && e.name !in stay && d.subblock == e.subblock && d.name != e.name
    ensures !Exclusive(AfterLies(g, pools, plan, stay))
  {
    hide AfterLies, BuildsStatic, SubblockOf, LabelsOf, PlanFits;
    CreatedHolds(g, pools, plan, stay, d);
    CreatedHolds(g, pools, plan, stay, e);
  }

  lemma NoClashKeepsApart(g: Gke, pools: Pools, plan: Plan, stay: set<string>, m: string, n: string)
    requires PlanFits(g, pools, plan) && Exclusive(pools) && forall d :: d in plan.creates ==> BuildsStatic(g, d)
    requires CreatedOnce(plan.creates, stay) && forall k, d :: !Clash(pools, plan, stay, k, d)
    requires var after := AfterLies(g, pools, plan, stay);
             m != n && Static(after, m) && Static(after, n) && SubblockOf(after[m].spec) != ""
    ensures var after := AfterLies(g, pools, plan, stay);
            SubblockOf(after[m].spec) != SubblockOf(after[n].spec)
  {
    StandsAfter(g, pools, plan, stay, m);
    StandsAfter(g, pools, plan, stay, n);
    hide AfterLies, BuildsStatic, PlanFits, SubblockOf, LabelsOf;
    forall d | d in plan.creates ensures !Clash(pools, plan, stay, m, d) && !Clash(pools, plan, stay, n, d) {
    }
  }

  /**
    The pools after a round, with any set of deletions that did not happen, are
    exclusive exactly when no pool that stands holds what another entry was
    created for, and no two creations are for one sub-block.
   */
  lemma ExclusiveAfterLiesExactly(g: Gke, pools: Pools, plan: Plan, stay: set<string>)
    requires PlanFits(g, pools, plan) && Exclusive(pools) && forall d :: d in plan.creates ==> BuildsStatic(g, d)
    ensures Exclusive(AfterLies(g, pools, plan, stay))
       <==> CreatedOnce(plan.creates, stay) && forall n, d :: !Clash(pools, plan, stay, n, d)
  {
    hide AfterLies, BuildsStatic, PlanFits, Clash, SubblockOf, LabelsOf;
    var after := AfterLies(g, pools, plan, stay);
    if n, d :| Clash(pools, plan, stay, n, d) {
      ClashIsOfCreation(pools, plan, stay, n, d);
      ClashBreaksExclusivity(g, pools, plan, stay, n, d);
    } else if d, e :| d in plan.creates && e in plan.creates && d.name !in stay && e.name !in stay
                      && d.subblock == e.subblock && d.name != e.name {
      TwoCreationsBreakExclusivity(g, pools, plan, stay, d, e);
    } else {
      forall m, n | Static(after, m) && Static(after, n) && m != n && SubblockOf(after[m].spec) != ""
        ensures SubblockOf(after[m].spec) != SubblockOf(after[n].spec)
      {
        NoClashKeepsApart(g, pools, plan, stay, m, n);
      }
    }
  }

  lemma ClashIsOfCreation(pools: Pools, plan: Plan, stay: set<string>, n: string, d: Desired)
    requires Clash(pools, plan, stay, n, d)
    ensures d in plan.creates
  {
  }

  /* ---- Kept pools that squat ---- */

  lemma RoundIsPlanned(g: Gke, pools: Pools, round: Round)
    requires RoundGiven(g, pools, round.listing, round.desired) && DiffOf(g, round.listing, round.desired).Success?
    requires round.plan == PlanOf(g, round.listing, round.desired, round.inUse)
    ensures Planned(g, round) && PlanFits(g, pools, round.plan)
    ensures forall d :: d in round.plan.creates ==> d in round.desired
    ensures OneNamePerSubblock(round.desired) ==> OneNamePerSubblock(round.plan.creates)
  {
    hide DiffOf, PlanOf;
    PlannedFits(g, pools, round.listing, round.desired, round.inUse);
    CreatesAreDesired(g, pools, round);
  }

  /** A kept squatter clashes: it is not deleted, and what it holds is to be created under another name. */
  lemma SquatterClashes(g: Gke, pools: Pools, round: Round, n: string, e: Desired)
    requires RoundGiven(g, pools, round.listing, round.desired) && Planned(g, round)
    requires KeptSquatter(g, pools, round.desired, round.inUse, n, e)
    ensures Clash(pools, round.plan, {}, n, e)
  {
    hide DiffOf, PlanOf, PlanFits, VerdictOf;
    PlanReadsPools(g, pools, round.listing, round.desired, round.inUse);
    var d :| d in round.desired && d.name == n;
    assert !Deletes(round.plan, n);
  }

  /** Where there are no kept squatters, only deletions that did not happen can clash. */
  lemma OnlyLiesClash(g: Gke, pools: Pools, round: Round, stay: set<string>, n: string, d: Desired)
    requires WellKeyed(pools) && IsListing(round.listing, pools) && Planned(g, round)
    requires NoSquatters(g, pools, round.desired, round.inUse)
    ensures Clash(pools, round.plan, stay, n, d)
       <==> n in stay && d in round.plan.creates && d.name !in stay && Blocks(pools, n, d)
  {
    hide DiffOf, PlanOf, NoSquatters;
    if d in round.plan.creates && Blocks(pools, n, d) {
      BlockersAreDeleted(g, pools, round, n, d);
    }
  }

  /**
    Exactly when pools of any content, with or without a hash, and configurations
    of any kind are harmless: from exclusive pools an undisturbed round ends with
    exclusive pools exactly when no kept pool holds what another entry is to be
    created for, and no sub-block is to be created for twice.
   */
  lemma ExclusiveAfterRoundExactly(g: Gke, pools: Pools, listing: seq<NodePoolRef>, desired: seq<Desired>, inUse: set<string>)
    requires RoundGiven(g, pools, listing, desired) && Exclusive(pools) && forall d :: d in desired ==> BuildsStatic(g, d)
    ensures DiffOf(g, listing, desired).Success?
    ensures var plan := PlanOf(g, listing, desired, inUse);
            Exclusive(AfterRound(g, pools, plan)) <==> NoSquatters(g, pools, desired, inUse) && OneNamePerSubblock(plan.creates)
  {
    DiffSucceedsIffAllBuild(g, listing, desired);
    assert DiffOf(g, listing, desired).Success? && WellKeyed(pools) && IsListing(listing, pools);
    var plan := PlanOf(g, listing, desired, inUse);
    var round := Round(desired, listing, inUse, plan);
    RoundIsPlanned(g, pools, round);
    hide DiffOf, PlanOf, AfterRound, RoundGiven, PlanFits, BuildsStatic, KeptSquatter, Clash, IsListing, WellKeyed;
    AfterNoLies(g, pools, plan);
    ExclusiveAfterLiesExactly(g, pools, plan, {});
    assert CreatedOnce(plan.creates, {}) <==> OneNamePerSubblock(plan.creates);
    if n, e :| KeptSquatter(g, pools, desired, inUse, n, e) {
      SquatterClashes(g, pools, round, n, e);
    } else {
      forall n, d ensures !Clash(pools, plan, {}, n, d) {
        OnlyLiesClash(g, pools, round, {}, n, d);
      }
    }
  }

  /** For a configuration that names each sub-block once, kept squatters decide. */
  lemma ExclusiveAfterRoundIffNoSquatters(g: Gke, pools: Pools, listing: seq<NodePoolRef>, desired: seq<Desired>, inUse: set<string>)
    requires RoundGiven(g, pools, listing, desired) && Exclusive(pools) && OneNamePerSubblock(desired)
    requires forall d :: d in desired ==> BuildsStatic(g, d)
    ensures DiffOf(g, listing, desired).Success?
    ensures Exclusive(AfterRound(g, pools, PlanOf(g, listing, desired, inUse))) <==> NoSquatters(g, pools, desired, inUse)
  {
    ExclusiveAfterRoundExactly(g, pools, listing, desired, inUse);
    hide DiffOf, PlanOf, AfterRound, RoundGiven, BuildsStatic, NoSquatters;
    RoundIsPlanned(g, pools, Round(desired, listing, inUse, PlanOf(g, listing, desired, inUse)));
  }

  lemma FreshPlanCreatesAll(g: Gke, desired: seq<Desired>, inUse: set<string>)
    requires DistinctNames(desired) && AllBuild(g, desired)
    ensures DiffOf(g, [], desired).Success? && RoundGiven(g, map[], [], desired) && NoSquatters(g, map[], desired, inUse)
    ensures forall d :: d in PlanOf(g, [], desired, inUse).creates <==> d in desired
  {
    hide PlanOf, DiffOf, PlanFits, BuildDesired;
    PlanReadsPools(g, map[], [], desired, inUse);
  }

  /** In an empty cluster, the configuration decides: it must name each sub-block once. */
  lemma FreshRoundIsExclusiveIffNamedOnce(g: Gke, desired: seq<Desired>, inUse: set<string>)
    requires DistinctNames(desired) && forall d :: d in desired ==> BuildsStatic(g, d)
    ensures DiffOf(g, [], desired).Success?
    ensures Exclusive(AfterRound(g, map[], PlanOf(g, [], desired, inUse))) <==> OneNamePerSubblock(desired)
  {
    FreshPlanCreatesAll(g, desired, inUse);
    hide DiffOf, PlanOf, AfterRound, RoundGiven, BuildsStatic, NoSquatters;
    ExclusiveAfterRoundExactly(g, map[], [], desired, inUse);
  }

  /* ---- Pools without a hash ---- */

  lemma LegacyVerdicts(g: Gke, legacy: ClusterPool, d: Desired, e: Desired)
    requires d.name != e.name && legacy.status != "ERROR" && LABEL_NODE_POOL_HASH !in LabelsOf(legacy.spec)
    ensures VerdictOf(g, RefsOf(map[d.name := legacy]), d) == Kept
    ensures VerdictOf(g, RefsOf(map[d.name := legacy]), e) == Absent
  {
  }

  lemma LegacyGiven(g: Gke, legacy: ClusterPool, d: Desired, e: Desired)
    requires BuildDesired(g, d).Success? && BuildDesired(g, e).Success? && d.name != e.name && legacy.spec.name == d.name
    ensures RoundGiven(g, map[d.name := legacy], [RefOf(legacy)], [d, e])
  {
    hide BuildDesired;
    assert [RefOf(legacy)][0] in [RefOf(legacy)];
  }

  /**
    The smallest squatter: a static pool without a hash is never replaced while
    its name is desired, whatever it holds, and then one undisturbed round,
    without locks, puts two static pools on one sub-block.
   */
  lemma HashlessPoolBreaksExclusivity(g: Gke, legacy: ClusterPool, d: Desired, e: Desired)
    requires BuildsStatic(g, d) && BuildsStatic(g, e) && d.name != e.name && d.subblock != e.subblock
    requires legacy.spec.name == d.name && legacy.status != "ERROR" && IsStatic(legacy.spec)
    requires LABEL_NODE_POOL_HASH !in LabelsOf(legacy.spec) && SubblockOf(legacy.spec) == e.subblock
    ensures var pools := map[d.name := legacy];
            && Exclusive(pools) && OneNamePerSubblock([d, e]) && DiffOf(g, [RefOf(legacy)], [d, e]).Success?
            && !Exclusive(AfterRound(g, pools, PlanOf(g, [RefOf(legacy)], [d, e], {})))
  {
    hide DiffOf, PlanOf, AfterRound, BuildDesired, VerdictOf, SubblockOf, LabelsOf, RoundGiven;
    var pools, desired := map[d.name := legacy], [d, e];
    assert desired[0] == d && desired[1] == e && d in desired && e in desired;
    LegacyGiven(g, legacy, d, e);
    LegacyVerdicts(g, legacy, d, e);
    assert KeptSquatter(g, pools, desired, {}, d.name, e);
    ExclusiveAfterRoundIffNoSquatters(g, pools, [RefOf(legacy)], desired, {});
  }

  /* ---- Create, list, compare ---- */

  /** The pools are those the configuration builds, none of them in ERROR. */
  ghost predicate AsBuilt(g: Gke, pools: Pools, desired: seq<Desired>) {
    && (forall d :: d in desired ==>
          d.name in pools && BuildDesired(g, d) == Success(pools[d.name].spec) && pools[d.name].status != "ERROR")
    && (forall n :: n in pools ==> Names(desired, n))
  }

  lemma AsBuiltIsKept(g: Gke, pools: Pools, desired: seq<Desired>, d: Desired)
    requires AsBuilt(g, pools, desired) && d in desired
    ensures VerdictOf(g, RefsOf(pools), d) == Kept && pools[d.name].spec.name == d.name
  {
    BuiltPoolListsAsAsked(g, d.name, d.subblock, d.config, pools[d.name].status);
  }

  /** Pools built for a configuration and read back through a listing differ in nothing from it. */
  lemma CreateListDiffRoundTrip(g: Gke, pools: Pools, listing: seq<NodePoolRef>, desired: seq<Desired>)
    requires DistinctNames(desired) && AsBuilt(g, pools, desired) && IsListing(listing, pools)
    ensures DiffOf(g, listing, desired) == Success(Differences([], [], [], []))
  {
    hide BuildDesired, VerdictOf, DiffOf;
    forall d | d in desired ensures VerdictOf(g, RefsOf(pools), d) == Kept && pools[d.name].spec.name == d.name {
      AsBuiltIsKept(g, pools, desired, d);
    }
    ZeroCostMeansAllKept(g, pools, desired);
    assert StrayPools(pools, desired) == {};
    RankZeroIffNoDifference(g, pools, listing, desired);
  }

  /* ---- All or nothing ---- */

  /** No round starts unless every desired pool can be built. */
  lemma NoRoundUnlessAllBuild(g: Gke, s: State, s': State)
    requires StartStep(g, s, s')
    ensures AllBuild(g, s'.round.desired)
  {
    DiffSucceedsIffAllBuild(g, s'.round.listing, s'.round.desired);
  }

  /**
    In every run, rebuilding a planned creation never fails, and a pool that a
    call adds is the one that was planned, hash included.
   */
  lemma RebuildCannotFail(g: Gke, run: seq<State>, k: nat, i: nat, ok: bool)
    requires IsRun(g, run) && run[0].log == [] && k + 1 < |run|
    requires CallStep(g, run[k], run[k + 1], i, ok) && run[k].phase.stage.Creating?
    ensures var d := run[k].round.plan.creates[i];
            && d in run[k].round.desired && BuildDesired(g, d).Success?
            && (run[k + 1].pools != run[k].pools ==>
                  && d.name !in run[k].pools && d.name in run[k + 1].pools
                  && run[k + 1].pools[d.name].spec == BuildDesired(g, d).value
                  && CarriesOwnHash(g, run[k + 1].pools[d.name].spec))
  {
    var s := run[k];
    var d := s.round.plan.creates[i];
    RunsKeepRoundsSound(g, run, k);
    assert d in s.round.plan.creates;
    PlannedIsDesired(g, s.round, d);
    BuiltPoolListsAsAsked(g, d.name, d.subblock, d.config, RUNNING);
  }

  lemma PlannedIsDesired(g: Gke, round: Round, d: Desired)
    requires Planned(g, round) && d in round.plan.creates
    ensures d in round.desired && BuildDesired(g, d).Success?
  {
    DiffSucceedsIffAllBuild(g, round.listing, round.desired);
    DiffMembers(g, round.listing, round.desired);
    PlanMembers(DiffOf(g, round.listing, round.desired).value, ByName(round.listing), round.inUse);
  }
}
