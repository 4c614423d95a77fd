/**
  Capacity exclusivity: in every state of every run, no two static pools hold
  the same sub-block.
 */
module Safety {
  import opened NodePools
  import opened Diff
  import opened Planning
  import opened Rounds

  ghost predicate Static(pools: Pools, n: string) {
    n in pools && IsStatic(pools[n].spec)
  }

  /** No two static pools hold one sub-block; a pool without a reservation holds none. */
  ghost predicate Exclusive(pools: Pools) {
    forall m, n :: Static(pools, m) && Static(pools, n) && m != n && SubblockOf(pools[m].spec) != "" ==>
      SubblockOf(pools[m].spec) != SubblockOf(pools[n].spec)
  }

  /** Every static pool carries the hash of its own content: none is without a hash or was edited. */
  ghost predicate SelfHashed(g: Gke, pools: Pools) {
    forall n :: Static(pools, n) ==> CarriesOwnHash(g, pools[n].spec)
  }

  ghost predicate Consistent(g: Gke, pools: Pools) {
    WellKeyed(pools) && Exclusive(pools) && SelfHashed(g, pools)
  }

  /** The configuration does not ask for one sub-block under two names. */
  ghost predicate OneNamePerSubblock(desired: seq<Desired>) {
    forall d, e :: d in desired && e in desired && d.subblock == e.subblock ==> d.name == e.name
  }

  /** The hash tells a static pool from the pool desired under its name. */
  ghost predicate NoCollision(g: Gke, pools: Pools, desired: seq<Desired>) {
    forall d :: d in desired && Static(pools, d.name) && BuildDesired(g, d).Success?
                && g.hash(HashDataOf(pools[d.name].spec)) == DesiredHash(g, d)
            ==> HashDataOf(pools[d.name].spec) == HashDataOf(BuildDesired(g, d).value)
  }

  /** What every round of a run is given: an unambiguous configuration and a hash without collisions on it. */
  ghost predicate CleanStarts(g: Gke, run: seq<State>) {
    forall k :: 0 <= k < |run| - 1 && StartStep(g, run[k], run[k + 1]) ==>
      OneNamePerSubblock(run[k + 1].round.desired) && NoCollision(g, run[k].pools, run[k + 1].round.desired)
  }

  /** What is enough: creations that name each sub-block once, and no kept pool that squats on what another entry is to be created for. */
  ghost predicate HarmlessStarts(g: Gke, run: seq<State>) {
    forall k :: 0 <= k < |run| - 1 && StartStep(g, run[k], run[k + 1]) ==> HarmlessStart(g, run[k].pools, run[k + 1].round)
  }

  ghost predicate HarmlessStart(g: Gke, pools: Pools, round: Round) {
    OneNamePerSubblock(round.plan.creates) && NoSquatters(g, pools, round.desired, round.inUse)
  }

  /** The service's word: a delete call that returned without error has removed the pool. */
  ghost predicate DeletesHold(g: Gke, run: seq<State>) {
    forall k, i: nat :: 0 <= k < |run| - 1 && CallStep(g, run[k], run[k + 1], i, true) && !run[k].phase.stage.Creating? ==>
      StageNames(run[k].round.plan, run[k].phase.stage)[i] !in run[k + 1].pools
  }

  /** Where the service's word matters: a delete call that returned without error leaves no pool in the way of a planned creation. */
  ghost predicate DeletionsClear(g: Gke, run: seq<State>) {
    forall k, i: nat :: 0 <= k < |run| - 1 && CallStep(g, run[k], run[k + 1], i, true) && !run[k].phase.stage.Creating? ==>
      Clears(run[k + 1].pools, run[k].round.plan, StageNames(run[k].round.plan, run[k].phase.stage)[i])
  }

  ghost predicate Clears(pools: Pools, plan: Plan, n: string) {
    forall d :: d in plan.creates ==> !Blocks(pools, n, d)
  }

  /** Every deletion that removes its pool clears. */
  lemma HeldDeletionsClear(g: Gke, run: seq<State>)
    requires DeletesHold(g, run)
    ensures DeletionsClear(g, run)
  {
    hide CallStep;
  }

  /** Only pools still to be deleted stand in the way of a planned creation. */
  ghost predicate CapacityClears(s: State) {
    s.phase.Running? ==>
      && OneNamePerSubblock(s.round.plan.creates)
      && forall n, d :: Blocks(s.pools, n, d) && d in s.round.plan.creates ==> n in Outstanding(s.round.plan, s.phase)
  }

  /** A static pool of another name holds the sub-block of a desired entry. */
  ghost predicate Blocks(pools: Pools, n: string, d: Desired) {
    Static(pools, n) && n != d.name && SubblockOf(pools[n].spec) == d.subblock && d.subblock != ""
  }

  ghost predicate Safe(s: State) {
    WellKeyed(s.pools) && Exclusive(s.pools) && CapacityClears(s)
  }

  lemma ListingByName(listing: seq<NodePoolRef>, pools: Pools)
    requires IsListing(listing, pools) && WellKeyed(pools)
    ensures ByName(listing) == map n | n in pools :: RefOf(pools[n])
  {
    ByNameExactly(listing);
    assert forall n :: n in pools ==> RefOf(pools[n]).name == n;
  }

  /* ---- The plan, read off the pools ---- */

  function RefsOf(pools: Pools): Refs {
    map n | n in pools :: RefOf(pools[n])
  }

  /** A pool in use that the configuration would remove or change. */
  ghost predicate LockedPool(g: Gke, pools: Pools, desired: seq<Desired>, inUse: set<string>, n: string) {
    && n in inUse && n in pools
    && if Names(desired, n) then exists d :: d in desired && d.name == n && VerdictOf(g, RefsOf(pools), d) == Changed
       else Static(pools, n)
  }

  ghost predicate Held(g: Gke, pools: Pools, desired: seq<Desired>, inUse: set<string>, subblock: string) {
    exists n :: LockedPool(g, pools, desired, inUse, n) && n in pools && SubblockOf(pools[n].spec) == subblock
  }

  ghost predicate ToCreate(g: Gke, pools: Pools, desired: seq<Desired>, inUse: set<string>, d: Desired) {
    && d in desired && VerdictOf(g, RefsOf(pools), d) != Kept
    && !(VerdictOf(g, RefsOf(pools), d) == Changed && d.name in inUse)
    && !Held(g, pools, desired, inUse, d.subblock)
  }

  /** What a round is given to plan from: a faithful listing of the pools and a configuration that can be built. */
  ghost predicate Readable(g: Gke, pools: Pools, listing: seq<NodePoolRef>, desired: seq<Desired>) {
    WellKeyed(pools) && IsListing(listing, pools) && DiffOf(g, listing, desired).Success?
  }

  lemma StraysReadPools(g: Gke, pools: Pools, listing: seq<NodePoolRef>, desired: seq<Desired>, n: string)
    requires Readable(g, pools, listing, desired)
    ensures n in DiffOf(g, listing, desired).value.toDeleteMissing <==> Static(pools, n) && !Names(desired, n)
  {
    DiffMembers(g, listing, desired);
    hide DiffOf;
    if Static(pools, n) {
      assert RefOf(pools[n]) in listing && RefOf(pools[n]).name == n;
    }
  }

  /** A healthy pool with a hash label that is not the hash its entry asks for. */
  ghost predicate Outdated(g: Gke, pools: Pools, d: Desired) {
    && d.name in pools && pools[d.name].status != "ERROR"
    && LABEL_NODE_POOL_HASH in LabelsOf(pools[d.name].spec) && LabelsOf(pools[d.name].spec)[LABEL_NODE_POOL_HASH] != DesiredHash(g, d)
  }

  /** Some pool of the cluster is to be removed or changed. */
  ghost predicate AnyPoolToGuard(g: Gke, pools: Pools, desired: seq<Desired>) {
    || (exists n :: Static(pools, n) && !Names(desired, n))
    || (exists d :: d in desired && Outdated(g, pools, d))
  }

  lemma GuardReadsPools(g: Gke, pools: Pools, listing: seq<NodePoolRef>, desired: seq<Desired>)
    requires WellKeyed(pools) && IsListing(listing, pools)
    ensures AnythingToGuard(g, listing, desired) <==> AnyPoolToGuard(g, pools, desired)
  {
    forall n | Static(pools, n) && !Names(desired, n) ensures Removed(listing, desired, n) {
      assert RefOf(pools[n]) in listing && RefOf(pools[n]).name == n;
    }
    forall d | d in desired && Outdated(g, pools, d) ensures Altered(g, listing, desired, d.name) {
      assert RefOf(pools[d.name]) in listing && ChangedBy(g, RefOf(pools[d.name]), d);
    }
    forall n | Altered(g, listing, desired, n) ensures exists d :: d in desired && Outdated(g, pools, d) {
      var d, r :| d in desired && d.name == n && r in listing && ChangedBy(g, r, d);
    }
  }

  lemma LocksReadPools(g: Gke, pools: Pools, listing: seq<NodePoolRef>, desired: seq<Desired>, inUse: set<string>, n: string)
    requires Readable(g, pools, listing, desired)
    ensures Locked(DiffOf(g, listing, desired).value, inUse, n) <==> LockedPool(g, pools, desired, inUse, n)
  {
    DiffMembers(g, listing, desired);
    StraysReadPools(g, pools, listing, desired, n);
    ListingByName(listing, pools);
    hide DiffOf;
  }

  lemma HeldReadsPools(g: Gke, pools: Pools, listing: seq<NodePoolRef>, desired: seq<Desired>, inUse: set<string>, s: string)
    requires Readable(g, pools, listing, desired)
    ensures HeldCapacity(DiffOf(g, listing, desired).value, ByName(listing), inUse, s) <==> Held(g, pools, desired, inUse, s)
  {
    hide DiffOf, LockedPool, Locked;
    var diff, refs := DiffOf(g, listing, desired).value, ByName(listing);
    ListingByName(listing, pools);
    if n :| Locked(diff, inUse, n) && n in refs && refs[n].subblockName == s {
      LocksReadPools(g, pools, listing, desired, inUse, n);
    }
    if n :| LockedPool(g, pools, desired, inUse, n) && n in pools && SubblockOf(pools[n].spec) == s {
      LocksReadPools(g, pools, listing, desired, inUse, n);
    }
  }

  /** The planned creations, in terms of the pools, whatever names the configuration repeats. */
  lemma CreatesReadPools(g: Gke, pools: Pools, listing: seq<NodePoolRef>, desired: seq<Desired>, inUse: set<string>, d: Desired)
    requires Readable(g, pools, listing, desired)
    ensures d in PlanOf(g, listing, desired, inUse).creates <==> ToCreate(g, pools, desired, inUse, d)
  {
    var diff, refs := DiffOf(g, listing, desired).value, ByName(listing);
    DiffMembers(g, listing, desired);
    PlanMembers(diff, refs, inUse);
    HeldReadsPools(g, pools, listing, desired, inUse, d.subblock);
    ListingByName(listing, pools);
    hide DiffOf, LockFilter, Held, HeldCapacity;
  }

  /**
    A static pool that its own entry keeps as it is, because it has no hash or one
    that matches, holds the sub-block that another entry is to be created for.
   */
  ghost predicate KeptSquatter(g: Gke, pools: Pools, desired: seq<Desired>, inUse: set<string>, n: string, e: Desired) {
    && Names(desired, n) && (forall d :: d in desired && d.name == n ==> VerdictOf(g, RefsOf(pools), d) == Kept)
    && ToCreate(g, pools, desired, inUse, e) && Blocks(pools, n, e)
  }

  ghost predicate NoSquatters(g: Gke, pools: Pools, desired: seq<Desired>, inUse: set<string>) {
    forall n, e :: !KeptSquatter(g, pools, desired, inUse, n, e)
  }

  /**
    The heart of planning: but for kept squatters, whatever holds the sub-block of
    a planned creation is itself planned for deletion. A locked pool's capacity
    is struck from the creations, all others go.
   */
  lemma BlockersAreDeleted(g: Gke, pools: Pools, round: Round, n: string, d: Desired)
    requires WellKeyed(pools) && IsListing(round.listing, pools) && Planned(g, round)
    requires NoSquatters(g, pools, round.desired, round.inUse)
    requires d in round.plan.creates && Blocks(pools, n, d)
    ensures Deletes(round.plan, n)
  {
    hide DiffOf, LockFilter, BuildDesired;
    var diff, refs := DiffOf(g, round.listing, round.desired).value, ByName(round.listing);
    DiffMembers(g, round.listing, round.desired);
    PlanMembers(diff, refs, round.inUse);
    ListingByName(round.listing, pools);
    CreatesReadPools(g, pools, round.listing, round.desired, round.inUse, d);
    if Names(round.desired, n) {
      assert !KeptSquatter(g, pools, round.desired, round.inUse, n, d);
      var e :| e in round.desired && e.name == n && VerdictOf(g, RefsOf(pools), e) != Kept;
    }
    assert refs[n].subblockName == d.subblock;
    assert Locked(diff, round.inUse, n) ==> HeldCapacity(diff, refs, round.inUse, d.subblock);
  }

  /* ---- With every hash in place there are no squatters ---- */

  /** A static pool whose hash label matches holds the sub-block its entry asks for. */
  lemma KeptPoolHoldsItsSubblock(g: Gke, pools: Pools, e: Desired)
    requires SelfHashed(g, pools) && Static(pools, e.name) && NoCollision(g, pools, [e])
    requires BuildDesired(g, e).Success? && DesiredHash(g, e) == LabelsOf(pools[e.name].spec)[LABEL_NODE_POOL_HASH]
    ensures SubblockOf(pools[e.name].spec) == e.subblock
  {
    assert [e][0] in [e];
    BuiltPoolListsAsAsked(g, e.name, e.subblock, e.config, "");
    assert HashDataOf(pools[e.name].spec).reservation == HashDataOf(BuildDesired(g, e).value).reservation;
  }

  /** With every static pool carrying its own hash, and no collision, a kept pool is no squatter. */
  lemma SelfHashedPoolsDoNotSquat(g: Gke, pools: Pools, desired: seq<Desired>, inUse: set<string>)
    requires SelfHashed(g, pools) && AllBuild(g, desired)
    requires OneNamePerSubblock(desired) && NoCollision(g, pools, desired)
    ensures NoSquatters(g, pools, desired, inUse)
  {
    hide BuildDesired;
    forall n, e | KeptSquatter(g, pools, desired, inUse, n, e) ensures false {
      var d :| d in desired && d.name == n;
      KeptPoolHoldsItsSubblock(g, pools, d);
    }
  }

  /* ---- Each kind of step keeps the invariant ---- */

  lemma ShrinkingKeepsSafe(s: State, pools: Pools)
    requires Safe(s) && EnvironmentAct(s.pools, pools)
    ensures Safe(s.(pools := pools))
  {
    forall n | Static(pools, n) ensures Static(s.pools, n) && pools[n].spec == s.pools[n].spec {
    }
    forall n, d | Blocks(pools, n, d) ensures Blocks(s.pools, n, d) {
    }
  }

  lemma StartKeepsSafe(g: Gke, s: State, s': State)
    requires Safe(s) && StartStep(g, s, s') && HarmlessStart(g, s.pools, s'.round)
    ensures Safe(s')
  {
    hide NoSquatters, DiffOf, PlanOf;
    var plan := s'.round.plan;
    OutstandingAtStart(plan);
    forall n, d | Blocks(s'.pools, n, d) && d in plan.creates ensures n in Outstanding(plan, s'.phase) {
      BlockersAreDeleted(g, s.pools, s'.round, n, d);
    }
  }

  lemma DeleteKeepsSafe(g: Gke, s: State, s': State, i: nat, ok: bool)
    requires Safe(s) && CallStep(g, s, s', i, ok) && !s.phase.stage.Creating?
    requires ok ==> Clears(s'.pools, s.round.plan, StageNames(s.round.plan, s.phase.stage)[i])
    ensures Safe(s')
  {
    ShrinkingKeepsSafe(s, s'.pools);
    OutstandingAfterCall(s.round.plan, s.phase, i, ok);
  }

  /** Adding the pool a desired entry builds, when nothing holds its sub-block, keeps the pools exclusive. */
  lemma AddingKeepsExclusive(g: Gke, pools: Pools, d: Desired, status: string)
    requires WellKeyed(pools) && Exclusive(pools) && BuildDesired(g, d).Success? && forall n :: !Blocks(pools, n, d)
    ensures var after := pools[d.name := ClusterPool(BuildDesired(g, d).value, status)];
            WellKeyed(after) && Exclusive(after)
  {
    BuiltPoolListsAsAsked(g, d.name, d.subblock, d.config, "");
    hide BuildDesired, SubblockOf, LabelsOf;
    var np := BuildDesired(g, d).value;
    var pools' := pools[d.name := ClusterPool(np, status)];
    forall n | Static(pools', n) && n != d.name
      ensures Static(pools, n) && pools'[n] == pools[n] && (d.subblock != "" ==> SubblockOf(pools[n].spec) != d.subblock)
    {
      assert !Blocks(pools, n, d);
    }
  }

  lemma CreatedPool(g: Gke, s: State, s': State, i: nat, ok: bool)
    requires CallStep(g, s, s', i, ok) && s.phase.stage.Creating? && s'.pools != s.pools
    ensures var d := s.round.plan.creates[i];
            && BuildDesired(g, d).Success? && d.name !in s.pools && d.name in s'.pools
            && SubblockOf(s'.pools[d.name].spec) == d.subblock && CarriesOwnHash(g, s'.pools[d.name].spec)
            && s'.pools == s.pools[d.name := ClusterPool(BuildDesired(g, d).value, s'.pools[d.name].status)]
  {
    var d := s.round.plan.creates[i];
    BuiltPoolListsAsAsked(g, d.name, d.subblock, d.config, "");
  }

  lemma CreateKeepsSafe(g: Gke, s: State, s': State, i: nat, ok: bool)
    requires Safe(s) && CallStep(g, s, s', i, ok) && s.phase.stage.Creating?
    ensures Safe(s')
  {
    hide BuildDesired, SubblockOf, Exclusive;
    if s'.pools != s.pools {
      var d := s.round.plan.creates[i];
      assert d in s.round.plan.creates;
      CreatedPool(g, s, s', i, ok);
      AddingKeepsExclusive(g, s.pools, d, s'.pools[d.name].status);
      forall n, e | Blocks(s'.pools, n, e) && e in s.round.plan.creates ensures n in Outstanding(s.round.plan, s'.phase) {
        if n != d.name {
          assert Blocks(s.pools, n, e);
        }
      }
    }
  }

  lemma StepKeepsSafe(g: Gke, run: seq<State>, k: nat)
    requires k + 1 < |run| && Step(g, run[k], run[k + 1]) && Safe(run[k])
    requires HarmlessStarts(g, run) && DeletionsClear(g, run)
    ensures Safe(run[k + 1])
  {
    var s, s' := run[k], run[k + 1];
    if EnvironmentStep(s, s') {
      ShrinkingKeepsSafe(s, s'.pools);
    } else if StartStep(g, s, s') {
      StartKeepsSafe(g, s, s');
    } else if i, ok :| CallStep(g, s, s', i, ok) {
      if s.phase.stage.Creating? {
        CreateKeepsSafe(g, s, s', i, ok);
      } else {
        DeleteKeepsSafe(g, s, s', i, ok);
      }
    } else if FinishStep(s, s') && s'.phase.Running? {
      OutstandingAfterFinish(s.round.plan, s.phase);
    }
  }

  /** The invariant: pools are exclusive, and only pools still to be deleted are in the way of a creation. */
  lemma {:induction false} RunsStaySafe(g: Gke, run: seq<State>, k: nat)
    requires IsRun(g, run) && Exclusive(run[0].pools) && k < |run|
    requires HarmlessStarts(g, run) && DeletionsClear(g, run)
    ensures Safe(run[k])
  {
    if k > 0 {
      RunsStaySafe(g, run, k - 1);
      assert Step(g, run[k - 1], run[k - 1 + 1]);
      StepKeepsSafe(g, run, k - 1);
    }
  }

  /* ---- Hashes stay in place ---- */

  lemma StepKeepsHashes(g: Gke, s: State, s': State)
    requires SelfHashed(g, s.pools) && Step(g, s, s')
    ensures SelfHashed(g, s'.pools)
  {
    hide BuildDesired, CarriesOwnHash, DiffOf, PlanOf, IsListing;
    if i, ok :| CallStep(g, s, s', i, ok) {
      if s.phase.stage.Creating? && s'.pools != s.pools {
        CreatedPool(g, s, s', i, ok);
      }
    }
  }

  /** In every run, static pools that carry their own hashes go on doing so, whatever the configurations. */
  lemma {:induction false} RunsKeepHashes(g: Gke, run: seq<State>, k: nat)
    requires IsRun(g, run) && SelfHashed(g, run[0].pools) && k < |run|
    ensures SelfHashed(g, run[k].pools)
  {
    if k > 0 {
      RunsKeepHashes(g, run, k - 1);
      assert Step(g, run[k - 1], run[k - 1 + 1]);
      StepKeepsHashes(g, run[k - 1], run[k]);
    }
  }

  lemma CleanStartIsHarmless(g: Gke, pools: Pools, round: Round)
    requires SelfHashed(g, pools) && WellKeyed(pools) && IsListing(round.listing, pools) && Planned(g, round)
    requires OneNamePerSubblock(round.desired) && NoCollision(g, pools, round.desired)
    ensures HarmlessStart(g, pools, round)
  {
    DiffSucceedsIffAllBuild(g, round.listing, round.desired);
    SelfHashedPoolsDoNotSquat(g, pools, round.desired, round.inUse);
    hide DiffOf, PlanOf, NoSquatters, SelfHashed, NoCollision;
    CreatesAreDesired(g, pools, round);
  }

  lemma CreatesAreDesired(g: Gke, pools: Pools, round: Round)
    requires WellKeyed(pools) && IsListing(round.listing, pools) && Planned(g, round)
    ensures forall d :: d in round.plan.creates ==> d in round.desired
    ensures OneNamePerSubblock(round.desired) ==> OneNamePerSubblock(round.plan.creates)
  {
    hide DiffOf, PlanOf;
    forall d | d in round.plan.creates ensures d in round.desired {
      CreatesReadPools(g, pools, round.listing, round.desired, round.inUse, d);
    }
  }

  lemma CleanStartsAreHarmless(g: Gke, run: seq<State>)
    requires IsRun(g, run) && SelfHashed(g, run[0].pools) && CleanStarts(g, run)
    ensures HarmlessStarts(g, run)
  {
    hide SelfHashed, NoCollision, NoSquatters;
    forall k | 0 <= k < |run| - 1 && StartStep(g, run[k], run[k + 1])
      ensures HarmlessStart(g, run[k].pools, run[k + 1].round)
    {
      RunsKeepHashes(g, run, k);
      RunsAreWellKeyed(g, run, k);
      CleanStartIsHarmless(g, run[k].pools, run[k + 1].round);
    }
  }

  /* ---- Rounds that move nothing need no word ---- */

  /** No planned deletion makes room for a planned creation of another name. */
  ghost predicate MovesNothing(pools: Pools, plan: Plan) {
    forall n :: Deletes(plan, n) ==> Clears(pools, plan, n)
  }

  ghost predicate NothingMoves(g: Gke, run: seq<State>) {
    forall k :: 0 <= k < |run| - 1 && StartStep(g, run[k], run[k + 1]) ==> MovesNothing(run[k].pools, run[k + 1].round.plan)
  }

  /** Nothing is in the way of a planned creation, deleted or not. */
  ghost predicate AllClear(s: State) {
    s.phase.Running? ==> OneNamePerSubblock(s.round.plan.creates) && forall n :: Clears(s.pools, s.round.plan, n)
  }

  lemma StartIsClear(g: Gke, s: State, s': State)
    requires WellKeyed(s.pools) && StartStep(g, s, s')
    requires HarmlessStart(g, s.pools, s'.round) && MovesNothing(s.pools, s'.round.plan)
    ensures AllClear(s')
  {
    hide DiffOf, PlanOf, NoSquatters;
    forall n, d | d in s'.round.plan.creates ensures Blocks(s.pools, n, d) ==> Deletes(s'.round.plan, n) {
      if Blocks(s.pools, n, d) {
        BlockersAreDeleted(g, s.pools, s'.round, n, d);
      }
    }
  }

  lemma ShrinkingKeepsClear(s: State, pools: Pools)
    requires AllClear(s) && EnvironmentAct(s.pools, pools)
    ensures AllClear(s.(pools := pools))
  {
    hide SubblockOf, LabelsOf;
    forall n, d ensures Blocks(pools, n, d) ==> Blocks(s.pools, n, d) {
    }
    if s.phase.Running? {
      forall n ensures Clears(pools, s.round.plan, n) {
        assert Clears(s.pools, s.round.plan, n);
      }
    }
  }

  lemma CreationKeepsClear(g: Gke, s: State, s': State, i: nat, ok: bool)
    requires AllClear(s) && CallStep(g, s, s', i, ok) && s.phase.stage.Creating? && s'.pools != s.pools
    ensures AllClear(s')
  {
    var d := s.round.plan.creates[i];
    assert d in s.round.plan.creates;
    CreatedPool(g, s, s', i, ok);
    hide BuildDesired, SubblockOf, LabelsOf, CallEffect;
    forall n, e | e in s.round.plan.creates ensures !Blocks(s'.pools, n, e) {
      assert Clears(s.pools, s.round.plan, n);
    }
  }

  lemma CallKeepsClear(g: Gke, s: State, s': State, i: nat, ok: bool)
    requires WellKeyed(s.pools) && AllClear(s) && CallStep(g, s, s', i, ok)
    ensures AllClear(s')
  {
    if s.phase.stage.Creating? && s'.pools != s.pools {
      CreationKeepsClear(g, s, s', i, ok);
    } else if !s.phase.stage.Creating? {
      ShrinkingKeepsClear(s, s'.pools);
    }
  }

  lemma {:induction false} NothingMovesStaysClear(g: Gke, run: seq<State>, k: nat)
    requires IsRun(g, run) && HarmlessStarts(g, run) && NothingMoves(g, run) && k < |run|
    ensures AllClear(run[k])
  {
    if k > 0 {
      NothingMovesStaysClear(g, run, k - 1);
      RunsAreWellKeyed(g, run, k - 1);
      var s, s' := run[k - 1], run[k - 1 + 1];
      assert Step(g, s, s');
      if EnvironmentStep(s, s') {
        ShrinkingKeepsClear(s, s'.pools);
      } else if StartStep(g, s, s') {
        StartIsClear(g, s, s');
      } else if i, ok :| CallStep(g, s, s', i, ok) {
        CallKeepsClear(g, s, s', i, ok);
      }
    }
  }

  /** Where no round moves a sub-block from one name to another, no report of the service matters. */
  lemma NothingMovesClears(g: Gke, run: seq<State>)
    requires IsRun(g, run) && HarmlessStarts(g, run) && NothingMoves(g, run)
    ensures DeletionsClear(g, run)
  {
    hide CallEffect, HarmlessStarts, NothingMoves, IsRun;
    forall k, i: nat | 0 <= k < |run| - 1 && CallStep(g, run[k], run[k + 1], i, true) && !run[k].phase.stage.Creating?
      ensures Clears(run[k + 1].pools, run[k].round.plan, StageNames(run[k].round.plan, run[k].phase.stage)[i])
    {
      NothingMovesStaysClear(g, run, k + 1);
      CallKeepsRound(g, run[k], run[k + 1], i);
    }
  }

  lemma CallKeepsRound(g: Gke, s: State, s': State, i: nat)
    requires CallStep(g, s, s', i, true)
    ensures s'.phase.Running? && s'.round == s.round
  {
  }

  /* ---- The results ---- */

  /**
    Capacity exclusivity over every run and every intermediate state, for any
    changes of configuration, slices and pool status and any failing calls, also
    with pools without a hash or of edited content, as long as none of them
    squats on what a round is to create.
   */
  lemma CapacityIsExclusiveWithoutSquatters(g: Gke, run: seq<State>, k: nat)
    requires IsRun(g, run) && Exclusive(run[0].pools) && k < |run|
    requires HarmlessStarts(g, run) && DeletionsClear(g, run)
    ensures Exclusive(run[k].pools)
  {
    RunsStaySafe(g, run, k);
  }

  /** The same from any start where the static pools carry their own hashes and none of these collides: squatters cannot arise. */
  lemma CapacityIsExclusive(g: Gke, run: seq<State>, k: nat)
    requires IsRun(g, run) && Consistent(g, run[0].pools) && k < |run|
    requires CleanStarts(g, run) && DeletionsClear(g, run)
    ensures Exclusive(run[k].pools) && SelfHashed(g, run[k].pools)
  {
    CleanStartsAreHarmless(g, run);
    RunsKeepHashes(g, run, k);
    CapacityIsExclusiveWithoutSquatters(g, run, k);
  }

  /** The same without any word of the service on deletions, where no round moves a sub-block from one name to another. */
  lemma CapacityIsExclusiveWhereNothingMoves(g: Gke, run: seq<State>, k: nat)
    requires IsRun(g, run) && Exclusive(run[0].pools) && k < |run|
    requires HarmlessStarts(g, run) && NothingMoves(g, run)
    ensures Exclusive(run[k].pools)
  {
    NothingMovesClears(g, run);
    CapacityIsExclusiveWithoutSquatters(g, run, k);
  }
}
