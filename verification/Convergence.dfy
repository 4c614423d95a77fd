/**
  The pools that a round aims at: the planned deletions gone and the planned
  creations added, and that a plan from there has nothing left to do.
 */
module Convergence {
  import opened NodePools
  import opened Diff
  import opened Planning
  import opened Rounds
  import opened Safety

  const RUNNING := "RUNNING"

  /* ---- The pools after a round ---- */

  /** The pools that a list of creations builds, by name. */
  function BuiltPools(g: Gke, creates: seq<Desired>): Pools {
    if creates == [] then map[]
    else
      var d := creates[|creates| - 1];
      match BuildDesired(g, d)
      case Failure(_) => BuiltPools(g, creates[..|creates| - 1])
      case Success(np) => BuiltPools(g, creates[..|creates| - 1])[d.name := ClusterPool(np, RUNNING)]
  }

  function Deletions(plan: Plan): set<string> {
    AsSet(plan.missing) + AsSet(plan.errors) + AsSet(plan.updates)
  }

  /** The pools after a round: the planned deletions gone, the planned creations added. */
  function AfterRound(g: Gke, pools: Pools, plan: Plan): Pools {
    (pools - Deletions(plan)) + BuiltPools(g, plan.creates)
  }

  /**
    The pools after a round in which some deletions, those of `stay`, were reported
    as done and did not happen. A creation that finds a pool of its name does
    nothing.
   */
  function AfterLies(g: Gke, pools: Pools, plan: Plan, stay: set<string>): Pools {
    (pools - (Deletions(plan) - stay)) + (BuiltPools(g, plan.creates) - stay)
  }

  lemma AfterNoLies(g: Gke, pools: Pools, plan: Plan)
    ensures AfterLies(g, pools, plan, {}) == AfterRound(g, pools, plan)
  {
    assert Deletions(plan) - {} == Deletions(plan);
    assert BuiltPools(g, plan.creates) - {} == BuiltPools(g, plan.creates);
  }

  lemma {:induction false} BuiltPoolsExactly(g: Gke, creates: seq<Desired>)
    requires DistinctNames(creates) && AllBuild(g, creates)
    ensures forall d :: d in creates ==>
              (d.name in BuiltPools(g, creates) && BuiltPools(g, creates)[d.name] == ClusterPool(BuildDesired(g, d).value, RUNNING))
    ensures forall n :: n in BuiltPools(g, creates) ==> Names(creates, n)
    decreases |creates|
  {
    if creates != [] {
      var front, last := creates[..|creates| - 1], creates[|creates| - 1];
      assert creates == front + [last];
      BuiltPoolsExactly(g, front);
      forall d | d in front ensures d.name != last.name {
        var i :| 0 <= i < |front| && front[i] == d;
        assert creates[i].name != creates[|creates| - 1].name;
      }
    }
  }

  lemma BuiltPoolOf(g: Gke, creates: seq<Desired>, d: Desired)
    requires DistinctNames(creates) && AllBuild(g, creates) && d in creates
    ensures d.name in BuiltPools(g, creates) && BuildDesired(g, d).Success?
    ensures BuiltPools(g, creates)[d.name] == ClusterPool(BuildDesired(g, d).value, RUNNING)
  {
    BuiltPoolsExactly(g, creates);
  }

  lemma BuiltNames(g: Gke, creates: seq<Desired>)
    requires DistinctNames(creates) && AllBuild(g, creates)
    ensures BuiltPools(g, creates).Keys == AsSet(NamesOf(creates))
  {
    BuiltPoolsExactly(g, creates);
    forall n ensures n in BuiltPools(g, creates) <==> n in NamesOf(creates) {
      NameInList(creates, n);
    }
  }

  /** What a plan for distinct names guarantees its calls. */
  ghost predicate PlanFits(g: Gke, pools: Pools, plan: Plan) {
    && DistinctNames(plan.creates) && AllBuild(g, plan.creates)
    && (forall d :: d in plan.creates && d.name in pools ==> Deletes(plan, d.name))
  }

  lemma {:induction false} SubsequenceKeepsDistinct(xs: seq<Desired>, ys: seq<Desired>)
    requires Subsequence(xs, ys) && DistinctNames(ys)
    ensures DistinctNames(xs) && forall d :: d in xs ==> d in ys
    decreases |ys|
  {
    if xs != [] {
      var front := ys[..|ys| - 1];
      assert ys == front + [ys[|ys| - 1]];
      if Subsequence(xs, front) {
        SubsequenceKeepsDistinct(xs, front);
      } else {
        var xfront := xs[..|xs| - 1];
        SubsequenceKeepsDistinct(xfront, front);
        assert xs == xfront + [xs[|xs| - 1]];
        forall i | 0 <= i < |xfront| ensures xfront[i].name != xs[|xs| - 1].name {
          assert xfront[i] in front;
          var j :| 0 <= j < |front| && front[j] == xfront[i];
          assert ys[j].name != ys[|ys| - 1].name;
        }
      }
    }
  }

  lemma {:induction false} SubsequenceTransitive<T>(xs: seq<T>, ys: seq<T>, zs: seq<T>)
    requires Subsequence(xs, ys) && Subsequence(ys, zs)
    ensures Subsequence(xs, zs)
    decreases |zs|
  {
    if xs != [] && ys != [] {
      var zfront := zs[..|zs| - 1];
      if Subsequence(ys, zfront) {
        SubsequenceTransitive(xs, ys, zfront);
      } else if Subsequence(xs, ys[..|ys| - 1]) {
        SubsequenceTransitive(xs, ys[..|ys| - 1], zfront);
      } else {
        SubsequenceTransitive(xs[..|xs| - 1], ys[..|ys| - 1], zfront);
      }
    }
  }

  lemma {:induction false} AllowedKeepsOrder(creates: seq<Desired>, updates: set<string>, capacity: set<string>)
    ensures Subsequence(Allowed(creates, updates, capacity), creates)
    decreases |creates|
  {
    if creates != [] {
      var front := creates[..|creates| - 1];
      AllowedKeepsOrder(front, updates, capacity);
      var s, d := Allowed(front, updates, capacity), creates[|creates| - 1];
      if d.name in updates || d.subblock in capacity {
        assert Allowed(creates, updates, capacity) == s;
      } else {
        assert Allowed(creates, updates, capacity)[..|s|] == s;
      }
    }
  }

  /** A plan from a faithful listing fits: its creations are distinct, can be built, and have been or will be cleared. */
  lemma PlannedFits(g: Gke, pools: Pools, listing: seq<NodePoolRef>, desired: seq<Desired>, inUse: set<string>)
    requires WellKeyed(pools) && IsListing(listing, pools) && DistinctNames(desired) && DiffOf(g, listing, desired).Success?
    ensures PlanFits(g, pools, PlanOf(g, listing, desired, inUse))
  {
    var diff, refs, plan := DiffOf(g, listing, desired).value, ByName(listing), PlanOf(g, listing, desired, inUse);
    DiffMembers(g, listing, desired);
    DiffSucceedsIffAllBuild(g, listing, desired);
    PlanMembers(diff, refs, inUse);
    ListingByName(listing, pools);
    SelectKeepsOrder(g, refs, desired, NEEDS_CREATION);
    var lockedMissing, lockedUpdates := LockedNames(diff.toDeleteMissing, inUse), LockedNames(diff.toDeleteUpdate, inUse);
    AllowedKeepsOrder(diff.toCreate, lockedUpdates, SubblocksOf(refs, lockedMissing) + SubblocksOf(refs, lockedUpdates));
    SubsequenceTransitive(plan.creates, diff.toCreate, desired);
    SubsequenceKeepsDistinct(plan.creates, desired);
  }

  lemma NameInList(ds: seq<Desired>, n: string)
    ensures Names(ds, n) <==> n in NamesOf(ds)
  {
    if d :| d in ds && d.name == n {
      var i :| 0 <= i < |ds| && ds[i] == d;
      assert NamesOf(ds)[i] == n;
    }
  }

  /* ---- A repetition has nothing left to do ---- */

  /** A round's givens: a faithful listing of well-keyed pools and a configuration of distinct, buildable names. */
  ghost predicate RoundGiven(g: Gke, pools: Pools, listing: seq<NodePoolRef>, desired: seq<Desired>) {
    && WellKeyed(pools) && IsListing(listing, pools) && DistinctNames(desired) && AllBuild(g, desired)
  }

  /** The plan of a round, read off the pools: what each list holds. */
  lemma PlanReadsPools(g: Gke, pools: Pools, listing: seq<NodePoolRef>, desired: seq<Desired>, inUse: set<string>)
    requires RoundGiven(g, pools, listing, desired)
    ensures DiffOf(g, listing, desired).Success? && PlanFits(g, pools, PlanOf(g, listing, desired, inUse))
    ensures var plan := PlanOf(g, listing, desired, inUse);
            && (forall n :: n in plan.missing <==> Static(pools, n) && !Names(desired, n) && n !in inUse)
            && (forall d :: d in desired ==> (d.name in plan.errors <==> VerdictOf(g, RefsOf(pools), d) == Errored))
            && (forall d :: d in desired ==> (d.name in plan.updates <==> VerdictOf(g, RefsOf(pools), d) == Changed && d.name !in inUse))
            && (forall n :: n in plan.errors || n in plan.updates ==> Names(desired, n))
            && (forall d :: d in plan.creates <==> ToCreate(g, pools, desired, inUse, d))
  {
    DiffSucceedsIffAllBuild(g, listing, desired);
    var diff, refs := DiffOf(g, listing, desired).value, ByName(listing);
    DiffMembers(g, listing, desired);
    PlannedFits(g, pools, listing, desired, inUse);
    ListingByName(listing, pools);
    OneEntryPerName(desired);
    PlanMembers(diff, refs, inUse);
    forall n ensures n in diff.toDeleteMissing <==> Static(pools, n) && !Names(desired, n) {
      StraysReadPools(g, pools, listing, desired, n);
    }
    forall d ensures d in PlanOf(g, listing, desired, inUse).creates <==> ToCreate(g, pools, desired, inUse, d) {
      CreatesReadPools(g, pools, listing, desired, inUse, d);
    }
  }

  lemma AfterRoundAt(g: Gke, pools: Pools, plan: Plan, n: string)
    requires PlanFits(g, pools, plan)
    ensures !Names(plan.creates, n) ==>
              && (n in AfterRound(g, pools, plan) <==> n in pools && !Deletes(plan, n))
              && (n in AfterRound(g, pools, plan) ==> AfterRound(g, pools, plan)[n] == pools[n])
  {
    BuiltNames(g, plan.creates);
    NameInList(plan.creates, n);
  }

  lemma AfterRoundBuilt(g: Gke, pools: Pools, plan: Plan, d: Desired)
    requires PlanFits(g, pools, plan) && d in plan.creates
    ensures d.name in AfterRound(g, pools, plan) && BuildDesired(g, d).Success?
    ensures AfterRound(g, pools, plan)[d.name] == ClusterPool(BuildDesired(g, d).value, RUNNING)
  {
    BuiltPoolOf(g, plan.creates, d);
  }

  /** A name that no creation has taken over stands, if it was not deleted or its deletion did not happen. */
  lemma AfterLiesAt(g: Gke, pools: Pools, plan: Plan, stay: set<string>, n: string)
    requires PlanFits(g, pools, plan)
    ensures !Names(plan.creates, n) || n in stay ==>
              && (n in AfterLies(g, pools, plan, stay) <==> n in pools && (n in stay || !Deletes(plan, n)))
              && (n in AfterLies(g, pools, plan, stay) ==> AfterLies(g, pools, plan, stay)[n] == pools[n])
  {
    BuiltNames(g, plan.creates);
    NameInList(plan.creates, n);
  }

  lemma AfterLiesBuilt(g: Gke, pools: Pools, plan: Plan, stay: set<string>, d: Desired)
    requires PlanFits(g, pools, plan) && d in plan.creates && d.name !in stay
    ensures d.name in AfterLies(g, pools, plan, stay) && BuildDesired(g, d).Success?
    ensures AfterLies(g, pools, plan, stay)[d.name] == ClusterPool(BuildDesired(g, d).value, RUNNING)
  {
    BuiltPoolOf(g, plan.creates, d);
  }

  lemma CreatedPoolIsKept(g: Gke, pools: Pools, plan: Plan, d: Desired)
    requires PlanFits(g, pools, plan) && d in plan.creates
    ensures VerdictOf(g, RefsOf(AfterRound(g, pools, plan)), d) == Kept
    ensures AfterRound(g, pools, plan)[d.name].spec.name == d.name
  {
    BuiltPoolOf(g, plan.creates, d);
    BuiltPoolListsAsAsked(g, d.name, d.subblock, d.config, RUNNING);
  }

  lemma AfterRoundWellKeyed(g: Gke, pools: Pools, plan: Plan)
    requires WellKeyed(pools) && PlanFits(g, pools, plan)
    ensures WellKeyed(AfterRound(g, pools, plan))
  {
    forall n | n in AfterRound(g, pools, plan) ensures AfterRound(g, pools, plan)[n].spec.name == n {
      AfterRoundAt(g, pools, plan, n);
      if d :| d in plan.creates && d.name == n {
        CreatedPoolIsKept(g, pools, plan, d);
      }
    }
  }

  /** After a round a desired entry is kept, or absent with its capacity held, or changed and in use. */
  lemma DesiredAfterRound(g: Gke, pools: Pools, listing: seq<NodePoolRef>, desired: seq<Desired>, inUse: set<string>, d: Desired)
    requires RoundGiven(g, pools, listing, desired) && DiffOf(g, listing, desired).Success? && d in desired
    ensures var plan := PlanOf(g, listing, desired, inUse);
            var verdict' := VerdictOf(g, RefsOf(AfterRound(g, pools, plan)), d);
            || verdict' == Kept
            || (verdict' == Absent && Held(g, pools, desired, inUse, d.subblock))
            || (verdict' == Changed && d.name in inUse)
    ensures var plan := PlanOf(g, listing, desired, inUse);
            VerdictOf(g, RefsOf(pools), d) == Changed && d.name in inUse ==>
              VerdictOf(g, RefsOf(AfterRound(g, pools, plan)), d) == Changed
              && d.name in AfterRound(g, pools, plan) && AfterRound(g, pools, plan)[d.name] == pools[d.name]
  {
    var plan := PlanOf(g, listing, desired, inUse);
    PlanReadsPools(g, pools, listing, desired, inUse);
    OneEntryPerName(desired);
    if d in plan.creates {
      CreatedPoolIsKept(g, pools, plan, d);
    } else {
      AfterRoundAt(g, pools, plan, d.name);
      assert !Names(plan.creates, d.name);
    }
  }

  lemma LockedPoolStays(g: Gke, pools: Pools, listing: seq<NodePoolRef>, desired: seq<Desired>, inUse: set<string>, n: string)
    requires RoundGiven(g, pools, listing, desired) && DiffOf(g, listing, desired).Success?
    requires LockedPool(g, pools, desired, inUse, n)
    ensures var after := AfterRound(g, pools, PlanOf(g, listing, desired, inUse));
            LockedPool(g, after, desired, inUse, n) && after[n] == pools[n]
  {
    var plan := PlanOf(g, listing, desired, inUse);
    if Names(desired, n) {
      var d :| d in desired && d.name == n && VerdictOf(g, RefsOf(pools), d) == Changed;
      DesiredAfterRound(g, pools, listing, desired, inUse, d);
    } else {
      PlanReadsPools(g, pools, listing, desired, inUse);
      AfterRoundAt(g, pools, plan, n);
    }
  }

  /** The pools that a round leaves give a plan without any call, for the same configuration and the same pools in use. */
  lemma PlanAfterRoundIsEmpty(g: Gke, pools: Pools, listing: seq<NodePoolRef>, desired: seq<Desired>, inUse: set<string>,
                              listing': seq<NodePoolRef>)
    requires RoundGiven(g, pools, listing, desired) && DiffOf(g, listing, desired).Success?
    requires IsListing(listing', AfterRound(g, pools, PlanOf(g, listing, desired, inUse)))
    ensures DiffOf(g, listing', desired).Success? && PlanOf(g, listing', desired, inUse) == Plan([], [], [], [])
  {
    var plan := PlanOf(g, listing, desired, inUse);
    var after := AfterRound(g, pools, plan);
    PlanReadsPools(g, pools, listing, desired, inUse);
    AfterRoundWellKeyed(g, pools, plan);
    PlanReadsPools(g, after, listing', desired, inUse);
    var plan' := PlanOf(g, listing', desired, inUse);
    forall n | n in plan'.missing ensures false {
      AfterRoundAt(g, pools, plan, n);
    }
    forall d | d in desired ensures d.name !in plan'.errors && d.name !in plan'.updates && d !in plan'.creates {
      DesiredAfterRound(g, pools, listing, desired, inUse, d);
      if n :| LockedPool(g, pools, desired, inUse, n) && SubblockOf(pools[n].spec) == d.subblock {
        LockedPoolStays(g, pools, listing, desired, inUse, n);
      }
    }
    EmptyPlan(plan');
  }

  lemma NoMembers<T>(xs: seq<T>)
    ensures xs == [] || xs[0] in xs
  {
  }

  lemma EmptyPlan(plan: Plan)
    requires forall n :: n !in plan.missing && n !in plan.errors && n !in plan.updates
    requires forall d :: d !in plan.creates
    ensures plan == Plan([], [], [], [])
  {
    NoMembers(plan.missing);
    NoMembers(plan.errors);
    NoMembers(plan.updates);
    NoMembers(plan.creates);
  }
}
