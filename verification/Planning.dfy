/**
  The plan of one reconcile round: the differences, less what slices lock.
 */
module Planning {
  import opened Common
  import opened NodePools
  import opened Diff
  import opened Partitions

  datatype Plan = Plan(creates: seq<Desired>, missing: seq<string>, errors: seq<string>, updates: seq<string>)

  datatype PlanError = DiffFailed(error: DiffError) | ListingSlicesFailed | ListingNodesFailed

  /* ---- What the filters keep ---- */

  function Unlocked(names: seq<string>, inUse: set<string>): seq<string> {
    if names == [] then []
    else
      var name := names[|names| - 1];
      Unlocked(names[..|names| - 1], inUse) + if name in inUse then [] else [name]
  }

  function LockedNames(names: seq<string>, inUse: set<string>): set<string> {
    set n | n in names && n in inUse
  }

  function SubblocksOf(refs: Refs, names: set<string>): set<string> {
    set n | n in names && n in refs :: refs[n].subblockName
  }

  function Allowed(creates: seq<Desired>, skippedUpdates: set<string>, skippedCapacity: set<string>): seq<Desired> {
    if creates == [] then []
    else
      var d := creates[|creates| - 1];
      Allowed(creates[..|creates| - 1], skippedUpdates, skippedCapacity)
      + if d.name in skippedUpdates || d.subblock in skippedCapacity then [] else [d]
  }

  function LockFilter(diff: Differences, refs: Refs, inUse: set<string>): Plan {
    var lockedMissing := LockedNames(diff.toDeleteMissing, inUse);
    var lockedUpdates := LockedNames(diff.toDeleteUpdate, inUse);
    Plan(
      Allowed(diff.toCreate, lockedUpdates, SubblocksOf(refs, lockedMissing) + SubblocksOf(refs, lockedUpdates)),
      Unlocked(diff.toDeleteMissing, inUse),
      diff.toDeleteError,
      Unlocked(diff.toDeleteUpdate, inUse))
  }

  function PlanOf(g: Gke, existing: seq<NodePoolRef>, desired: seq<Desired>, inUse: set<string>): Plan
    requires DiffOf(g, existing, desired).Success?
  {
    LockFilter(DiffOf(g, existing, desired).value, ByName(existing), inUse)
  }

  /* ---- The loops of the source ---- */

  /** The closure that drops locked names and records what the dropped pools hold. */
  method FilterLocked(pools: seq<string>, inUse: set<string>, existingMap: Refs, trackSkippedUpdates: bool,
                      updatesSoFar: set<string>, capacitySoFar: set<string>)
    returns (filtered: seq<string>, skippedUpdates: set<string>, skippedCapacity: set<string>)
    ensures filtered == Unlocked(pools, inUse)
    ensures skippedUpdates == updatesSoFar + if trackSkippedUpdates then LockedNames(pools, inUse) else {}
    ensures skippedCapacity == capacitySoFar + SubblocksOf(existingMap, LockedNames(pools, inUse))
  {
    filtered, skippedUpdates, skippedCapacity := [], updatesSoFar, capacitySoFar;
    for i := 0 to |pools|
      invariant filtered == Unlocked(pools[..i], inUse)
      invariant skippedUpdates == updatesSoFar + if trackSkippedUpdates then LockedNames(pools[..i], inUse) else {}
      invariant skippedCapacity == capacitySoFar + SubblocksOf(existingMap, LockedNames(pools[..i], inUse))
    {
      var name := pools[i];
      assert pools[..i + 1][..i] == pools[..i];
      assert LockedNames(pools[..i + 1], inUse) == LockedNames(pools[..i], inUse) + if name in inUse then {name} else {};
      if name in inUse {
        if trackSkippedUpdates {
          skippedUpdates := skippedUpdates + {name};
        }
        if name in existingMap {
          skippedCapacity := skippedCapacity + {existingMap[name].subblockName};
        }
        continue;
      }
      filtered := filtered + [name];
    }
    assert pools[..|pools|] == pools;
  }

  method FilterCreates(toCreate: seq<Desired>, skippedUpdates: set<string>, skippedCapacity: set<string>)
    returns (filteredCreate: seq<Desired>)
    ensures filteredCreate == Allowed(toCreate, skippedUpdates, skippedCapacity)
  {
    filteredCreate := [];
    for i := 0 to |toCreate|
      invariant filteredCreate == Allowed(toCreate[..i], skippedUpdates, skippedCapacity)
    {
      assert toCreate[..i + 1][..i] == toCreate[..i];
      if toCreate[i].name in skippedUpdates {
        continue;
      }
      if toCreate[i].subblock in skippedCapacity {
        continue;
      }
      filteredCreate := filteredCreate + [toCreate[i]];
    }
    assert toCreate[..|toCreate|] == toCreate;
  }

  /** The nodes the controller sees: its cache keeps those of its manager label, its listing those of static pools. */
  function VisibleNodes(nodes: seq<Node>): seq<Node> {
    if nodes == [] then []
    else
      var labels := nodes[|nodes| - 1].labels;
      VisibleNodes(nodes[..|nodes| - 1])
      + if && LABEL_NODEPOOL_MANAGER in labels && labels[LABEL_NODEPOOL_MANAGER] == LABEL_NODEPOOL_MANAGER_TPU_PODINATOR
           && LABEL_STATIC_NODEPOOL in labels && labels[LABEL_STATIC_NODEPOOL] == "true"
        then [nodes[|nodes| - 1]] else []
  }

  /** The outcome of planning; slices and nodes are listed only when something would be deleted, and listing may fail. */
  ghost function RoundPlan(g: Gke, existing: seq<NodePoolRef>, desired: seq<Desired>,
                           slices: Option<seq<Slice>>, nodes: Option<seq<Node>>): Result<Plan, PlanError>
  {
    match DiffOf(g, existing, desired)
    case Failure(e) => Failure(DiffFailed(e))
    case Success(diff) =>
      if diff.toDeleteMissing == [] && diff.toDeleteUpdate == [] then Success(LockFilter(diff, ByName(existing), {}))
      else if slices.None? then Failure(ListingSlicesFailed)
      else if nodes.None? then Failure(ListingNodesFailed)
      else Success(LockFilter(diff, ByName(existing), InUseNames(slices.value, VisibleNodes(nodes.value))))
  }

  method FilterPlan(diff: Differences, existingMap: Refs, inUse: set<string>) returns (plan: Plan)
    ensures plan == LockFilter(diff, existingMap, inUse)
  {
    var skippedUpdates: set<string>, skippedCapacity: set<string> := {}, {};
    var toDeleteMissing, toDeleteUpdate;
    toDeleteMissing, skippedUpdates, skippedCapacity :=
      FilterLocked(diff.toDeleteMissing, inUse, existingMap, false, skippedUpdates, skippedCapacity);
    toDeleteUpdate, skippedUpdates, skippedCapacity :=
      FilterLocked(diff.toDeleteUpdate, inUse, existingMap, true, skippedUpdates, skippedCapacity);
    assert skippedUpdates == LockedNames(diff.toDeleteUpdate, inUse);
    assert skippedCapacity == SubblocksOf(existingMap, LockedNames(diff.toDeleteMissing, inUse))
                            + SubblocksOf(existingMap, LockedNames(diff.toDeleteUpdate, inUse));
    var toCreate := FilterCreates(diff.toCreate, skippedUpdates, skippedCapacity);
    return Plan(toCreate, toDeleteMissing, diff.toDeleteError, toDeleteUpdate);
  }

  method PlanRound(g: Gke, existingNodePools: seq<NodePoolRef>, desiredNodePools: seq<Desired>,
                   slices: Option<seq<Slice>>, nodes: Option<seq<Node>>)
    returns (r: Result<Plan, PlanError>)
    ensures r == RoundPlan(g, existingNodePools, desiredNodePools, slices, nodes)
  {
    var diffed := DiffStaticNodePools(g, existingNodePools, desiredNodePools);
    if diffed.Failure? {
      return Failure(DiffFailed(diffed.error));
    }
    var inUse: set<string> := {};
    if |diffed.value.toDeleteMissing| > 0 || |diffed.value.toDeleteUpdate| > 0 {
      if slices.None? {
        return Failure(ListingSlicesFailed);
      }
      if nodes.None? {
        return Failure(ListingNodesFailed);
      }
      inUse := GetInUseNodepools(slices.value, VisibleNodes(nodes.value));
      assert inUse == InUseNames(slices.value, VisibleNodes(nodes.value));
    }
    var existingMap := IndexByName(existingNodePools);
    var plan := FilterPlan(diffed.value, existingMap, inUse);
    return Success(plan);
  }

  /* ---- When there is a plan ---- */

  /** A static pool that the configuration no longer names. */
  ghost predicate Removed(existing: seq<NodePoolRef>, desired: seq<Desired>, n: string) {
    !Names(desired, n) && exists r :: r in existing && r.name == n && IsStaticRef(r)
  }

  /** A healthy pool whose hash label is no longer that of an entry of its name. */
  ghost predicate Altered(g: Gke, existing: seq<NodePoolRef>, desired: seq<Desired>, n: string) {
    exists d, r :: d in desired && d.name == n && r in existing && ChangedBy(g, r, d)
  }

  /** Something would be deleted that a slice could hold. */
  ghost predicate AnythingToGuard(g: Gke, existing: seq<NodePoolRef>, desired: seq<Desired>) {
    exists n :: Removed(existing, desired, n) || Altered(g, existing, desired, n)
  }

  lemma GuardedLists(g: Gke, existing: seq<NodePoolRef>, desired: seq<Desired>, n: string)
    requires DistinctRefs(existing) && DiffOf(g, existing, desired).Success?
    ensures n in DiffOf(g, existing, desired).value.toDeleteMissing <==> Removed(existing, desired, n)
    ensures n in DiffOf(g, existing, desired).value.toDeleteUpdate <==> Altered(g, existing, desired, n)
  {
    DiffMembers(g, existing, desired);
    hide DiffOf;
    forall d | d in desired
      ensures VerdictOf(g, ByName(existing), d) == Changed <==> exists r :: r in existing && ChangedBy(g, r, d)
    {
      VerdictsByName(g, existing, desired, d);
    }
  }

  lemma GuardedListsAreEmpty(g: Gke, existing: seq<NodePoolRef>, desired: seq<Desired>)
    requires DistinctRefs(existing) && DiffOf(g, existing, desired).Success?
    ensures var diff := DiffOf(g, existing, desired).value;
            diff.toDeleteMissing == [] && diff.toDeleteUpdate == [] <==> !AnythingToGuard(g, existing, desired)
  {
    var diff := DiffOf(g, existing, desired).value;
    hide DiffOf, Removed, Altered;
    forall n
      ensures n in diff.toDeleteMissing <==> Removed(existing, desired, n)
      ensures n in diff.toDeleteUpdate <==> Altered(g, existing, desired, n)
    {
      GuardedLists(g, existing, desired, n);
    }
    if diff.toDeleteMissing != [] {
      assert diff.toDeleteMissing[0] in diff.toDeleteMissing;
    }
    if diff.toDeleteUpdate != [] {
      assert diff.toDeleteUpdate[0] in diff.toDeleteUpdate;
    }
  }

  /**
    Exactly when planning ends how: without a plan if an entry cannot be built, or
    if there is something to guard and slices or, with these listed, nodes are
    not; with one otherwise. So nothing is removed or changed on a guess of what
    is in use.
   */
  lemma PlanningEndsExactly(g: Gke, existing: seq<NodePoolRef>, desired: seq<Desired>,
                            slices: Option<seq<Slice>>, nodes: Option<seq<Node>>)
    requires DistinctRefs(existing)
    ensures var r := RoundPlan(g, existing, desired, slices, nodes);
            && (r.Failure? && r.error.DiffFailed? <==> !AllBuild(g, desired))
            && (!AllBuild(g, desired) ==> r == Failure(DiffFailed(DiffOf(g, existing, desired).error)))
            && (r == Failure(ListingSlicesFailed) <==> AllBuild(g, desired) && AnythingToGuard(g, existing, desired) && slices.None?)
            && (r == Failure(ListingNodesFailed) <==>
                  AllBuild(g, desired) && AnythingToGuard(g, existing, desired) && slices.Some? && nodes.None?)
            && (r.Success? <==> AllBuild(g, desired) && (AnythingToGuard(g, existing, desired) ==> slices.Some? && nodes.Some?))
  {
    DiffSucceedsIffAllBuild(g, existing, desired);
    hide DiffOf, AllBuild, AnythingToGuard, LockFilter;
    if DiffOf(g, existing, desired).Success? {
      GuardedListsAreEmpty(g, existing, desired);
    }
  }

  /* ---- The plan as sets ---- */

  lemma {:induction false} UnlockedMembers(names: seq<string>, inUse: set<string>, n: string)
    ensures n in Unlocked(names, inUse) <==> n in names && n !in inUse
    decreases |names|
  {
    if names != [] {
      UnlockedMembers(names[..|names| - 1], inUse, n);
      assert names == names[..|names| - 1] + [names[|names| - 1]];
    }
  }

  lemma {:induction false} AllowedMembers(creates: seq<Desired>, updates: set<string>, capacity: set<string>, d: Desired)
    ensures d in Allowed(creates, updates, capacity) <==> d in creates && d.name !in updates && d.subblock !in capacity
    decreases |creates|
  {
    if creates != [] {
      AllowedMembers(creates[..|creates| - 1], updates, capacity, d);
      assert creates == creates[..|creates| - 1] + [creates[|creates| - 1]];
    }
  }

  /** A listed pool that the configuration would remove or change, but that a slice holds. */
  ghost predicate Locked(diff: Differences, inUse: set<string>, n: string) {
    n in inUse && (n in diff.toDeleteMissing || n in diff.toDeleteUpdate)
  }

  ghost predicate HeldCapacity(diff: Differences, refs: Refs, inUse: set<string>, subblock: string) {
    exists n :: Locked(diff, inUse, n) && n in refs && refs[n].subblockName == subblock
  }

  lemma PlanMembers(diff: Differences, refs: Refs, inUse: set<string>)
    ensures var plan := LockFilter(diff, refs, inUse);
            && (forall n :: n in plan.missing <==> n in diff.toDeleteMissing && n !in inUse)
            && (forall n :: n in plan.updates <==> n in diff.toDeleteUpdate && n !in inUse)
            && plan.errors == diff.toDeleteError
            && (forall d :: d in plan.creates <==>
                  d in diff.toCreate && !(d.name in inUse && d.name in diff.toDeleteUpdate) && !HeldCapacity(diff, refs, inUse, d.subblock))
  {
    var plan := LockFilter(diff, refs, inUse);
    forall n
      ensures n in plan.missing <==> n in diff.toDeleteMissing && n !in inUse
      ensures n in plan.updates <==> n in diff.toDeleteUpdate && n !in inUse
    {
      UnlockedMembers(diff.toDeleteMissing, inUse, n);
      UnlockedMembers(diff.toDeleteUpdate, inUse, n);
    }
    var lockedMissing, lockedUpdates := LockedNames(diff.toDeleteMissing, inUse), LockedNames(diff.toDeleteUpdate, inUse);
    var capacity := SubblocksOf(refs, lockedMissing) + SubblocksOf(refs, lockedUpdates);
    assert forall s :: s in capacity <==> HeldCapacity(diff, refs, inUse, s);
    forall d
      ensures d in plan.creates <==>
                d in diff.toCreate && !(d.name in inUse && d.name in diff.toDeleteUpdate) && !HeldCapacity(diff, refs, inUse, d.subblock)
    {
      AllowedMembers(diff.toCreate, lockedUpdates, capacity, d);
    }
  }

  predicate Deletes(plan: Plan, n: string) {
    n in plan.missing || n in plan.errors || n in plan.updates
  }

  /**
    The in-use guard holds exactly this far: an in-use pool is on a deletion list
    iff it is desired and listed in ERROR. A healthy listed pool in use is
    neither deleted nor created anew.
   */
  lemma InUseGuardExactly(g: Gke, existing: seq<NodePoolRef>, desired: seq<Desired>, inUse: set<string>, n: string)
    requires DistinctRefs(existing) && DiffOf(g, existing, desired).Success?
    requires n in inUse
    ensures var plan := PlanOf(g, existing, desired, inUse);
            && (Deletes(plan, n) <==> Names(desired, n) && exists r :: r in existing && r.name == n && r.error)
            && ((exists r :: r in existing && r.name == n && !r.error) ==> forall d :: d in plan.creates ==> d.name != n)
  {
    var diff, refs := DiffOf(g, existing, desired).value, ByName(existing);
    DiffMembers(g, existing, desired);
    PlanMembers(diff, refs, inUse);
    ByNameExactly(existing);
    forall d | d in desired && d.name == n && n in refs && refs[n].error
      ensures VerdictOf(g, refs, d) == Errored
    {
    }
  }

  /**
    The guard is not what the documentation promises: a desired pool listed in
    ERROR is torn down whether or not it is in use, and rebuilt unless another
    pool that is locked holds its sub-block.
   */
  lemma InUseErrorPoolIsTornDown(g: Gke, existing: seq<NodePoolRef>, desired: seq<Desired>, inUse: set<string>,
                                 r: NodePoolRef, d: Desired)
    requires DistinctRefs(existing) && DiffOf(g, existing, desired).Success?
    requires r in existing && r.error && d in desired && d.name == r.name
    ensures var plan := PlanOf(g, existing, desired, inUse);
            && d.name in plan.errors
            && (d in plan.creates <==> !HeldCapacity(DiffOf(g, existing, desired).value, ByName(existing), inUse, d.subblock))
  {
    var diff, refs := DiffOf(g, existing, desired).value, ByName(existing);
    DiffMembers(g, existing, desired);
    ByNameExactly(existing);
    PlanMembers(diff, refs, inUse);
    assert PlanOf(g, existing, desired, inUse) == LockFilter(diff, refs, inUse);
    hide DiffOf, LockFilter, ByName, HeldCapacity;
    assert VerdictOf(g, refs, d) == Errored;
  }

  /** More locks never delete or create more. */
  lemma LocksAreMonotone(g: Gke, existing: seq<NodePoolRef>, desired: seq<Desired>, few: set<string>, many: set<string>)
    requires DiffOf(g, existing, desired).Success? && few <= many
    ensures forall n :: Deletes(PlanOf(g, existing, desired, many), n) ==> Deletes(PlanOf(g, existing, desired, few), n)
    ensures forall d :: d in PlanOf(g, existing, desired, many).creates ==> d in PlanOf(g, existing, desired, few).creates
  {
    var diff, refs := DiffOf(g, existing, desired).value, ByName(existing);
    PlanMembers(diff, refs, few);
    PlanMembers(diff, refs, many);
    forall s | HeldCapacity(diff, refs, few, s) ensures HeldCapacity(diff, refs, many, s) {
      var n :| Locked(diff, few, n) && n in refs && refs[n].subblockName == s;
      assert Locked(diff, many, n);
    }
  }

  /** Adding slices, for the same configuration, pools and nodes, only shrinks what a round deletes and creates. */
  lemma SlicesOnlyShrinkThePlan(g: Gke, existing: seq<NodePoolRef>, desired: seq<Desired>,
                                few: seq<Slice>, many: seq<Slice>, nodes: seq<Node>)
    requires forall s :: s in few ==> s in many
    ensures var p := RoundPlan(g, existing, desired, Some(few), Some(nodes));
            var q := RoundPlan(g, existing, desired, Some(many), Some(nodes));
            && (p.Success? <==> q.Success?)
            && (p.Success? ==>
                  && (forall n :: Deletes(q.value, n) ==> Deletes(p.value, n))
                  && (forall d :: d in q.value.creates ==> d in p.value.creates))
  {
    if DiffOf(g, existing, desired).Success? {
      var visible := VisibleNodes(nodes);
      var fewNames, manyNames := InUseNames(few, visible), InUseNames(many, visible);
      forall pool | pool in fewNames ensures pool in manyNames {
        MoreSlicesLockMore(few, many, visible, pool);
      }
      LocksAreMonotone(g, existing, desired, fewNames, manyNames);
      var p, q := RoundPlan(g, existing, desired, Some(few), Some(nodes)), RoundPlan(g, existing, desired, Some(many), Some(nodes));
      assert p == q || (p.value == PlanOf(g, existing, desired, fewNames) && q.value == PlanOf(g, existing, desired, manyNames));
    }
  }
}
