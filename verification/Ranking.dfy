/**
  A ranking function for the reconcile loop: how many successful calls the pools
  are away from the configuration.
 */
module Ranking {
  import opened Common
  import opened NodePools
  import opened Diff
  import opened Planning
  import opened Rounds
  import opened Safety
  import opened Convergence
  import opened Undisturbed

  /** One call to create an absent pool, two to replace a broken or changed one. */
  function Cost(g: Gke, pools: Pools, d: Desired): nat {
    match VerdictOf(g, RefsOf(pools), d)
    case Absent => 1
    case Errored => 2
    case Changed => 2
    case Kept => 0
  }

  function TotalCost(g: Gke, pools: Pools, desired: seq<Desired>): nat {
    if desired == [] then 0
    else TotalCost(g, pools, desired[..|desired| - 1]) + Cost(g, pools, desired[|desired| - 1])
  }

  /** The static pools that are not desired. */
  ghost function StrayPools(pools: Pools, desired: seq<Desired>): set<string> {
    set n | n in pools && Static(pools, n) && !Names(desired, n)
  }

  ghost function Rank(g: Gke, pools: Pools, desired: seq<Desired>): nat {
    TotalCost(g, pools, desired) + |StrayPools(pools, desired)|
  }

  /* ---- Zero rank ---- */

  ghost predicate AllKept(g: Gke, pools: Pools, desired: seq<Desired>) {
    forall d :: d in desired ==> VerdictOf(g, RefsOf(pools), d) == Kept
  }

  lemma CostZeroMeansKept(g: Gke, pools: Pools, d: Desired)
    ensures Cost(g, pools, d) == 0 <==> VerdictOf(g, RefsOf(pools), d) == Kept
  {
  }

  lemma {:induction false} ZeroCostMeansAllKept(g: Gke, pools: Pools, desired: seq<Desired>)
    ensures TotalCost(g, pools, desired) == 0 <==> AllKept(g, pools, desired)
    decreases |desired|
  {
    if desired != [] {
      var front, last := desired[..|desired| - 1], desired[|desired| - 1];
      ZeroCostMeansAllKept(g, pools, front);
      CostZeroMeansKept(g, pools, last);
      SplitLast(desired);
      assert AllKept(g, pools, desired) <==> AllKept(g, pools, front) && VerdictOf(g, RefsOf(pools), last) == Kept;
    }
  }

  lemma SplitLast(desired: seq<Desired>)
    requires desired != []
    ensures forall d :: d in desired <==> d in desired[..|desired| - 1] || d == desired[|desired| - 1]
  {
    assert desired == desired[..|desired| - 1] + [desired[|desired| - 1]];
  }

  /** The rank is zero exactly when the four lists of differences are empty. */
  lemma RankZeroIffNoDifference(g: Gke, pools: Pools, listing: seq<NodePoolRef>, desired: seq<Desired>)
    requires RoundGiven(g, pools, listing, desired)
    ensures Rank(g, pools, desired) == 0 <==> DiffOf(g, listing, desired) == Success(Differences([], [], [], []))
  {
    DiffSucceedsIffAllBuild(g, listing, desired);
    var diff := DiffOf(g, listing, desired).value;
    DiffMembers(g, listing, desired);
    ListingByName(listing, pools);
    ZeroCostMeansAllKept(g, pools, desired);
    forall n ensures n in diff.toDeleteMissing <==> n in StrayPools(pools, desired) {
      if n in StrayPools(pools, desired) {
        assert RefOf(pools[n]) in listing;
      }
    }
    NoMembers(diff.toCreate);
    NoMembers(diff.toDeleteMissing);
    NoMembers(diff.toDeleteUpdate);
    NoMembers(diff.toDeleteError);
    if diff == Differences([], [], [], []) {
      assert StrayPools(pools, desired) == {};
    }
  }

  /* ---- One call, one rank ---- */

  lemma SameCost(g: Gke, before: Pools, after: Pools, name: string, d: Desired)
    requires SameElsewhere(before, after, name) && d.name != name
    ensures Cost(g, after, d) == Cost(g, before, d)
  {
    assert VerdictOf(g, RefsOf(after), d) == VerdictOf(g, RefsOf(before), d);
  }

  lemma {:induction false} CostElsewhere(g: Gke, before: Pools, after: Pools, desired: seq<Desired>, name: string)
    requires SameElsewhere(before, after, name)
    requires forall d :: d in desired ==> d.name != name
    ensures TotalCost(g, after, desired) == TotalCost(g, before, desired)
    decreases |desired|
  {
    if desired != [] {
      SplitLast(desired);
      CostElsewhere(g, before, after, desired[..|desired| - 1], name);
      SameCost(g, before, after, name, desired[|desired| - 1]);
    }
  }

  lemma LastNameIsDistinct(desired: seq<Desired>)
    requires DistinctNames(desired) && desired != []
    ensures DistinctNames(desired[..|desired| - 1])
    ensures forall e :: e in desired[..|desired| - 1] ==> e.name != desired[|desired| - 1].name
  {
  }

  /** A change to one pool changes the total by the change in the cost of its entry. */
  lemma {:induction false} CostAtOneName(g: Gke, before: Pools, after: Pools, desired: seq<Desired>, d: Desired)
    requires SameElsewhere(before, after, d.name)
    requires DistinctNames(desired) && d in desired
    ensures TotalCost(g, after, desired) - TotalCost(g, before, desired) == Cost(g, after, d) - Cost(g, before, d)
    decreases |desired|
  {
    var front, last := desired[..|desired| - 1], desired[|desired| - 1];
    SplitLast(desired);
    LastNameIsDistinct(desired);
    if last == d {
      CostElsewhere(g, before, after, front, d.name);
    } else {
      CostAtOneName(g, before, after, front, d);
      SameCost(g, before, after, d.name, last);
    }
  }

  lemma DeletingStrayDropsRank(g: Gke, pools: Pools, desired: seq<Desired>, n: string)
    requires n in StrayPools(pools, desired)
    ensures Rank(g, pools - {n}, desired) == Rank(g, pools, desired) - 1
  {
    CostElsewhere(g, pools, pools - {n}, desired, n);
    assert StrayPools(pools - {n}, desired) == StrayPools(pools, desired) - {n};
  }

  lemma DeletingBrokenDropsRank(g: Gke, pools: Pools, desired: seq<Desired>, d: Desired)
    requires DistinctNames(desired) && d in desired && VerdictOf(g, RefsOf(pools), d) in {Errored, Changed}
    ensures Rank(g, pools - {d.name}, desired) == Rank(g, pools, desired) - 1
  {
    CostAtOneName(g, pools, pools - {d.name}, desired, d);
    assert StrayPools(pools - {d.name}, desired) == StrayPools(pools, desired);
  }

  lemma CreatingAbsentDropsRank(g: Gke, pools: Pools, desired: seq<Desired>, d: Desired, status: string)
    requires DistinctNames(desired) && d in desired && d.name !in pools && BuildDesired(g, d).Success? && status != "ERROR"
    ensures Rank(g, pools[d.name := ClusterPool(BuildDesired(g, d).value, status)], desired) == Rank(g, pools, desired) - 1
  {
    hide Build, TotalCost, HashDataOf;
    var after := pools[d.name := ClusterPool(BuildDesired(g, d).value, status)];
    BuiltPoolListsAsAsked(g, d.name, d.subblock, d.config, status);
    CostAtOneName(g, pools, after, desired, d);
    assert StrayPools(after, desired) == StrayPools(pools, desired);
  }

  /* ---- What a failed call can do ---- */

  lemma FailedStrayDeletionNeverRaisesRank(g: Gke, pools: Pools, desired: seq<Desired>, n: string, after: Pools)
    requires n in StrayPools(pools, desired) && DeleteEffect(pools, n, after)
    ensures Rank(g, after, desired) <= Rank(g, pools, desired)
  {
    if after == pools - {n} {
      DeletingStrayDropsRank(g, pools, desired, n);
    } else {
      CostElsewhere(g, pools, after, desired, n);
      assert StrayPools(after, desired) == StrayPools(pools, desired);
    }
  }

  lemma FailedBrokenDeletionNeverRaisesRank(g: Gke, pools: Pools, desired: seq<Desired>, d: Desired, after: Pools)
    requires DistinctNames(desired) && d in desired && VerdictOf(g, RefsOf(pools), d) in {Errored, Changed}
    requires DeleteEffect(pools, d.name, after)
    ensures Rank(g, after, desired) <= Rank(g, pools, desired)
  {
    hide TotalCost;
    CostAtOneName(g, pools, after, desired, d);
    assert StrayPools(after, desired) == StrayPools(pools, desired);
  }

  lemma FailedCreationRaisesRankByOneAtMost(g: Gke, pools: Pools, desired: seq<Desired>, d: Desired, after: Pools)
    requires DistinctNames(desired) && d in desired && d.name !in pools
    requires SameElsewhere(pools, after, d.name)
    ensures Rank(g, after, desired) <= Rank(g, pools, desired) + 1
  {
    hide TotalCost;
    CostAtOneName(g, pools, after, desired, d);
    assert StrayPools(after, desired) == StrayPools(pools, desired);
  }

  /* ---- The rank over a round in which calls may fail ---- */

  /** A planned deletion still to come finds its pool as the plan saw it. */
  lemma DeletionFindsItsPool(g: Gke, start: Pools, listing: seq<NodePoolRef>, s: State, i: nat) returns (d: Option<Desired>)
    requires RoundGiven(g, start, listing, s.round.desired) && DiffOf(g, listing, s.round.desired).Success?
    requires s.round.plan == PlanOf(g, listing, s.round.desired, s.round.inUse) && Calm(g, start, {}, s)
    requires s.phase.Running? && !s.phase.stage.Creating? && i in s.phase.pending && i < |StageNames(s.round.plan, s.phase.stage)|
    ensures var name := StageNames(s.round.plan, s.phase.stage)[i];
            if d.None? then name in StrayPools(s.pools, s.round.desired)
            else d.value in s.round.desired && d.value.name == name && VerdictOf(g, RefsOf(s.pools), d.value) in {Errored, Changed}
  {
    hide DiffOf, PlanOf, PlanFits, RoundGiven;
    var plan, desired := s.round.plan, s.round.desired;
    var name := StageNames(plan, s.phase.stage)[i];
    assert name in StageNames(plan, s.phase.stage);
    PlanReadsPools(g, start, listing, desired, s.round.inUse);
    UpcomingAfterCall(plan, s.phase, i);
    assert !DeleteLogged(s.log, name) && !CreateLogged(s.log, name);
    if name in plan.missing {
      d := None;
    } else {
      var entry :| entry in desired && entry.name == name;
      d := Some(entry);
    }
  }

  lemma IntendedDeletionDropsRank(g: Gke, start: Pools, listing: seq<NodePoolRef>, s: State, s': State, i: nat)
    requires RoundGiven(g, start, listing, s.round.desired) && DiffOf(g, listing, s.round.desired).Success?
    requires s.round.plan == PlanOf(g, listing, s.round.desired, s.round.inUse) && Calm(g, start, {}, s)
    requires !s.phase.Idle? && !s.phase.stage.Creating? && CallStep(g, s, s', i, true) && IntendedCall(g, {}, s, s', i)
    ensures Rank(g, s'.pools, s.round.desired) == Rank(g, s.pools, s.round.desired) - 1
  {
    assert DistinctNames(s.round.desired);
    hide Rank, DiffOf, PlanOf, Calm, RoundGiven;
    var d := DeletionFindsItsPool(g, start, listing, s, i);
    if d.None? {
      DeletingStrayDropsRank(g, s.pools, s.round.desired, StageNames(s.round.plan, s.phase.stage)[i]);
    } else {
      DeletingBrokenDropsRank(g, s.pools, s.round.desired, d.value);
    }
  }

  lemma FailedDeletionNeverRaisesRank(g: Gke, start: Pools, listing: seq<NodePoolRef>, s: State, s': State, i: nat)
    requires RoundGiven(g, start, listing, s.round.desired) && DiffOf(g, listing, s.round.desired).Success?
    requires s.round.plan == PlanOf(g, listing, s.round.desired, s.round.inUse) && Calm(g, start, {}, s)
    requires !s.phase.Idle? && !s.phase.stage.Creating? && CallStep(g, s, s', i, false)
    ensures Rank(g, s'.pools, s.round.desired) <= Rank(g, s.pools, s.round.desired)
  {
    assert DistinctNames(s.round.desired);
    hide Rank, DiffOf, PlanOf, Calm, RoundGiven, DeleteEffect;
    var d := DeletionFindsItsPool(g, start, listing, s, i);
    if d.None? {
      FailedStrayDeletionNeverRaisesRank(g, s.pools, s.round.desired, StageNames(s.round.plan, s.phase.stage)[i], s'.pools);
    } else {
      FailedBrokenDeletionNeverRaisesRank(g, s.pools, s.round.desired, d.value, s'.pools);
    }
  }

  /** What a call does to the rank, by its kind and outcome. */
  ghost predicate RankFollows(before: nat, after: nat, creating: bool, ok: bool) {
    if ok then after == before - 1 else if creating then after <= before + 1 else after <= before
  }

  /**
    Every successful call of a round that nobody disturbs, deletion or creation,
    lowers the rank by exactly one, whatever other calls fail. A failed deletion
    never raises it, a failed creation by one at most, as it may leave a pool in
    ERROR.
   */
  lemma EveryCallMovesRank(g: Gke, run: seq<State>, k: nat, i: nat, ok: bool)
    requires CalmRound(g, {}, run) && 1 <= k < |run| - 1 && CalmCall(g, {}, run[k], run[k + 1], i, ok)
    ensures RankFollows(Rank(g, run[k].pools, run[1].round.desired), Rank(g, run[k + 1].pools, run[1].round.desired),
                        run[k].phase.stage.Creating?, ok)
  {
    hide Rank, DiffOf, PlanOf, Calm, BuildDesired, RoundGiven;
    var round, s, s' := run[1].round, run[k], run[k + 1];
    CalmRoundStaysCalm(g, {}, run, k);
    if s.phase.stage.Creating? {
      var d := round.plan.creates[i];
      assert d in round.plan.creates;
      PlanReadsPools(g, run[0].pools, round.listing, round.desired, round.inUse);
      CreationFindsItsName(g, run[0].pools, {}, s, i);
      if ok {
        IntendedCreation(g, {}, s, s', i);
        CreatingAbsentDropsRank(g, s.pools, round.desired, d, s'.pools[d.name].status);
      } else {
        CallTouchesOneName(g, s, s', i, ok);
        FailedCreationRaisesRankByOneAtMost(g, s.pools, round.desired, d, s'.pools);
      }
    } else if ok {
      IntendedDeletionDropsRank(g, run[0].pools, round.listing, s, s', i);
    } else {
      FailedDeletionNeverRaisesRank(g, run[0].pools, round.listing, s, s', i);
    }
  }

  function CountOf(log: seq<Event>, created: bool, ok: bool): nat {
    if log == [] then 0
    else
      var e := log[|log| - 1];
      CountOf(log[..|log| - 1], created, ok) + if e.Created? == created && e.ok == ok then 1 else 0
  }

  lemma CountAfter(log: seq<Event>, e: Event, created: bool, ok: bool)
    ensures CountOf(log + [e], created, ok) == CountOf(log, created, ok) + if e.Created? == created && e.ok == ok then 1 else 0
  {
    assert (log + [e])[..|log + [e]| - 1] == log;
  }

  /**
    However many calls of a round fail, the rank it leaves is at most the rank at
    its start, less the successful calls, plus the failed creations.
   */
  lemma {:induction false} RankIsPaidBySuccesses(g: Gke, run: seq<State>, k: nat)
    requires CalmRound(g, {}, run) && 1 <= k < |run|
    ensures var log := run[k].log;
            Rank(g, run[k].pools, run[1].round.desired) + CountOf(log, false, true) + CountOf(log, true, true)
              <= Rank(g, run[0].pools, run[1].round.desired) + CountOf(log, true, false)
  {
    hide Rank, CountOf, StartStep, CallEffect, IntendedCall;
    if k == 1 {
      FreshLogAndPools(g, run[0], run[1]);
    } else {
      RankIsPaidBySuccesses(g, run, k - 1);
      var s, s' := run[k - 1], run[k - 1 + 1];
      assert CalmStep(g, {}, s, s');
      if i, ok :| CalmCall(g, {}, s, s', i, ok) {
        EveryCallMovesRank(g, run, k - 1, i, ok);
        var e := CallEvent(s.round.plan, s.phase.stage, i, ok);
        CountAfter(s.log, e, false, true);
        CountAfter(s.log, e, true, true);
        CountAfter(s.log, e, true, false);
      }
    }
  }

  lemma FreshLogAndPools(g: Gke, s: State, s': State)
    requires StartStep(g, s, s')
    ensures s'.pools == s.pools && s'.log == [] && forall created, ok :: CountOf(s'.log, created, ok) == 0
  {
  }

  /** Without locks, the pools after an undisturbed round have rank zero. */
  lemma UnlockedRoundReachesZero(g: Gke, pools: Pools, listing: seq<NodePoolRef>, desired: seq<Desired>)
    requires RoundGiven(g, pools, listing, desired) && DiffOf(g, listing, desired).Success?
    ensures Rank(g, AfterRound(g, pools, PlanOf(g, listing, desired, {})), desired) == 0
  {
    var plan := PlanOf(g, listing, desired, {});
    var after := AfterRound(g, pools, plan);
    PlanReadsPools(g, pools, listing, desired, {});
    forall d | d in desired ensures VerdictOf(g, RefsOf(after), d) == Kept {
      DesiredAfterRound(g, pools, listing, desired, {}, d);
    }
    assert AllKept(g, after, desired);
    ZeroCostMeansAllKept(g, after, desired);
    forall n ensures n !in StrayPools(after, desired) {
      AfterRoundAt(g, pools, plan, n);
    }
    assert StrayPools(after, desired) == {};
  }

  lemma AlikeRank(g: Gke, p: Pools, q: Pools, desired: seq<Desired>)
    requires Alike(p, q)
    ensures Rank(g, p, desired) == Rank(g, q, desired)
  {
    AlikePoolsListAlike(p, q, []);
    SameRefsSameCost(g, p, q, desired);
    assert StrayPools(p, desired) == StrayPools(q, desired);
  }

  lemma {:induction false} SameRefsSameCost(g: Gke, p: Pools, q: Pools, desired: seq<Desired>)
    requires RefsOf(p) == RefsOf(q)
    ensures TotalCost(g, p, desired) == TotalCost(g, q, desired)
    decreases |desired|
  {
    if desired != [] {
      SameRefsSameCost(g, p, q, desired[..|desired| - 1]);
    }
  }

  /** As long as no call of an undisturbed round has failed, calls made and rank left add up to the rank at its start. */
  lemma {:induction false} CallsPlusRankIsConserved(g: Gke, run: seq<State>, k: nat)
    requires CalmRound(g, {}, run) && 1 <= k < |run| && forall e :: e in run[k].log ==> e.ok
    ensures |run[k].log| + Rank(g, run[k].pools, run[1].round.desired) == Rank(g, run[0].pools, run[1].round.desired)
  {
    hide Rank, StartStep, CallEffect, IntendedCall;
    if k == 1 {
      FreshLogAndPools(g, run[0], run[1]);
    } else {
      var s, s' := run[k - 1], run[k - 1 + 1];
      assert CalmStep(g, {}, s, s');
      if i, ok :| CalmCall(g, {}, s, s', i, ok) {
        assert s'.log[|s.log|] in s'.log && s'.log[..|s.log|] == s.log;
        CallsPlusRankIsConserved(g, run, k - 1);
        EveryCallMovesRank(g, run, k - 1, i, ok);
      } else {
        CallsPlusRankIsConserved(g, run, k - 1);
      }
    }
  }

  /**
    Convergence: from any well-keyed pools, including those left by partial
    failures, one undisturbed round that succeeds without locks reaches rank zero,
    with exactly as many service calls as the rank was at its start.
   */
  lemma OneRoundConverges(g: Gke, run: seq<State>)
    requires CalmRound(g, {}, run) && Succeeded(run) && run[1].round.inUse == {}
    ensures Rank(g, run[|run| - 1].pools, run[1].round.desired) == 0
    ensures |run[|run| - 1].log| == Rank(g, run[0].pools, run[1].round.desired)
  {
    var round := run[1].round;
    CalmRoundStaysCalm(g, {}, run, |run| - 1);
    CalmRoundStaysCalm(g, {}, run, 1);
    RoundOutcome(g, run);
    AlikeRank(g, run[|run| - 1].pools, AfterRound(g, run[0].pools, round.plan), round.desired);
    assert forall e :: e in run[|run| - 1].log ==> e.ok;
    hide DiffOf, PlanOf, AfterRound, Rank, Calm, Alike, RoundGiven;
    UnlockedRoundReachesZero(g, run[0].pools, round.listing, round.desired);
    CallsPlusRankIsConserved(g, run, |run| - 1);
  }

  /* ---- Consecutive rounds ---- */

  /** Undisturbed rounds of one configuration, each started where the one before ended. */
  ghost predicate Consecutive(g: Gke, rounds: seq<seq<State>>, desired: seq<Desired>) {
    && (forall j :: 0 <= j < |rounds| ==> CalmRound(g, {}, rounds[j]) && rounds[j][1].round.desired == desired)
    && (forall j :: 0 <= j < |rounds| - 1 ==> Follows(rounds[j], rounds[j + 1]))
  }

  predicate Follows(before: seq<State>, after: seq<State>) {
    before != [] && after != [] && before[|before| - 1] == after[0]
  }

  /** The calls of one kind and outcome over all rounds. */
  function CountOver(rounds: seq<seq<State>>, created: bool, ok: bool): nat {
    if rounds == [] then 0
    else
      var last := rounds[|rounds| - 1];
      CountOver(rounds[..|rounds| - 1], created, ok) + if last == [] then 0 else CountOf(last[|last| - 1].log, created, ok)
  }

  /**
    Over any number of undisturbed rounds of one configuration, with any failures,
    the successful calls are paid for by the rank at the start and by failed
    creations: the controller never does more than that.
   */
  lemma {:induction false} RoundsPayForThemselves(g: Gke, rounds: seq<seq<State>>, desired: seq<Desired>)
    requires Consecutive(g, rounds, desired) && rounds != []
    ensures var last := rounds[|rounds| - 1];
            Rank(g, last[|last| - 1].pools, desired) + CountOver(rounds, false, true) + CountOver(rounds, true, true)
              <= Rank(g, rounds[0][0].pools, desired) + CountOver(rounds, true, false)
    decreases |rounds|
  {
    hide Rank, CountOf, CalmStep, StartStep;
    var front, last := rounds[..|rounds| - 1], rounds[|rounds| - 1];
    RankIsPaidBySuccesses(g, last, |last| - 1);
    if front != [] {
      assert forall j :: 0 <= j < |front| ==> front[j] == rounds[j];
      RoundsPayForThemselves(g, front, desired);
      assert Follows(rounds[|rounds| - 2], rounds[|rounds| - 2 + 1]);
    }
  }
}
