/**
  Rounds that nobody disturbs: only the round's own calls touch the pools, in any
  order. Calls may fail, and deletions may be reported as done that did not
  happen. Where such a round leads, and that a repetition does nothing.
 */
module Undisturbed {
  import opened Common
  import opened NodePools
  import opened Diff
  import opened Planning
  import opened Rounds
  import opened RepeatedNames
  import opened Safety
  import opened Outcomes
  import opened Convergence

  /* ---- Undisturbed rounds ---- */

  /**
    A call reported as successful: a deletion has removed the pool, or, for the
    names of `lies`, left it in whatever status; a creation finds its pool there
    or adds it, in any status but ERROR.
   */
  ghost predicate IntendedCall(g: Gke, lies: set<string>, s: State, s': State, i: nat) {
    && CallStep(g, s, s', i, true)
    && var name := StageNames(s.round.plan, s.phase.stage)[i];
       if s.phase.stage.Creating? then name in s'.pools && (name !in s.pools ==> s'.pools[name].status != "ERROR")
       else if name in lies then name in s.pools ==> name in s'.pools
       else s'.pools == s.pools - {name}
  }

  /** A call of an undisturbed round: as intended, or failed with any effect that a call may have. */
  ghost predicate CalmCall(g: Gke, lies: set<string>, s: State, s': State, i: nat, ok: bool) {
    CallStep(g, s, s', i, ok) && (ok ==> IntendedCall(g, lies, s, s', i))
  }

  ghost predicate CalmStep(g: Gke, lies: set<string>, s: State, s': State) {
    (exists i, ok :: CalmCall(g, lies, s, s', i, ok)) || FinishStep(s, s')
  }

  /** An undisturbed round from its start, for distinct names. */
  ghost predicate CalmRound(g: Gke, lies: set<string>, run: seq<State>) {
    && |run| >= 2
    && WellKeyed(run[0].pools) && StartStep(g, run[0], run[1])
    && DistinctNames(run[1].round.desired)
    && forall k :: 1 <= k < |run| - 1 ==> CalmStep(g, lies, run[k], run[k + 1])
  }

  /** The round has ended, and without an error. */
  ghost predicate Succeeded(run: seq<State>) {
    run != [] && run[|run| - 1].phase == Idle(false)
  }

  /** Two states of the pools that differ at most at one name. */
  ghost predicate SameElsewhere(before: Pools, after: Pools, name: string) {
    forall n :: n != name ==> (n in before <==> n in after) && (n in before ==> before[n] == after[n])
  }

  /* ---- What an undisturbed round keeps ---- */

  ghost predicate DeleteLogged(log: seq<Event>, n: string) {
    exists e :: e in log && e.Deleted? && e.name == n
  }

  ghost predicate CreateLogged(log: seq<Event>, n: string) {
    exists e :: e in log && e.Created? && e.name == n
  }

  /** A pool stands as in another state of the pools, but for its status. */
  ghost predicate StandsAs(start: Pools, pools: Pools, n: string) {
    (n in pools <==> n in start) && (n in start ==> pools[n].spec == start[n].spec)
  }

  /** A name without a call stands as at the start; one reported deleted, and not created since, is gone, or stands if it is of the lies. */
  ghost predicate PoolsFollowLog(start: Pools, lies: set<string>, s: State) {
    forall n :: !CreateLogged(s.log, n) ==> PoolFollowsLog(start, lies, s, n)
  }

  ghost predicate PoolFollowsLog(start: Pools, lies: set<string>, s: State, n: string) {
    && (!DeleteLogged(s.log, n) ==> (n in s.pools <==> n in start) && (n in start ==> s.pools[n] == start[n]))
    && (Deleted(n, true) in s.log ==> if n in lies then StandsAs(start, s.pools, n) else n !in s.pools)
  }

  /** A deletion of the pool was reported and did not happen, so a creation of its name has nothing to do. */
  predicate Lied(start: Pools, lies: set<string>, n: string) {
    n in lies && n in start
  }

  ghost predicate CreatedStands(g: Gke, start: Pools, lies: set<string>, pools: Pools, d: Desired) {
    if Lied(start, lies, d.name) then StandsAs(start, pools, d.name)
    else d.name in pools && BuildDesired(g, d) == Success(pools[d.name].spec) && pools[d.name].status != "ERROR"
  }

  ghost predicate AllCreatedStand(g: Gke, start: Pools, lies: set<string>, s: State) {
    forall d :: d in s.round.plan.creates && Created(d.name, true) in s.log ==> CreatedStands(g, start, lies, s.pools, d)
  }

  /** The names still to be passed to a deletion in this round. */
  function Upcoming(plan: Plan, phase: Phase): set<string>
    requires phase.Running?
  {
    Outstanding(plan, phase.(failed := {}))
  }

  /** No item of the round that is still to be called has been called before. */
  ghost predicate NotYetCalled(s: State) {
    s.phase.Running? ==>
      && (forall n :: n in Upcoming(s.round.plan, s.phase) ==> !DeleteLogged(s.log, n))
      && (if s.phase.stage.Creating? then
            forall i: nat :: i in s.phase.pending && i < |s.round.plan.creates| ==> !CreateLogged(s.log, s.round.plan.creates[i].name)
          else forall n :: !CreateLogged(s.log, n))
  }

  ghost predicate Calm(g: Gke, start: Pools, lies: set<string>, s: State) {
    && PlanFits(g, start, s.round.plan) && ListsApart(s.round.plan)
    && LogFollowsPlan(s) && Accounted(s)
    && PoolsFollowLog(start, lies, s) && AllCreatedStand(g, start, lies, s) && NotYetCalled(s)
  }

  lemma LoggedAfter(log: seq<Event>, e: Event, n: string)
    ensures DeleteLogged(log + [e], n) <==> DeleteLogged(log, n) || (e.Deleted? && e.name == n)
    ensures CreateLogged(log + [e], n) <==> CreateLogged(log, n) || (e.Created? && e.name == n)
  {
    assert forall f :: f in log + [e] <==> f in log || f == e;
  }

  lemma ListedOnce(names: seq<string>, i: nat, j: nat)
    requires NoRepeats(names) && i < |names| && j < |names| && names[i] == names[j]
    ensures i == j
  {
    var n := names[i];
    assert !Repeats(names, n);
    assert !Twice(names, i, j, n) && !Twice(names, j, i, n);
  }

  lemma UpcomingAfterCall(plan: Plan, phase: Phase, i: nat)
    requires ListsApart(plan) && phase.Running? && !phase.stage.Creating?
    requires i in phase.pending && i < |StageNames(plan, phase.stage)|
    ensures var name := StageNames(plan, phase.stage)[i];
            name in Upcoming(plan, phase)
            && forall failed :: var next := Running(phase.stage, phase.pending - {i}, failed);
                 Upcoming(plan, next) <= Upcoming(plan, phase) && name !in Upcoming(plan, next)
  {
    var names := StageNames(plan, phase.stage);
    assert names[i] in names;
    forall j: nat | j < |names| && names[j] == names[i] ensures j == i {
      ListedOnce(names, i, j);
    }
    assert names[i] !in At(names, phase.pending - {i} + {});
  }

  lemma CallTouchesOneName(g: Gke, s: State, s': State, i: nat, ok: bool)
    requires CallStep(g, s, s', i, ok)
    ensures SameElsewhere(s.pools, s'.pools, StageNames(s.round.plan, s.phase.stage)[i])
  {
  }

  lemma CallKeepsPoolFollowing(g: Gke, start: Pools, lies: set<string>, s: State, s': State, i: nat, ok: bool, n: string)
    requires PoolsFollowLog(start, lies, s) && CalmCall(g, lies, s, s', i, ok)
    requires !s.phase.stage.Creating? ==> !DeleteLogged(s.log, StageNames(s.round.plan, s.phase.stage)[i])
    requires !CreateLogged(s'.log, n)
    ensures PoolFollowsLog(start, lies, s', n)
  {
    var e := CallEvent(s.round.plan, s.phase.stage, i, ok);
    CallTouchesOneName(g, s, s', i, ok);
    LoggedAfter(s.log, e, n);
    assert Deleted(n, true) in s'.log <==> Deleted(n, true) in s.log || e == Deleted(n, true);
    assert Deleted(n, true) in s.log ==> DeleteLogged(s.log, n);
    assert PoolFollowsLog(start, lies, s, n);
    hide PoolsFollowLog;
  }

  lemma CallKeepsNotYetCalled(g: Gke, s: State, s': State, i: nat, ok: bool)
    requires NotYetCalled(s) && CallStep(g, s, s', i, ok) && ListsApart(s.round.plan) && DistinctNames(s.round.plan.creates)
    ensures NotYetCalled(s')
  {
    hide CallEffect;
    var plan, e := s.round.plan, CallEvent(s.round.plan, s.phase.stage, i, ok);
    if s.phase.stage.Creating? {
      forall j: nat | j in s'.phase.pending && j < |plan.creates| ensures !CreateLogged(s'.log, plan.creates[j].name) {
        LoggedAfter(s.log, e, plan.creates[j].name);
      }
    } else {
      UpcomingAfterCall(plan, s.phase, i);
      forall n | n in Upcoming(plan, s'.phase) ensures !DeleteLogged(s'.log, n) {
        LoggedAfter(s.log, e, n);
      }
      forall n ensures !CreateLogged(s'.log, n) {
        LoggedAfter(s.log, e, n);
      }
    }
  }

  /** A planned creation still to come finds its name free, unless a deletion of the name did not happen; then it finds the old pool. */
  lemma CreationFindsItsName(g: Gke, start: Pools, lies: set<string>, s: State, i: nat)
    requires Calm(g, start, lies, s) && s.phase.Running? && s.phase.stage.Creating?
    requires i in s.phase.pending && i < |s.round.plan.creates|
    ensures var name := s.round.plan.creates[i].name;
            if Lied(start, lies, name) then name in s.pools && s.pools[name].spec == start[name].spec else name !in s.pools
  {
    var d := s.round.plan.creates[i];
    assert d in s.round.plan.creates && !CreateLogged(s.log, d.name);
    assert PoolFollowsLog(start, lies, s, d.name);
    hide AllCreatedStand, Accounted, PoolsFollowLog, NotYetCalled, ListsApart;
    if Deletes(s.round.plan, d.name) {
      assert Deleted(d.name, true) in s.log;
    } else {
      assert !DeleteLogged(s.log, d.name);
    }
  }

  lemma IntendedCreation(g: Gke, lies: set<string>, s: State, s': State, i: nat)
    requires CalmCall(g, lies, s, s', i, true) && s.phase.stage.Creating?
    ensures var d := s.round.plan.creates[i];
            if d.name in s.pools then s'.pools == s.pools
            else
              && BuildDesired(g, d).Success? && d.name in s'.pools && s'.pools[d.name].status != "ERROR"
              && s'.pools == s.pools[d.name := ClusterPool(BuildDesired(g, d).value, s'.pools[d.name].status)]
  {
    var d := s.round.plan.creates[i];
    assert BuildDesired(g, d).Success? ==> BuildDesired(g, d).value.name == d.name;
  }

  /** The pool of a creation that has returned stands. */
  lemma CreationStands(g: Gke, start: Pools, lies: set<string>, s: State, s': State, i: nat)
    requires Calm(g, start, lies, s) && CalmCall(g, lies, s, s', i, true) && s.phase.stage.Creating?
    ensures CreatedStands(g, start, lies, s'.pools, s.round.plan.creates[i])
  {
    CreationFindsItsName(g, start, lies, s, i);
    hide Calm, BuildDesired;
    IntendedCreation(g, lies, s, s', i);
  }

  lemma CallKeepsCreated(g: Gke, start: Pools, lies: set<string>, s: State, s': State, i: nat, ok: bool)
    requires Calm(g, start, lies, s) && CalmCall(g, lies, s, s', i, ok)
    ensures AllCreatedStand(g, start, lies, s')
  {
    var plan, e := s.round.plan, CallEvent(s.round.plan, s.phase.stage, i, ok);
    CallTouchesOneName(g, s, s', i, ok);
    if s.phase.stage.Creating? {
      assert !CreateLogged(s.log, plan.creates[i].name) && plan.creates[i] in plan.creates;
      OneEntryPerName(plan.creates);
      if ok {
        CreationStands(g, start, lies, s, s', i);
      }
    }
    hide BuildDesired, CallEffect, IntendedCall, PoolsFollowLog, LogFollowsPlan, Accounted, Upcoming;
    forall d | d in plan.creates && Created(d.name, true) in s'.log ensures CreatedStands(g, start, lies, s'.pools, d) {
      assert e == Created(d.name, true) || Created(d.name, true) in s.log;
      assert Created(d.name, true) in s.log ==> CreateLogged(s.log, d.name) && CreatedStands(g, start, lies, s.pools, d);
    }
  }

  lemma CallKeepsCalm(g: Gke, start: Pools, lies: set<string>, s: State, s': State, i: nat, ok: bool)
    requires Calm(g, start, lies, s) && CalmCall(g, lies, s, s', i, ok)
    ensures Calm(g, start, lies, s')
  {
    hide CallEffect, IntendedCall, AllCreatedStand, Accounted, PoolFollowsLog;
    CallKeepsLog(g, s, s', i, ok);
    CallKeepsAccounted(g, s, s', i, ok);
    CallKeepsCreated(g, start, lies, s, s', i, ok);
    if !s.phase.stage.Creating? {
      UpcomingAfterCall(s.round.plan, s.phase, i);
    }
    forall n | !CreateLogged(s'.log, n) ensures PoolFollowsLog(start, lies, s', n) {
      CallKeepsPoolFollowing(g, start, lies, s, s', i, ok, n);
    }
    CallKeepsNotYetCalled(g, s, s', i, ok);
  }

  lemma FinishKeepsNotYetCalled(s: State, s': State)
    requires NotYetCalled(s) && FinishStep(s, s')
    ensures NotYetCalled(s')
  {
    if s'.phase.Running? {
      OutstandingAfterFinish(s.round.plan, s.phase);
    }
  }

  lemma FinishKeepsCalm(g: Gke, start: Pools, lies: set<string>, s: State, s': State)
    requires Calm(g, start, lies, s) && FinishStep(s, s')
    ensures Calm(g, start, lies, s')
  {
    FinishKeepsAccounted(g, s, s');
    FinishKeepsNotYetCalled(s, s');
    FinishKeepsLogAndPools(g, start, lies, s, s');
    hide Accounted, NotYetCalled, PlanFits, ListsApart, PoolsFollowLog, AllCreatedStand, LogFollowsPlan;
  }

  lemma FinishKeepsLogAndPools(g: Gke, start: Pools, lies: set<string>, s: State, s': State)
    requires FinishStep(s, s') && LogFollowsPlan(s) && PoolsFollowLog(start, lies, s) && AllCreatedStand(g, start, lies, s)
    ensures LogFollowsPlan(s') && PoolsFollowLog(start, lies, s') && AllCreatedStand(g, start, lies, s')
  {
    if s'.phase.Running? {
      OutstandingAfterFinish(s.round.plan, s.phase);
    }
    hide CreatedStands, CreateLogged, DeleteLogged, StandsAs;
  }

  lemma StartIsCalm(g: Gke, lies: set<string>, s: State, s': State)
    requires WellKeyed(s.pools) && StartStep(g, s, s') && DistinctNames(s'.round.desired)
    ensures Calm(g, s.pools, lies, s') && RoundGiven(g, s.pools, s'.round.listing, s'.round.desired)
  {
    var round := s'.round;
    DiffSucceedsIffAllBuild(g, round.listing, round.desired);
    hide DiffOf, PlanOf, BuildDesired;
    PlannedFits(g, s.pools, round.listing, round.desired, round.inUse);
    PlannedListsApart(g, round.listing, round.desired, round.inUse);
    OutstandingAtStart(round.plan);
  }

  lemma {:induction false} CalmRoundStaysCalm(g: Gke, lies: set<string>, run: seq<State>, k: nat)
    requires CalmRound(g, lies, run) && 1 <= k < |run|
    ensures Calm(g, run[0].pools, lies, run[k]) && run[k].round == run[1].round
    ensures RoundGiven(g, run[0].pools, run[1].round.listing, run[1].round.desired)
  {
    hide Calm, RoundGiven, StartStep;
    StartIsCalm(g, lies, run[0], run[1]);
    if k > 1 {
      CalmRoundStaysCalm(g, lies, run, k - 1);
      var s, s' := run[k - 1], run[k - 1 + 1];
      assert CalmStep(g, lies, s, s');
      if i, ok :| CalmCall(g, lies, s, s', i, ok) {
        CallKeepsCalm(g, run[0].pools, lies, s, s', i, ok);
      } else {
        FinishKeepsCalm(g, run[0].pools, lies, s, s');
      }
    }
  }

  /* ---- Where it leads ---- */

  /** The planned deletions that were reported as done and did not happen. */
  function Stayed(pools: Pools, plan: Plan, lies: set<string>): set<string> {
    set n | n in lies && n in pools && Deletes(plan, n)
  }

  /** Two states of the pools that differ in statuses only. */
  ghost predicate SameSpecs(p: Pools, q: Pools) {
    forall n :: StandsAs(q, p, n)
  }

  /** Two states of the pools that differ in statuses other than ERROR only. */
  ghost predicate Alike(p: Pools, q: Pools) {
    forall n :: AlikeAt(p, q, n)
  }

  ghost predicate AlikeAt(p: Pools, q: Pools, n: string) {
    StandsAs(q, p, n) && (n in p && n in q ==> (p[n].status == "ERROR" <==> q[n].status == "ERROR"))
  }

  /** What stands under a name once a round has succeeded. */
  lemma FinalPool(g: Gke, start: Pools, lies: set<string>, s: State, n: string)
    requires Calm(g, start, lies, s) && s.phase == Idle(false)
    ensures if Names(s.round.plan.creates, n) then
              exists d :: d in s.round.plan.creates && d.name == n && CreatedStands(g, start, lies, s.pools, d)
            else if !Deletes(s.round.plan, n) then (n in s.pools <==> n in start) && (n in start ==> s.pools[n] == start[n])
            else if n in lies then StandsAs(start, s.pools, n)
            else n !in s.pools
  {
    var plan := s.round.plan;
    assert AllDone(plan, s.log);
    if d :| d in plan.creates && d.name == n {
      assert CreatedStands(g, start, lies, s.pools, d);
    } else {
      assert !CreateLogged(s.log, n);
      assert !Deletes(plan, n) ==> !DeleteLogged(s.log, n);
      assert PoolFollowsLog(start, lies, s, n);
    }
  }

  lemma FinalStandsAsAfterLies(g: Gke, start: Pools, lies: set<string>, s: State, n: string)
    requires Calm(g, start, lies, s) && s.phase == Idle(false)
    ensures StandsAs(AfterLies(g, start, s.round.plan, Stayed(start, s.round.plan, lies)), s.pools, n)
  {
    FinalPool(g, start, lies, s, n);
    var plan, stay := s.round.plan, Stayed(start, s.round.plan, lies);
    assert PlanFits(g, start, plan);
    if Names(plan.creates, n) {
      var d :| d in plan.creates && d.name == n && CreatedStands(g, start, lies, s.pools, d);
      hide Calm, PlanFits, AfterLies, BuildDesired, StandsAs;
      CreatedStandsAfterLies(g, start, lies, plan, s.pools, d);
    } else {
      hide Calm, PlanFits, AfterLies, BuildDesired, Names;
      AfterLiesAt(g, start, plan, stay, n);
    }
  }

  lemma FinalIsAfterLies(g: Gke, start: Pools, lies: set<string>, s: State)
    requires Calm(g, start, lies, s) && s.phase == Idle(false)
    ensures SameSpecs(s.pools, AfterLies(g, start, s.round.plan, Stayed(start, s.round.plan, lies)))
  {
    hide Calm, StandsAs, AfterLies, Stayed;
    forall n ensures StandsAs(AfterLies(g, start, s.round.plan, Stayed(start, s.round.plan, lies)), s.pools, n) {
      FinalStandsAsAfterLies(g, start, lies, s, n);
    }
  }

  lemma CreatedStandsAfterLies(g: Gke, start: Pools, lies: set<string>, plan: Plan, pools: Pools, d: Desired)
    requires PlanFits(g, start, plan) && d in plan.creates && CreatedStands(g, start, lies, pools, d)
    ensures StandsAs(AfterLies(g, start, plan, Stayed(start, plan, lies)), pools, d.name)
  {
    var stay := Stayed(start, plan, lies);
    CreationsFollowDeletions(g, start, plan, d);
    hide PlanFits, AfterLies, BuildDesired;
    if d.name in stay {
      AfterLiesAt(g, start, plan, stay, d.name);
    } else {
      AfterLiesBuilt(g, start, plan, stay, d);
    }
  }

  lemma CreationsFollowDeletions(g: Gke, start: Pools, plan: Plan, d: Desired)
    requires PlanFits(g, start, plan) && d in plan.creates
    ensures d.name in start ==> Deletes(plan, d.name)
  {
  }

  /**
    Every undisturbed round that succeeds, whatever the order of its calls, ends
    with the same pools, but for statuses; so also when some deletions did not
    happen.
   */
  lemma FalseReportsOutcome(g: Gke, lies: set<string>, run: seq<State>)
    requires CalmRound(g, lies, run) && Succeeded(run)
    ensures var plan := run[1].round.plan;
            SameSpecs(run[|run| - 1].pools, AfterLies(g, run[0].pools, plan, Stayed(run[0].pools, plan, lies)))
  {
    CalmRoundStaysCalm(g, lies, run, |run| - 1);
    hide Calm, CalmRound, SameSpecs, AfterLies, Stayed;
    FinalIsAfterLies(g, run[0].pools, lies, run[|run| - 1]);
  }

  lemma FinalStatus(g: Gke, start: Pools, s: State, n: string)
    requires Calm(g, start, {}, s) && s.phase == Idle(false) && n in s.pools && n in AfterRound(g, start, s.round.plan)
    ensures s.pools[n].status == "ERROR" <==> AfterRound(g, start, s.round.plan)[n].status == "ERROR"
  {
    FinalPool(g, start, {}, s, n);
    var plan := s.round.plan;
    assert PlanFits(g, start, plan);
    hide Calm, PlanFits, AfterRound, BuildDesired;
    AfterRoundAt(g, start, plan, n);
    if d :| d in plan.creates && d.name == n && CreatedStands(g, start, {}, s.pools, d) {
      AfterRoundBuilt(g, start, plan, d);
    }
  }

  lemma NothingStayed(g: Gke, pools: Pools, plan: Plan)
    ensures AfterLies(g, pools, plan, Stayed(pools, plan, {})) == AfterRound(g, pools, plan)
  {
    assert Stayed(pools, plan, {}) == {};
    AfterNoLies(g, pools, plan);
  }

  lemma FinalIsAlike(g: Gke, start: Pools, s: State, n: string)
    requires Calm(g, start, {}, s) && s.phase == Idle(false)
    ensures AlikeAt(s.pools, AfterRound(g, start, s.round.plan), n)
  {
    FinalStandsAsAfterLies(g, start, {}, s, n);
    NothingStayed(g, start, s.round.plan);
    hide Calm, AfterRound, AfterLies, Stayed;
    if n in s.pools {
      FinalStatus(g, start, s, n);
    }
  }

  /** Every undisturbed round that succeeds, with deletions that hold, ends with the pools it aims at, whatever the order of its calls. */
  lemma RoundOutcome(g: Gke, run: seq<State>)
    requires CalmRound(g, {}, run) && Succeeded(run)
    ensures Alike(run[|run| - 1].pools, AfterRound(g, run[0].pools, run[1].round.plan))
  {
    CalmRoundStaysCalm(g, {}, run, |run| - 1);
    hide Calm, CalmRound, AfterRound, AlikeAt;
    var pools, after := run[|run| - 1].pools, AfterRound(g, run[0].pools, run[1].round.plan);
    forall n ensures AlikeAt(pools, after, n) {
      FinalIsAlike(g, run[0].pools, run[|run| - 1], n);
    }
  }

  lemma AlikePoolsListAlike(p: Pools, q: Pools, listing: seq<NodePoolRef>)
    requires Alike(p, q)
    ensures RefsOf(p) == RefsOf(q) && (IsListing(listing, p) ==> IsListing(listing, q))
    ensures forall n :: (n in p <==> n in q) && (Static(p, n) <==> Static(q, n))
  {
    forall n ensures (n in p <==> n in q) && (n in p ==> p[n].spec == q[n].spec && RefOf(p[n]) == RefOf(q[n])) {
      assert AlikeAt(p, q, n);
    }
    hide RefOf, Alike;
  }

  /**
    Idempotence under locks: after an undisturbed round that succeeded, whatever
    the order of its calls and the statuses of the new pools, any round started
    with the same configuration and the same pools in use has no call to make,
    also when the first skipped updates and deletions, or deleted a pool whose
    sub-block was then found held.
   */
  lemma SecondRoundDoesNothing(g: Gke, run: seq<State>, s': State)
    requires CalmRound(g, {}, run) && Succeeded(run) && StartStep(g, run[|run| - 1], s')
    requires s'.round.desired == run[1].round.desired && s'.round.inUse == run[1].round.inUse
    ensures s'.round.plan == Plan([], [], [], [])
  {
    var round := run[1].round;
    CalmRoundStaysCalm(g, {}, run, 1);
    RoundOutcome(g, run);
    AlikePoolsListAlike(run[|run| - 1].pools, AfterRound(g, run[0].pools, round.plan), s'.round.listing);
    hide DiffOf, PlanOf, AfterRound, IsListing, Alike, Calm, RoundGiven;
    PlanAfterRoundIsEmpty(g, run[0].pools, round.listing, round.desired, round.inUse, s'.round.listing);
  }
}
