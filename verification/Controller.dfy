/**
  The reconciler as an object: its reconcile method and the provider's methods it
  calls, against the transition system of rounds.

  What the service, the environment and the scheduler do is an arbitrary script:
  a turn for every call says what happens before it, how it ends, and what it
  leaves behind. The ghost trace records every state passed through.
 */
module Controller {
  import opened Common
  import opened Partitions
  import opened NodePools
  import opened Diff
  import opened Planning
  import opened Rounds
  import opened Safety
  import opened Outcomes
  import opened Config
  import opened Expansion
  import opened Construction

  /* ---- The script ---- */

  /** What may happen to the pools from outside. */
  datatype EnvAct = Remove(name: string) | SetStatus(name: string, status: string) | PutForeign(pool: ClusterPool)

  /** What a service call leaves behind: nothing, its intended effect, or a pool in some status. */
  datatype Effect = NoEffect | Applied | LeftIn(status: string)

  datatype Turn = Turn(acts: seq<EnvAct>, getOk: bool, ok: bool, onDelete: Effect, onCreate: Effect)

  function AfterAct(pools: Pools, act: EnvAct): (after: Pools)
    requires WellKeyed(pools)
    ensures EnvironmentAct(pools, after)
  {
    match act
    case Remove(name) => pools - {name}
    case SetStatus(name, status) => if name in pools then pools[name := pools[name].(status := status)] else pools
    case PutForeign(pool) => if IsStatic(pool.spec) then pools else pools[pool.spec.name := pool]
  }

  function AfterDelete(pools: Pools, name: string, effect: Effect): (after: Pools)
    ensures DeleteEffect(pools, name, after) && (effect.Applied? ==> name !in after)
  {
    match effect
    case NoEffect => pools
    case Applied => pools - {name}
    case LeftIn(status) => if name in pools then pools[name := pools[name].(status := status)] else pools
  }

  function AfterCreate(pools: Pools, np: NodePool, effect: Effect): (after: Pools)
    requires np.name !in pools
    ensures CreateEffect(pools, np, after) && (effect.NoEffect? <==> np.name !in after)
  {
    match effect
    case NoEffect => pools
    case Applied => pools[np.name := ClusterPool(np, "RUNNING")]
    case LeftIn(status) => pools[np.name := ClusterPool(np, status)]
  }

  /* ---- What a reconcile is given and how it ends ---- */

  /** Fetching and parsing the config map. */
  datatype Fetch =
    | GetFailed
    | NotFound
    | Unparsable
    | Parsed(reservations: seq<Reservation>, defaultConfig: StaticNodePoolConfig?)

  datatype Reason = GetConfig | Construct(construct: ExpandError) | ListPools | Planning(plan: PlanError) | Deleting | Ensuring

  datatype Outcome = Finished | Failed(reason: Reason) | NeverReturns

  /** What a fetched configuration leads to: an answer without any action, or pools that should exist. */
  datatype Request = Answer(outcome: Outcome) | Desire(desired: seq<Desired>)

  ghost function Asked(fetch: Fetch, def: Option<ConfigValue>, values: seq<Entry>, project: string): Request {
    match fetch
    case GetFailed => Answer(Failed(GetConfig))
    case NotFound => Answer(Finished)
    case Unparsable => Answer(Finished)
    case Parsed(reservations, defaultConfig) =>
      if !AnyConfig(reservations, defaultConfig) then Answer(Finished)
      else match Expand(project, def, values)
        case Failure(error) => Answer(if error.NeverEnds? then NeverReturns else Failed(Construct(error)))
        case Success(desired) => Desire(desired)
  }

  /** The pools a round sees in use, when it can list slices and nodes. */
  ghost function SeenInUse(slices: Option<seq<Slice>>, nodes: Option<seq<Node>>): set<string> {
    if slices.Some? && nodes.Some? then InUseNames(slices.value, VisibleNodes(nodes.value)) else {}
  }

  /** Skipping the listing of slices and nodes, when there is nothing they could lock, makes no difference. */
  lemma PlanIsForSeenInUse(g: Gke, existing: seq<NodePoolRef>, desired: seq<Desired>, slices: Option<seq<Slice>>, nodes: Option<seq<Node>>)
    requires RoundPlan(g, existing, desired, slices, nodes).Success?
    ensures DiffOf(g, existing, desired).Success?
    ensures RoundPlan(g, existing, desired, slices, nodes).value == PlanOf(g, existing, desired, SeenInUse(slices, nodes))
  {
    var diff, refs, inUse := DiffOf(g, existing, desired).value, ByName(existing), SeenInUse(slices, nodes);
    if diff.toDeleteMissing == [] && diff.toDeleteUpdate == [] {
      assert LockedNames([], inUse) == LockedNames([], {}) == {};
      assert SubblocksOf(refs, {}) + SubblocksOf(refs, {}) == {};
    }
  }

  ghost predicate AnyConfig(reservations: seq<Reservation>, defaultConfig: StaticNodePoolConfig?) {
    defaultConfig != null || exists r, s :: r in reservations && s in r.gscSubblocks && s.nodepoolConfig != null
  }

  method HasAnyConfig(reservations: seq<Reservation>, defaultConfig: StaticNodePoolConfig?) returns (hasAnyConfig: bool)
    ensures hasAnyConfig <==> AnyConfig(reservations, defaultConfig)
  {
    if defaultConfig != null {
      return true;
    }
    for i := 0 to |reservations|
      invariant forall r, s :: r in reservations[..i] && s in r.gscSubblocks ==> s.nodepoolConfig == null
    {
      var subblocks := reservations[i].gscSubblocks;
      for j := 0 to |subblocks|
        invariant forall s :: s in subblocks[..j] ==> s.nodepoolConfig == null
      {
        if subblocks[j].nodepoolConfig != null {
          assert reservations[i] in reservations && subblocks[j] in reservations[i].gscSubblocks;
          return true;
        }
      }
    }
    return false;
  }

  /** A pool for each of the service's answer, in any order. */
  method Respond(pools: Pools) returns (response: seq<ClusterPool>)
    ensures forall i, j :: 0 <= i < j < |response| && WellKeyed(pools) ==> response[i].spec.name != response[j].spec.name
    ensures forall p :: p in response <==> exists n :: n in pools && pools[n] == p
  {
    response := [];
    var names := pools.Keys;
    while names != {}
      invariant names <= pools.Keys
      invariant forall p :: p in response <==> exists n :: n in pools && n !in names && pools[n] == p
      invariant forall i, j :: 0 <= i < j < |response| && WellKeyed(pools) ==> response[i].spec.name != response[j].spec.name
      decreases names
    {
      var n :| n in names;
      ghost var before := response;
      assert WellKeyed(pools) ==> forall i :: 0 <= i < |response| ==> response[i] in response && response[i].spec.name !in names;
      response := response + [pools[n]];
      names := names - {n};
    }
  }

  /** The configuration blocks' values at the time of the call; nothing writes to them afterwards. */
  method ReadOff(out: seq<DesiredStaticNodePool>, ghost es: seq<Desired>) returns (ds: seq<Desired>)
    requires StandFor(out, es)
    ensures ds == es
  {
    ds := [];
    for i := 0 to |out|
      invariant ds == es[..i]
    {
      assert AsDesired(out[i]) == es[i];
      ds := ds + [Desired(out[i].name, out[i].subblockToConsume, out[i].config.Value())];
    }
  }

  class StaticNodepoolReconciler {
    const g: Gke
    const world: nat -> Turn
    var pools: Pools
    var inProgress: set<string>
    var clock: nat
    ghost var trace: seq<State>

    /** A deletion that the service reports as done has removed the pool. */
    ghost predicate Honest() {
      forall k: nat :: world(k).ok ==> world(k).onDelete.Applied?
    }

    /** The trace is a run of the transition system, in which deletions hold if the service is honest. */
    ghost predicate Traced()
      reads `trace
    {
      trace != [] && IsRun(g, trace) && Fresh(trace[0]) && (Honest() ==> DeletesHold(g, trace))
    }

    /** The trace goes up to the pools as they are now. */
    ghost predicate Valid()
      reads this
    {
      Traced() && Now().pools == pools
    }

    ghost function Now(): State
      requires trace != []
      reads `trace
    {
      trace[|trace| - 1]
    }

    constructor (g: Gke, world: nat -> Turn, pools: Pools, inProgress: set<string>)
      requires WellKeyed(pools)
      ensures Valid() && Now().phase.Idle? && this.g == g && this.world == world
      ensures this.pools == pools && this.inProgress == inProgress
    {
      this.g, this.world, this.pools, this.inProgress, this.clock := g, world, pools, inProgress, 0;
      this.trace := [State(pools, Round([], [], {}, Plan([], [], [], [])), Idle(false), [])];
    }

    /** A state follows on the trace by a step of the transition system. */
    ghost method Record(s: State)
      requires Traced() && Step(g, Now(), s) && (Honest() ==> DeletionHolds(g, Now(), s))
      modifies `trace
      ensures trace == old(trace) + [s] && Traced()
    {
      RunExtends(g, trace, s);
      trace := trace + [s];
    }

    /** The call for one item has returned, and left the pools as they now are. */
    ghost method RecordCall(i: nat, ok: bool)
      requires Traced() && Now().phase.Running? && i in Now().phase.pending
      requires i < |StageNames(Now().round.plan, Now().phase.stage)|
      requires Honest() && ok && !Now().phase.stage.Creating? ==> StageNames(Now().round.plan, Now().phase.stage)[i] !in pools
      requires CallEffect(g, Now().round.plan, Now().phase.stage, i, ok, Now().pools, pools)
      modifies `trace
      ensures Valid() && old(trace) <= trace && Now().round == old(Now()).round
      ensures var before := old(Now()).phase;
              Now().phase == Running(before.stage, before.pending - {i}, if ok then before.failed else before.failed + {i})
      ensures |Now().log| == |old(Now()).log| + 1
    {
      hide BuildDesired, CallEffect, IsRun, DeletesHold;
      var s := Now();
      var s' := State(
        pools, s.round,
        Running(s.phase.stage, s.phase.pending - {i}, if ok then s.phase.failed else s.phase.failed + {i}),
        s.log + [CallEvent(s.round.plan, s.phase.stage, i, ok)]);
      assert CallStep(g, s, s', i, ok);
      OneCallOnly(g, s, s', i, ok);
      Record(s');
    }

    ghost method RecordFinish()
      requires Valid() && Now().phase.Running? && Now().phase.pending == {}
      modifies `trace
      ensures Valid() && old(trace) <= trace
      ensures Now() == old(Now()).(phase := NextPhase(old(Now()).round.plan, old(Now()).phase.stage, old(Now()).phase.failed))
    {
      var s := Now();
      var s' := s.(phase := NextPhase(s.round.plan, s.phase.stage, s.phase.failed));
      assert FinishStep(s, s');
      NoCall(g, s, s');
      Record(s');
    }

    /** Between two calls of the controller, the environment acts. */
    method Interfere(acts: seq<EnvAct>)
      requires Valid()
      modifies `pools, `trace
      ensures Valid() && old(trace) <= trace && Now() == old(Now()).(pools := pools)
    {
      for i := 0 to |acts|
        invariant Valid() && old(trace) <= trace && Now() == old(Now()).(pools := pools)
      {
        RunsAreWellKeyed(g, trace, |trace| - 1);
        pools := AfterAct(pools, acts[i]);
        assert EnvironmentStep(Now(), Now().(pools := pools));
        NoCall(g, Now(), Now().(pools := pools));
        Record(Now().(pools := pools));
      }
    }

    /** A pool that is already being deleted is refused; otherwise its name is marked for as long as the call takes. */
    method DeleteNodePool(name: string, turn: Turn) returns (ok: bool)
      modifies `pools, `inProgress
      ensures inProgress == old(inProgress)
      ensures pools == if name in inProgress then old(pools) else AfterDelete(old(pools), name, turn.onDelete)
      ensures ok <==> name !in inProgress && turn.ok
    {
      if name in inProgress {
        return false;
      }
      inProgress := inProgress + {name};
      pools := AfterDelete(pools, name, turn.onDelete);
      inProgress := inProgress - {name};
      return turn.ok;
    }

    /** The trace is part-way through a stage of a round: the items without a call yet, and those whose call failed. */
    ghost predicate AtStage(since: seq<State>, round: Round, stage: Stage, pending: set<nat>, failed: set<nat>)
      reads `trace
    {
      && Traced() && since != [] && since <= trace && Now().round == round && Now().phase == Running(stage, pending, failed)
      && |Now().log| + |pending| == |since[|since| - 1].log| + |StageNames(round.plan, stage)|
    }

    ghost predicate InStage(since: seq<State>, round: Round, stage: Stage, pending: set<nat>, failed: set<nat>)
      reads `trace, `pools
    {
      AtStage(since, round, stage, pending, failed) && Now().pools == pools
    }

    /** The script's next turn, with what it lets the environment do before the call. */
    method NextTurn(ghost since: seq<State>, ghost round: Round, ghost stage: Stage, ghost pending: set<nat>, ghost failed: set<nat>)
      returns (turn: Turn)
      requires InStage(since, round, stage, pending, failed)
      modifies `pools, `clock, `trace
      ensures InStage(since, round, stage, pending, failed) && turn == world(old(clock))
    {
      turn := world(clock);
      clock := clock + 1;
      Interfere(turn.acts);
    }

    /** An item's call has returned, and left the pools as they now are. */
    ghost method RecordItem(i: nat, ok: bool, since: seq<State>, round: Round, stage: Stage, pending: set<nat>, failed: set<nat>)
      requires AtStage(since, round, stage, pending, failed) && i in pending && i < |StageNames(round.plan, stage)|
      requires Honest() && ok && !stage.Creating? ==> StageNames(round.plan, stage)[i] !in pools
      requires CallEffect(g, round.plan, stage, i, ok, Now().pools, pools)
      modifies `trace
      ensures InStage(since, round, stage, pending - {i}, if ok then failed else failed + {i})
    {
      hide CallEffect, StageNames, IsRun, DeletesHold, Honest, Fresh;
      RecordCall(i, ok);
    }

    /** One worker's deletion, of any item that is still pending. */
    method DeleteOne(names: seq<string>, pending: set<nat>,
                     ghost since: seq<State>, ghost round: Round, ghost stage: Stage, ghost failed: set<nat>)
      returns (i: nat, ok: bool)
      requires InStage(since, round, stage, pending, failed)
      requires !stage.Creating? && names == StageNames(round.plan, stage) && pending != {} && pending <= Below(|names|)
      modifies `pools, `inProgress, `clock, `trace
      ensures i in pending && InStage(since, round, stage, pending - {i}, if ok then failed else failed + {i})
      ensures inProgress == old(inProgress)
    {
      hide AfterDelete, CallEffect, DeleteEffect, IsRun, DeletesHold;
      var turn := NextTurn(since, round, stage, pending, failed);
      i :| i in pending;
      ghost var before := pools;
      ok := DeleteNodePool(names[i], turn);
      DeletionIsCall(g, round.plan, stage, i, ok, before, pools);
      RecordItem(i, ok, since, round, stage, pending, failed);
    }

    /** The deletions of one list, in any order; returned are the names whose deletion failed. */
    method DeleteStaticNodePools(names: seq<string>, ghost stage: Stage) returns (errs: seq<string>)
      requires Valid() && !stage.Creating? && names == StageNames(Now().round.plan, stage)
      requires Now().phase == Running(stage, Rounds.Items(Now().round.plan, stage), {})
      modifies `pools, `inProgress, `clock, `trace
      ensures Valid() && old(trace) <= trace && Now().round == old(Now()).round && inProgress == old(inProgress)
      ensures Now().phase == if errs == [] then NextPhase(Now().round.plan, stage, {}) else Idle(true)
      ensures |Now().log| == |old(Now()).log| + |names|
    {
      ghost var since, round := trace, Now().round;
      errs := [];
      var pending := Below(|names|);
      BelowSize(|names|);
      ghost var failed: set<nat> := {};
      while pending != {}
        invariant InStage(since, round, stage, pending, failed) && inProgress == old(inProgress)
        invariant pending <= Below(|names|) && (errs == [] <==> failed == {})
        decreases |pending|
      {
        hide InStage;
        var i, ok := DeleteOne(names, pending, since, round, stage, failed);
        pending := pending - {i};
        if !ok {
          errs := errs + [names[i]];
          failed := failed + {i};
        }
      }
      RecordFinish();
    }

    /** Builds the pool again, and creates it unless there is one of its name. */
    method EnsureNodePool(d: Desired, turn: Turn) returns (ok: bool)
      modifies `pools
      ensures match BuildDesired(g, d)
              case Failure(_) => pools == old(pools) && !ok
              case Success(np) =>
                if !turn.getOk then pools == old(pools) && !ok
                else if d.name in old(pools) then pools == old(pools) && ok
                else np.name == d.name && pools == AfterCreate(old(pools), np, turn.onCreate) && ok == turn.ok
    {
      var np := StaticNodePoolForSubBlock(g, d.name, d.subblock, d.config);
      if np.Failure? {
        return false;
      }
      if !turn.getOk {
        return false;
      }
      if np.value.name in pools {
        return true;
      }
      pools := AfterCreate(pools, np.value, turn.onCreate);
      return turn.ok;
    }

    /** One worker's creation, of any item that is still pending. */
    method EnsureOne(creates: seq<Desired>, pending: set<nat>, ghost since: seq<State>, ghost round: Round,
                     ghost failed: set<nat>)
      returns (i: nat, ok: bool)
      requires InStage(since, round, Creating, pending, failed)
      requires creates == round.plan.creates && pending != {} && pending <= Below(|creates|)
      modifies `pools, `clock, `trace
      ensures i in pending && InStage(since, round, Creating, pending - {i}, if ok then failed else failed + {i})
    {
      hide AfterCreate, BuildDesired, CallEffect, CreateEffect, IsRun, DeletesHold;
      var turn := NextTurn(since, round, Creating, pending, failed);
      i :| i in pending;
      ghost var before := pools;
      ok := EnsureNodePool(creates[i], turn);
      CreationIsCall(g, round.plan, i, ok, before, pools);
      RecordItem(i, ok, since, round, Creating, pending, failed);
    }

    method EnsureStaticNodePools(creates: seq<Desired>) returns (errs: seq<string>)
      requires Valid() && creates == Now().round.plan.creates
      requires Now().phase == Running(Creating, Rounds.Items(Now().round.plan, Creating), {})
      modifies `pools, `clock, `trace
      ensures Valid() && old(trace) <= trace && Now().round == old(Now()).round
      ensures Now().phase == Idle(errs != [])
      ensures |Now().log| == |old(Now()).log| + |creates|
    {
      ghost var since, round := trace, Now().round;
      errs := [];
      var pending := Below(|creates|);
      BelowSize(|creates|);
      ghost var failed: set<nat> := {};
      while pending != {}
        invariant InStage(since, round, Creating, pending, failed)
        invariant pending <= Below(|creates|) && (errs == [] <==> failed == {})
        decreases |pending|
      {
        hide InStage;
        var i, ok := EnsureOne(creates, pending, since, round, failed);
        pending := pending - {i};
        if !ok {
          errs := errs + [creates[i].name];
          failed := failed + {i};
        }
      }
      RecordFinish();
    }

    method ListNodePools() returns (refs: seq<NodePoolRef>)
      requires Valid()
      ensures IsListing(refs, pools)
    {
      RunsAreWellKeyed(g, trace, |trace| - 1);
      var response := Respond(pools);
      refs := NodePools.ListNodePools(response);
      ListsFaithfully(pools, response, refs);
    }

    /** The part of the trace that one executed round adds: its start, and its end in an error or not. */
    ghost predicate RanRound(before: seq<State>, round: Round, inError: bool)
      reads this
    {
      && Valid() && before != [] && before < trace
      && StartStep(g, before[|before| - 1], trace[|before|]) && trace[|before|].round == round
      && Now().round == round && Now().phase == Idle(inError)
    }

    /** The deletions stage by stage and then the creations, each stage only if the one before had no error. */
    method Execute(plan: Plan) returns (r: Outcome)
      requires Valid() && plan == Now().round.plan
      requires Now().phase == Running(DeletingMissing, Rounds.Items(plan, DeletingMissing), {})
      modifies `pools, `inProgress, `clock, `trace
      ensures Valid() && old(trace) <= trace && Now().round == old(Now()).round && inProgress == old(inProgress)
      ensures r == Finished || r == Failed(Deleting) || r == Failed(Ensuring)
      ensures Now().phase == Idle(r != Finished)
    {
      var errs := DeleteStaticNodePools(plan.missing, DeletingMissing);
      if |errs| > 0 {
        return Failed(Deleting);
      }
      errs := DeleteStaticNodePools(plan.errors, DeletingErrored);
      if |errs| > 0 {
        return Failed(Deleting);
      }
      errs := DeleteStaticNodePools(plan.updates, DeletingUpdated);
      if |errs| > 0 {
        return Failed(Deleting);
      }
      errs := EnsureStaticNodePools(plan.creates);
      if |errs| > 0 {
        return Failed(Ensuring);
      }
      return Finished;
    }

    /** The outcome for some desired pools: nothing is touched without a plan; with one, it is executed. */
    ghost predicate Reconciled(before: seq<State>, poolsBefore: Pools, listing: seq<NodePoolRef>, desired: seq<Desired>,
                               listOk: bool, slices: Option<seq<Slice>>, nodes: Option<seq<Node>>, r: Outcome)
      reads this
    {
      && IsListing(listing, poolsBefore)
      && if !listOk then r == Failed(ListPools) && trace == before && pools == poolsBefore
         else match RoundPlan(g, listing, desired, slices, nodes)
           case Failure(e) => r == Failed(Planning(e)) && trace == before && pools == poolsBefore
           case Success(plan) =>
             && RanRound(before, Round(desired, listing, SeenInUse(slices, nodes), plan), r != Finished)
             && (r == Finished || r == Failed(Deleting) || r == Failed(Ensuring))
    }

    /** From these desired pools on there is no plan to execute. */
    ghost predicate CannotPlan(poolsBefore: Pools, desired: seq<Desired>, listOk: bool, slices: Option<seq<Slice>>, nodes: Option<seq<Node>>) {
      || !listOk || !AllBuild(g, desired)
      || (AnyPoolToGuard(g, poolsBefore, desired) && (slices.None? || nodes.None?))
    }

    /** No round is started exactly when there is no plan; then nothing is touched and there is an error. */
    lemma NoRoundWithoutPlan(before: seq<State>, poolsBefore: Pools, listing: seq<NodePoolRef>, desired: seq<Desired>,
                             listOk: bool, slices: Option<seq<Slice>>, nodes: Option<seq<Node>>, r: Outcome)
      requires Reconciled(before, poolsBefore, listing, desired, listOk, slices, nodes, r) && WellKeyed(poolsBefore)
      ensures trace == before <==> CannotPlan(poolsBefore, desired, listOk, slices, nodes)
      ensures trace == before ==> r.Failed? && pools == poolsBefore
    {
      PlanningEndsExactly(g, listing, desired, slices, nodes);
      GuardReadsPools(g, poolsBefore, listing, desired);
      hide RoundPlan, AllBuild, AnyPoolToGuard, AnythingToGuard, IsListing, Valid, StartStep;
    }

    /** From the desired pools on: list, compare, filter, execute. Without a plan nothing is touched. */
    method ReconcileDesired(desired: seq<Desired>, listOk: bool, slices: Option<seq<Slice>>, nodes: Option<seq<Node>>)
      returns (r: Outcome, ghost listing: seq<NodePoolRef>)
      requires Valid() && Now().phase.Idle?
      modifies `pools, `inProgress, `clock, `trace
      ensures Valid() && inProgress == old(inProgress) && old(trace) <= trace && Now().phase.Idle?
      ensures Reconciled(old(trace), old(pools), listing, desired, listOk, slices, nodes, r)
      ensures trace == old(trace) <==> old(CannotPlan(pools, desired, listOk, slices, nodes))
      ensures trace == old(trace) ==> r.Failed? && pools == old(pools)
      ensures r != NeverReturns
    {
      ghost var before, poolsBefore := trace, pools;
      RunsAreWellKeyed(g, trace, |trace| - 1);
      hide RoundPlan, SeenInUse, PlanOf, DiffOf, IsListing;
      var existing := ListNodePools();
      listing := existing;
      if !listOk {
        r := Failed(ListPools);
        NoRoundWithoutPlan(before, poolsBefore, listing, desired, listOk, slices, nodes, r);
        return;
      }
      var planned := PlanRound(g, existing, desired, slices, nodes);
      if planned.Failure? {
        r := Failed(Planning(planned.error));
        NoRoundWithoutPlan(before, poolsBefore, listing, desired, listOk, slices, nodes, r);
        return;
      }
      PlanIsForSeenInUse(g, existing, desired, slices, nodes);
      ghost var round := Round(desired, listing, SeenInUse(slices, nodes), planned.value);
      ghost var start := State(pools, round, Running(DeletingMissing, Rounds.Items(planned.value, DeletingMissing), {}), []);
      assert StartStep(g, Now(), start);
      NoCall(g, Now(), start);
      Record(start);
      r := Execute(planned.value);
      NoRoundWithoutPlan(before, poolsBefore, listing, desired, listOk, slices, nodes, r);
    }

    /** The expansion comes to a range that its index loop does not leave. */
    ghost predicate ExpandsForever(fetch: Fetch, values: seq<Entry>)
      reads if fetch.Parsed? then fetch.defaultConfig else null
      reads if fetch.Parsed? && fetch.defaultConfig != null then fetch.defaultConfig.nodeLabels else null
    {
      && fetch.Parsed? && AnyConfig(fetch.reservations, fetch.defaultConfig)
      && Expand(g.ctx.projectID, ValueOf(fetch.defaultConfig), values).Failure?
      && Expand(g.ctx.projectID, ValueOf(fetch.defaultConfig), values).error.NeverEnds?
    }

    /** Fetching, expanding, listing or planning fails. */
    ghost predicate FailsEarly(fetch: Fetch, values: seq<Entry>, listOk: bool, slices: Option<seq<Slice>>, nodes: Option<seq<Node>>)
      reads `pools, if fetch.Parsed? then fetch.defaultConfig else null
      reads if fetch.Parsed? && fetch.defaultConfig != null then fetch.defaultConfig.nodeLabels else null
    {
      || fetch.GetFailed?
      || (fetch.Parsed? && AnyConfig(fetch.reservations, fetch.defaultConfig)
          && match Expand(g.ctx.projectID, ValueOf(fetch.defaultConfig), values)
             case Failure(error) => !error.NeverEnds?
             case Success(desired) => CannotPlan(pools, desired, listOk, slices, nodes))
    }

    /**
      One reconcile. Only a config map that is there, can be parsed, asks for some
      configuration and can be expanded, and pools, slices and nodes that can be
      listed, lead to any action; then what is executed is the plan for the
      expansion of the configuration as it was on entry.
     */
    method Reconcile(fetch: Fetch, listOk: bool, slices: Option<seq<Slice>>, nodes: Option<seq<Node>>, ghost values: seq<Entry>)
      returns (r: Outcome, ghost listing: seq<NodePoolRef>)
      requires Valid() && Now().phase.Idle?
      requires fetch.Parsed? ==> Decoded(fetch.defaultConfig, values, Flatten(fetch.reservations))
      modifies `pools, `inProgress, `clock, `trace
      modifies if fetch.Parsed? && fetch.defaultConfig != null then fetch.defaultConfig.nodeLabels else null
      ensures Valid() && inProgress == old(inProgress) && old(trace) <= trace && Now().phase.Idle?
      ensures match Asked(fetch, old(if fetch.Parsed? then ValueOf(fetch.defaultConfig) else None), values, g.ctx.projectID)
              case Answer(outcome) => r == outcome && trace == old(trace) && pools == old(pools)
              case Desire(desired) => Reconciled(old(trace), old(pools), listing, desired, listOk, slices, nodes, r)
      ensures fetch.NotFound? || fetch.Unparsable? || (fetch.Parsed? && !AnyConfig(fetch.reservations, fetch.defaultConfig)) ==> r == Finished
      ensures fetch.GetFailed? ==> r == Failed(GetConfig)
      ensures !fetch.Parsed? || !AnyConfig(fetch.reservations, fetch.defaultConfig) ==> trace == old(trace)
      ensures trace == old(trace) ==> pools == old(pools)
      ensures trace == old(trace) && r.Failed? <==> old(FailsEarly(fetch, values, listOk, slices, nodes))
      ensures r == NeverReturns <==> old(ExpandsForever(fetch, values))
      ensures r == NeverReturns ==> trace == old(trace)
    {
      hide Decoded, StandFor, Expand, Reconciled, CannotPlan;
      listing := [];
      if fetch.GetFailed? {
        return Failed(GetConfig), listing;
      }
      if fetch.NotFound? || fetch.Unparsable? {
        return Finished, listing;
      }
      var hasAnyConfig := HasAnyConfig(fetch.reservations, fetch.defaultConfig);
      if !hasAnyConfig {
        return Finished, listing;
      }
      var constructed := ConstructDesiredNodePools(g.ctx.projectID, fetch.reservations, fetch.defaultConfig, values);
      if constructed.Failure? {
        return if constructed.error.NeverEnds? then NeverReturns else Failed(Construct(constructed.error)), listing;
      }
      ghost var def0 := old(if fetch.Parsed? then ValueOf(fetch.defaultConfig) else None);
      var desired := ReadOff(constructed.value, Expand(g.ctx.projectID, def0, values).value);
      r, listing := ReconcileDesired(desired, listOk, slices, nodes);
    }
  }

  /* ---- What the trace shows ---- */

  /** If the step is a deletion that returned without error, the pool is gone. */
  ghost predicate DeletionHolds(g: Gke, s: State, s': State) {
    forall i: nat :: CallStep(g, s, s', i, true) && !s.phase.stage.Creating? ==>
      StageNames(s.round.plan, s.phase.stage)[i] !in s'.pools
  }

  lemma DeletionIsCall(g: Gke, plan: Plan, stage: Stage, i: nat, ok: bool, before: Pools, after: Pools)
    requires !stage.Creating? && i < |StageNames(plan, stage)|
    requires after == before || DeleteEffect(before, StageNames(plan, stage)[i], after)
    ensures CallEffect(g, plan, stage, i, ok, before, after)
  {
  }

  lemma CreationIsCall(g: Gke, plan: Plan, i: nat, ok: bool, before: Pools, after: Pools)
    requires i < |plan.creates|
    requires match BuildDesired(g, plan.creates[i])
             case Failure(_) => after == before && !ok
             case Success(np) => after == before || CreateEffect(before, np, after)
    ensures CallEffect(g, plan, Creating, i, ok, before, after)
  {
  }

  lemma {:induction false} BelowSize(n: nat)
    ensures |Below(n)| == n
  {
    if n > 0 {
      BelowSize(n - 1);
    }
  }

  lemma RunExtends(g: Gke, run: seq<State>, s: State)
    requires IsRun(g, run) && Step(g, run[|run| - 1], s)
    ensures IsRun(g, run + [s])
    ensures DeletesHold(g, run) && DeletionHolds(g, run[|run| - 1], s) ==> DeletesHold(g, run + [s])
  {
    hide Step, CallStep;
    var run' := run + [s];
    assert forall k :: 0 <= k < |run| ==> run'[k] == run[k];
    assert run'[|run|] == s;
  }

  lemma NoCall(g: Gke, s: State, s': State)
    requires |s'.log| <= |s.log|
    ensures DeletionHolds(g, s, s')
  {
  }

  /** A step is the call of one item, with one outcome, at most. */
  lemma OneCallOnly(g: Gke, s: State, s': State, i: nat, ok: bool)
    requires CallStep(g, s, s', i, ok)
    ensures forall j: nat, ok' :: CallStep(g, s, s', j, ok') ==> j == i && ok' == ok
  {
    hide CallEffect;
    forall j: nat, ok' | CallStep(g, s, s', j, ok') ensures j == i && ok' == ok {
      assert s'.log[|s.log|] == CallEvent(s.round.plan, s.phase.stage, i, ok) == CallEvent(s.round.plan, s.phase.stage, j, ok');
      assert i !in s'.phase.pending && j !in s'.phase.pending;
    }
  }

  /**
    The reconciler keeps capacity exclusive: after any sequence of its methods and
    of acts of the environment, in any order of calls and with any failures, as
    long as deletions reported as done are so where it matters, and every round
    started from an unambiguous configuration and a hash without collisions on it.
   */
  lemma ReconcilerIsSafe(r: StaticNodepoolReconciler)
    requires r.Valid() && Consistent(r.g, r.trace[0].pools) && CleanStarts(r.g, r.trace) && DeletionsClear(r.g, r.trace)
    ensures Exclusive(r.pools) && SelfHashed(r.g, r.pools)
  {
    CapacityIsExclusive(r.g, r.trace, |r.trace| - 1);
  }

  /** An honest service's reports are true, so also where it matters. */
  lemma HonestDeletionsClear(r: StaticNodepoolReconciler)
    requires r.Valid() && r.Honest()
    ensures DeletionsClear(r.g, r.trace)
  {
    HeldDeletionsClear(r.g, r.trace);
  }

  /** The same with static pools of any content, as long as no kept pool squats on what a round is to create. */
  lemma ReconcilerIsSafeWithoutSquatters(r: StaticNodepoolReconciler)
    requires r.Valid() && Exclusive(r.trace[0].pools) && HarmlessStarts(r.g, r.trace) && DeletionsClear(r.g, r.trace)
    ensures Exclusive(r.pools)
  {
    CapacityIsExclusiveWithoutSquatters(r.g, r.trace, |r.trace| - 1);
  }

  /** Between reconciles, the last round ended in an error exactly when a call failed, and otherwise did all it planned. */
  lemma LastRoundIsAccounted(r: StaticNodepoolReconciler)
    requires r.Valid() && r.Now().phase.Idle?
    ensures r.Now().phase == Idle(false) <==> forall e :: e in r.Now().log ==> e.ok
    ensures r.Now().phase == Idle(false) ==> AllDone(r.Now().round.plan, r.Now().log)
  {
    EndsWithoutErrorIffNoCallFailed(r.g, r.trace, |r.trace| - 1);
  }

  lemma ListsFaithfully(pools: Pools, response: seq<ClusterPool>, refs: seq<NodePoolRef>)
    requires WellKeyed(pools) && forall p :: p in response <==> exists n :: n in pools && pools[n] == p
    requires forall i, j :: 0 <= i < j < |response| ==> response[i].spec.name != response[j].spec.name
    requires |refs| == |response| && forall i :: 0 <= i < |refs| ==> refs[i] == RefOf(response[i])
    ensures IsListing(refs, pools)
  {
    forall r | r in refs ensures r.name in pools && r == RefOf(pools[r.name]) {
      var i :| 0 <= i < |refs| && refs[i] == r;
      assert response[i] in response;
    }
    forall n | n in pools ensures RefOf(pools[n]) in refs {
      assert pools[n] in response;
      var i :| 0 <= i < |response| && response[i] == pools[n];
      assert refs[i] == RefOf(pools[n]);
    }
  }
}
