/**
  Deduplicating deletions by a load and a later store: exactly which deletions
  can call the service twice at once for one name, and exactly which rounds
  start such a deletion.
 */
module Duplicates {
  import opened Common
  import opened NodePools
  import opened Diff
  import opened Planning
  import opened Rounds
  import opened RepeatedNames
  import opened Workers
  import opened InProgress

  /** Two workers of one name are both past the check and in the service's deletion. */
  ghost predicate CalledAtOnce(job: Job, p: Pool, i: nat, j: nat)
    requires |p.workers| == |job.names|
  {
    i < j < |job.names| && job.names[i] == job.names[j] && p.workers[i].Calling? && p.workers[j].Calling?
  }

  ghost predicate CanCallAtOnce(job: Job) {
    exists actions, i: nat, j: nat :: Run(job, actions).Some? && CalledAtOnce(job, Run(job, actions).value, i, j)
  }

  /* ---- One token, or one entry, is not enough ---- */

  /** What is marked on entry stays marked, and stops every worker of its name at the check. */
  ghost predicate MarksKept(job: Job, p: Pool) {
    && |p.workers| == |job.names| && job.marked <= p.marked
    && forall i :: 0 <= i < |p.workers| && (p.workers[i].Marking? || HoldsMark(p.workers[i])) ==> job.names[i] !in job.marked
  }

  lemma ActKeepsMarks(job: Job, p: Pool, a: Action)
    requires job.kind.Deleting? && MarksKept(job, p) && Act(job, p, a).Some?
    ensures MarksKept(job, Act(job, p, a).value)
  {
    KeepsWorkers(job, p, a);
  }

  lemma {:induction false} RunsKeepMarks(job: Job, actions: seq<Action>)
    requires job.kind.Deleting? && Run(job, actions).Some?
    ensures MarksKept(job, Run(job, actions).value)
    decreases |actions|
  {
    hide MarksKept;
    if actions == [] {
      assert MarksKept(job, Start(job)) by {
        NothingMarkedYet(job);
      }
    } else {
      RunsKeepMarks(job, actions[..|actions| - 1]);
      ActKeepsMarks(job, Run(job, actions[..|actions| - 1]).value, actions[|actions| - 1]);
    }
  }

  lemma NothingMarkedYet(job: Job)
    ensures MarksKept(job, Start(job))
  {
  }

  lemma {:induction false} TwoHoldersCount(ws: seq<Worker>, i: nat, j: nat)
    requires i < j < |ws| && HoldsToken(ws[i]) && HoldsToken(ws[j])
    ensures HoldCount(ws) >= 2
    decreases |ws|
  {
    var last := |ws| - 1;
    if j < last {
      TwoHoldersCount(ws[..last], i, j);
    } else {
      CountsAreBounded(ws[..last]);
      assert HoldsToken(ws[..last][i]);
    }
  }

  lemma OverlapNeedsTwo(job: Job, actions: seq<Action>, i: nat, j: nat)
    requires job.kind.Deleting? && Run(job, actions).Some? && CalledAtOnce(job, Run(job, actions).value, i, j)
    ensures job.tokens >= 2 && job.names[i] !in job.marked
  {
    RunsKeepMarks(job, actions);
    RunningWorkersWithinCap(job, actions);
    TwoHoldersCount(Run(job, actions).value.workers, i, j);
  }

  /* ---- Two tokens and two entries are ---- */

  /** A started worker can take its next step. */
  lemma Advance(job: Job, actions: seq<Action>, k: nat) returns (more: seq<Action>)
    requires Run(job, actions).Some? && k < |job.names| && InGroup(Run(job, actions).value.workers[k])
    ensures WorkerAct(job, Run(job, actions).value, k, None).Some?
    ensures Run(job, more) == WorkerAct(job, Run(job, actions).value, k, None)
  {
    WorkersNeverBlock(job, actions, k, None);
    more := Extend(job, actions, WorkerStep(k, None));
  }

  /** The marks once a worker is through. */
  function MarksAfter(job: Job, p: Pool, k: nat): set<string>
    requires k < |p.workers| == |job.names|
  {
    var w := p.workers[k];
    if w.Marking? || HoldsMark(w) || (w.Checking? && job.names[k] !in p.marked) then p.marked - {job.names[k]} else p.marked
  }

  lemma StepKeepsMarksAfter(job: Job, p: Pool, k: nat)
    requires job.kind.Deleting? && k < |p.workers| == |job.names| && WorkerAct(job, p, k, None).Some?
    ensures var p' := WorkerAct(job, p, k, None).value;
            && |p'.workers| == |p.workers| && p'.workers == p.workers[k := p'.workers[k]] && p'.main == p.main
            && !p'.workers[k].Unspawned? && Weight(p'.workers[k]) < Weight(p.workers[k])
            && MarksAfter(job, p', k) == MarksAfter(job, p, k)
            && p'.held + One(HoldsToken(p.workers[k])) == p.held + One(HoldsToken(p'.workers[k]))
  {
  }

  /** A started worker can go through to its end while all others rest. */
  lemma {:induction false} GoThrough(job: Job, actions: seq<Action>, k: nat) returns (more: seq<Action>)
    requires job.kind.Deleting? && Run(job, actions).Some? && k < |job.names| && !Run(job, actions).value.workers[k].Unspawned?
    ensures Run(job, more).Some?
    ensures var p, p' := Run(job, actions).value, Run(job, more).value;
            && p'.workers == p.workers[k := p'.workers[k]] && p'.workers[k].Gone? && p'.main == p.main
            && p'.marked == MarksAfter(job, p, k)
            && p'.held + One(HoldsToken(p.workers[k])) == p.held
    decreases Weight(Run(job, actions).value.workers[k])
  {
    hide WorkerAct;
    var p := Run(job, actions).value;
    if p.workers[k].Gone? {
      more := actions;
    } else {
      var next := Advance(job, actions, k);
      StepKeepsMarksAfter(job, p, k);
      more := GoThrough(job, next, k);
    }
  }

  /** The main goroutine starts the next worker while there is a token. */
  lemma Spawn(job: Job, actions: seq<Action>, k: nat) returns (more: seq<Action>)
    requires job.kind.Deleting? && Run(job, actions).Some? && k < |job.names|
    requires Run(job, actions).value.main == Adding(k) && Run(job, actions).value.held < job.tokens
    ensures Run(job, more).Some?
    ensures var p, p' := Run(job, actions).value, Run(job, more).value;
            && p'.workers == p.workers[k := Checking] && p'.main == Adding(k + 1)
            && p'.marked == p.marked && p'.held == p.held + 1
  {
    var added := Extend(job, actions, MainStep);
    more := Extend(job, added, MainStep);
  }

  /** All items before `k` but `i` have been served one by one, and worker `i` waits before its check. */
  ghost predicate AllButOne(job: Job, p: Pool, i: nat, k: nat)
    requires |p.workers| == |job.names|
  {
    && p.main == Adding(k) && p.marked == job.marked && p.held == One(i < k)
    && forall m :: 0 <= m < |p.workers| ==>
         if m >= k then p.workers[m] == Unspawned else if m == i then p.workers[m] == Checking else p.workers[m].Gone?
  }

  lemma {:induction false} ServeAllButOne(job: Job, i: nat, k: nat) returns (actions: seq<Action>)
    requires job.kind.Deleting? && job.tokens >= 2 && i < |job.names| && k <= |job.names|
    ensures Run(job, actions).Some? && AllButOne(job, Run(job, actions).value, i, k)
    decreases k
  {
    if k == 0 {
      actions := [];
    } else {
      hide Run, WorkerAct;
      var before := ServeAllButOne(job, i, k - 1);
      actions := Spawn(job, before, k - 1);
      if k - 1 != i {
        actions := GoThrough(job, actions, k - 1);
      }
    }
  }

  lemma BothReachTheService(job: Job, i: nat, j: nat) returns (actions: seq<Action>)
    requires job.kind.Deleting? && job.tokens >= 2
    requires i < j < |job.names| && job.names[i] == job.names[j] && job.names[i] !in job.marked
    ensures Run(job, actions).Some? && CalledAtOnce(job, Run(job, actions).value, i, j)
  {
    hide Run;
    actions := ServeAllButOne(job, i, j);
    actions := Spawn(job, actions, j);
    actions := Advance(job, actions, i);
    actions := Advance(job, actions, j);
    actions := Advance(job, actions, i);
    actions := Advance(job, actions, j);
  }

  /**
    Exactly which deletions can call the service twice at once for one name: those
    with two tokens and a name given twice that is not in progress on entry.
   */
  lemma RepeatedNameIsCalledTwice(job: Job)
    requires job.kind.Deleting?
    ensures CanCallAtOnce(job) <==> job.tokens >= 2 && exists n :: Repeats(job.names, n) && n !in job.marked
  {
    if CanCallAtOnce(job) {
      var actions, i: nat, j: nat :| Run(job, actions).Some? && CalledAtOnce(job, Run(job, actions).value, i, j);
      OverlapNeedsTwo(job, actions, i, j);
      assert Twice(job.names, i, j, job.names[i]);
    }
    if job.tokens >= 2 && exists n :: Repeats(job.names, n) && n !in job.marked {
      var n :| Repeats(job.names, n) && n !in job.marked;
      var i: nat, j: nat :| Twice(job.names, i, j, n);
      var actions := BothReachTheService(job, i, j);
    }
  }

  /* ---- Rounds whose deletions overlap ---- */

  /** The deletion a stage starts, with the configured concurrency. */
  function StageJob(plan: Plan, stage: Stage, concurrency: int, marked: set<string>): Job {
    var names := StageNames(plan, stage);
    Job(Deleting, names, DeleteTokens(concurrency, |names|), marked)
  }

  /**
    A round's deletion can call the service twice at once for one name exactly when
    at least two concurrent deletions are configured and the configuration lists
    a name twice that is not in progress.
   */
  lemma RoundOverlapsExactly(g: Gke, existing: seq<NodePoolRef>, desired: seq<Desired>, inUse: set<string>, stage: Stage,
                             concurrency: int, marked: set<string>)
    requires DistinctRefs(existing) && DiffOf(g, existing, desired).Success? && !stage.Creating?
    ensures CanCallAtOnce(StageJob(PlanOf(g, existing, desired, inUse), stage, concurrency, marked))
       <==> concurrency >= 2 && exists n :: ListedTwice(g, ByName(existing), desired, inUse, stage, n) && n !in marked
  {
    hide CanCallAtOnce, ListedTwice, PlanOf, DiffOf;
    var names := StageNames(PlanOf(g, existing, desired, inUse), stage);
    RepeatedNameIsCalledTwice(StageJob(PlanOf(g, existing, desired, inUse), stage, concurrency, marked));
    forall n ensures Repeats(names, n) <==> ListedTwice(g, ByName(existing), desired, inUse, stage, n) {
      DeletionListsRepeatExactly(g, existing, desired, inUse, stage, n);
    }
  }
}
