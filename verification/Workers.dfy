/**
  The bounded worker pools that run the deletions and creations of a stage.

  One goroutine is started for each item, after an entry in the wait group and a
  send into the semaphore channel. It does its work, sends an error if it has
  one, takes its token back out of the semaphore and leaves the wait group. The
  main goroutine waits for the group, closes the error channel and drains it.
  Every step below is one action of one goroutine, so a sequence of actions is
  one interleaving.
 */
module Workers {
  import opened Common

  datatype Kind = Deleting | Ensuring

  /** The items of one call, by name, the semaphore's capacity, and the names already being deleted. */
  datatype Job = Job(kind: Kind, names: seq<string>, tokens: nat, marked: set<string>)

  datatype Cause = Duplicate | Service(text: string)

  datatype Fault = Fault(name: string, cause: Cause)

  /** Where one worker stands; `fault` is the error it has met, if any. */
  datatype Worker =
    | Unspawned
    | Checking
    | Marking
    | Calling
    | Unmarking(fault: Option<Fault>)
    | Sending(error: Fault)
    | Releasing(fault: Option<Fault>)
    | Signalling(fault: Option<Fault>)
    | Gone(fault: Option<Fault>)

  datatype Main = Adding(next: nat) | Acquiring(next: nat) | Waiting | Closing | Draining | Returned

  datatype Pool = Pool(
    main: Main,
    held: nat,
    group: nat,
    errors: seq<Fault>,
    closed: bool,
    collected: seq<Fault>,
    marked: set<string>,
    calls: seq<nat>,
    workers: seq<Worker>)

  /** One step of the main goroutine, or of worker `i`, whose service call, if that is the step, ends as `outcome` says. */
  datatype Action = MainStep | WorkerStep(i: nat, outcome: Option<string>)

  /* ---- Semaphore capacities ---- */

  /** Deletion clamps the configured concurrency to at least one and at most the number of items. */
  function DeleteTokens(concurrency: int, items: nat): nat {
    var c := if concurrency <= 0 then 1 else concurrency;
    if items < c then items else c
  }

  /** Creation does not clamp it; a channel of negative capacity cannot be made. */
  function EnsureTokens(concurrency: int): Option<nat> {
    if concurrency < 0 then None else Some(concurrency)
  }

  /* ---- The steps ---- */

  function Start(job: Job): Pool {
    Pool(Adding(0), 0, 0, [], false, [], job.marked, [], seq(|job.names|, _ => Unspawned))
  }

  function AfterWork(fault: Option<Fault>): Worker {
    match fault
    case None => Releasing(None)
    case Some(e) => Sending(e)
  }

  /** The state after an action, or None when the action blocks. */
  function Act(job: Job, p: Pool, a: Action): Option<Pool>
    requires |p.workers| == |job.names|
  {
    match a
    case MainStep => MainAct(job, p)
    case WorkerStep(i, outcome) => if i < |p.workers| then WorkerAct(job, p, i, outcome) else None
  }

  function MainAct(job: Job, p: Pool): Option<Pool>
    requires |p.workers| == |job.names|
  {
    match p.main
    case Adding(i) =>
      if i < |job.names| then Some(p.(main := Acquiring(i), group := p.group + 1)) else Some(p.(main := Waiting))
    case Acquiring(i) =>
      if p.held < job.tokens && i < |job.names| then
        Some(p.(main := Adding(i + 1), held := p.held + 1, workers := p.workers[i := if job.kind.Deleting? then Checking else Calling]))
      else None
    case Waiting => if p.group == 0 then Some(p.(main := Closing)) else None
    case Closing => Some(p.(main := Draining, closed := true))
    case Draining =>
      if p.errors == [] then Some(p.(main := Returned))
      else Some(p.(errors := p.errors[1..], collected := p.collected + [p.errors[0]]))
    case Returned => None
  }

  function WorkerAct(job: Job, p: Pool, i: nat, outcome: Option<string>): Option<Pool>
    requires i < |p.workers| == |job.names|
  {
    var name := job.names[i];
    match p.workers[i]
    case Unspawned => None
    case Checking =>
      if name in p.marked then Some(p.(workers := p.workers[i := Sending(Fault(name, Duplicate))]))
      else Some(p.(workers := p.workers[i := Marking]))
    case Marking => Some(p.(workers := p.workers[i := Calling], marked := p.marked + {name}))
    case Calling =>
      var fault := if outcome.Some? then Some(Fault(name, Service(outcome.value))) else None;
      Some(p.(workers := p.workers[i := if job.kind.Deleting? then Unmarking(fault) else AfterWork(fault)], calls := p.calls + [i]))
    case Unmarking(fault) => Some(p.(workers := p.workers[i := AfterWork(fault)], marked := p.marked - {name}))
    case Sending(e) =>
      if |p.errors| < |job.names| && !p.closed then Some(p.(workers := p.workers[i := Releasing(Some(e))], errors := p.errors + [e]))
      else None
    case Releasing(fault) => if p.held > 0 then Some(p.(workers := p.workers[i := Signalling(fault)], held := p.held - 1)) else None
    case Signalling(fault) => if p.group > 0 then Some(p.(workers := p.workers[i := Gone(fault)], group := p.group - 1)) else None
    case Gone(_) => None
  }

  /** The state reached by an interleaving, or None if one of its actions blocks. */
  function Run(job: Job, actions: seq<Action>): Option<Pool>
    ensures Run(job, actions).Some? ==> |Run(job, actions).value.workers| == |job.names|
  {
    if actions == [] then Some(Start(job))
    else
      match Run(job, actions[..|actions| - 1])
      case None => None
      case Some(p) => KeepsWorkers(job, p, actions[|actions| - 1]); Act(job, p, actions[|actions| - 1])
  }

  lemma KeepsWorkers(job: Job, p: Pool, a: Action)
    requires |p.workers| == |job.names|
    ensures Act(job, p, a).Some? ==> |Act(job, p, a).value.workers| == |job.names|
  {
  }

  /* ---- Counting workers ---- */

  predicate HoldsToken(w: Worker) {
    !w.Unspawned? && !w.Signalling? && !w.Gone?
  }

  predicate InGroup(w: Worker) {
    !w.Unspawned? && !w.Gone?
  }

  function Reported(w: Worker): Option<Fault> {
    match w
    case Releasing(fault) => fault
    case Signalling(fault) => fault
    case Gone(fault) => fault
    case _ => None
  }

  function HoldCount(ws: seq<Worker>): nat {
    if ws == [] then 0 else HoldCount(ws[..|ws| - 1]) + if HoldsToken(ws[|ws| - 1]) then 1 else 0
  }

  function GroupCount(ws: seq<Worker>): nat {
    if ws == [] then 0 else GroupCount(ws[..|ws| - 1]) + if InGroup(ws[|ws| - 1]) then 1 else 0
  }

  function Reports(ws: seq<Worker>): multiset<Fault> {
    if ws == [] then multiset{}
    else Reports(ws[..|ws| - 1]) + AsMultiset(Reported(ws[|ws| - 1]))
  }

  function Weight(w: Worker): nat {
    match w
    case Unspawned => 9
    case Checking => 8
    case Marking => 7
    case Calling => 6
    case Unmarking(_) => 5
    case Sending(_) => 4
    case Releasing(_) => 2
    case Signalling(_) => 1
    case Gone(_) => 0
  }

  function TotalWeight(ws: seq<Worker>): nat {
    if ws == [] then 0 else TotalWeight(ws[..|ws| - 1]) + Weight(ws[|ws| - 1])
  }

  function One(b: bool): nat {
    if b then 1 else 0
  }

  function AsMultiset(fault: Option<Fault>): multiset<Fault> {
    if fault.Some? then multiset{fault.value} else multiset{}
  }

  /** What changing one worker does to the counts. */
  lemma {:induction false} CountsAfterUpdate(ws: seq<Worker>, i: nat, w: Worker)
    requires i < |ws|
    ensures HoldCount(ws[i := w]) + One(HoldsToken(ws[i])) == HoldCount(ws) + One(HoldsToken(w))
    ensures GroupCount(ws[i := w]) + One(InGroup(ws[i])) == GroupCount(ws) + One(InGroup(w))
    ensures TotalWeight(ws[i := w]) + Weight(ws[i]) == TotalWeight(ws) + Weight(w)
    decreases |ws|
  {
    var last := |ws| - 1;
    if i == last {
      assert ws[i := w][..last] == ws[..last];
    } else {
      assert ws[i := w][..last] == ws[..last][i := w];
      CountsAfterUpdate(ws[..last], i, w);
    }
  }

  lemma AddToBoth<T>(a: multiset<T>, b: multiset<T>, rest: multiset<T>, x: multiset<T>, y: multiset<T>)
    requires a + x == b + y
    ensures (a + rest) + x == (b + rest) + y
  {
    assert (a + rest) + x == (a + x) + rest;
    assert (b + rest) + y == (b + y) + rest;
  }

  lemma {:induction false} ReportsAfterUpdate(ws: seq<Worker>, i: nat, w: Worker)
    requires i < |ws|
    ensures Reports(ws[i := w]) + AsMultiset(Reported(ws[i])) == Reports(ws) + AsMultiset(Reported(w))
    decreases |ws|
  {
    hide Reported, AsMultiset;
    var last := |ws| - 1;
    if i == last {
      assert ws[i := w][..last] == ws[..last];
    } else {
      assert ws[i := w][..last] == ws[..last][i := w];
      ReportsAfterUpdate(ws[..last], i, w);
      AddToBoth(Reports(ws[..last][i := w]), Reports(ws[..last]), AsMultiset(Reported(ws[last])),
                AsMultiset(Reported(ws[i])), AsMultiset(Reported(w)));
    }
  }

  lemma {:induction false} CountsAreBounded(ws: seq<Worker>)
    ensures HoldCount(ws) <= GroupCount(ws) <= |ws|
    ensures GroupCount(ws) == 0 <==> forall i :: 0 <= i < |ws| ==> !InGroup(ws[i])
    ensures (exists i :: 0 <= i < |ws| && HoldsToken(ws[i])) ==> HoldCount(ws) > 0
    decreases |ws|
  {
    if ws != [] {
      CountsAreBounded(ws[..|ws| - 1]);
      assert forall i :: 0 <= i < |ws| - 1 ==> ws[..|ws| - 1][i] == ws[i];
    }
  }

  lemma {:induction false} ReportsAreBounded(ws: seq<Worker>)
    ensures |Reports(ws)| <= |ws|
    ensures (exists i :: 0 <= i < |ws| && Reported(ws[i]) == None) ==> |Reports(ws)| < |ws|
    decreases |ws|
  {
    if ws != [] {
      ReportsAreBounded(ws[..|ws| - 1]);
      assert forall i :: 0 <= i < |ws| - 1 ==> ws[..|ws| - 1][i] == ws[i];
    }
  }

  /* ---- What every interleaving keeps ---- */

  function Spawned(job: Job, main: Main): nat {
    match main
    case Adding(i) => i
    case Acquiring(i) => i
    case _ => |job.names|
  }

  /** The stages the goroutines are in fit together. */
  ghost predicate InStep(job: Job, p: Pool) {
    && |p.workers| == |job.names|
    && Spawned(job, p.main) <= |job.names| && (p.main.Acquiring? ==> p.main.next < |job.names|)
    && (forall j :: 0 <= j < |p.workers| ==> (p.workers[j].Unspawned? <==> j >= Spawned(job, p.main)))
    && (p.main.Closing? || p.closed ==> p.group == 0)
    && (p.closed <==> p.main.Draining? || p.main.Returned?)
    && (!p.closed ==> p.collected == []) && (p.main.Returned? ==> p.errors == [])
    && (job.kind.Ensuring? ==> forall j :: 0 <= j < |p.workers| ==>
          !p.workers[j].Checking? && !p.workers[j].Marking? && !p.workers[j].Unmarking?)
  }

  /** The counters agree with the workers. */
  ghost predicate Tallies(job: Job, p: Pool) {
    && p.held == HoldCount(p.workers) && p.held <= job.tokens
    && p.group == GroupCount(p.workers) + One(p.main.Acquiring?)
  }

  /** Every error reported is in the channel or has been collected. */
  ghost predicate ErrorsKept(p: Pool) {
    multiset(p.errors) + multiset(p.collected) == Reports(p.workers)
  }

  ghost predicate Sound(job: Job, p: Pool) {
    InStep(job, p) && Tallies(job, p) && ErrorsKept(p)
  }

  lemma {:induction false} FreshWorkers(ws: seq<Worker>)
    requires forall i :: 0 <= i < |ws| ==> ws[i] == Unspawned
    ensures HoldCount(ws) == 0 && GroupCount(ws) == 0 && Reports(ws) == multiset{} && TotalWeight(ws) == 9 * |ws|
  {
    if ws != [] {
      FreshWorkers(ws[..|ws| - 1]);
    }
  }

  lemma StartIsSound(job: Job)
    ensures Sound(job, Start(job))
  {
    FreshWorkers(Start(job).workers);
  }

  lemma MainKeepsInStep(job: Job, p: Pool)
    requires InStep(job, p) && MainAct(job, p).Some?
    ensures InStep(job, MainAct(job, p).value)
  {
  }

  lemma MainKeepsTallies(job: Job, p: Pool)
    requires InStep(job, p) && Tallies(job, p) && MainAct(job, p).Some?
    ensures Tallies(job, MainAct(job, p).value)
  {
    if p.main.Acquiring? {
      CountsAfterUpdate(p.workers, p.main.next, MainAct(job, p).value.workers[p.main.next]);
    }
  }

  lemma Cancels<T>(a: multiset<T>, b: multiset<T>, x: multiset<T>)
    requires a + x == b + x
    ensures a == b
  {
    assert (a + x) - x == a && (b + x) - x == b;
  }

  lemma DrainsOne(errors: seq<Fault>, collected: seq<Fault>)
    requires errors != []
    ensures multiset(errors[1..]) + multiset(collected + [errors[0]]) == multiset(errors) + multiset(collected)
  {
    assert errors == [errors[0]] + errors[1..];
  }

  lemma ReportsWhenSilent(ws: seq<Worker>, i: nat, w: Worker)
    requires i < |ws| && Reported(ws[i]) == Reported(w)
    ensures Reports(ws[i := w]) == Reports(ws)
  {
    ReportsAfterUpdate(ws, i, w);
    Cancels(Reports(ws[i := w]), Reports(ws), AsMultiset(Reported(w)));
  }

  lemma ReportsWhenSent(ws: seq<Worker>, i: nat, e: Fault)
    requires i < |ws| && Reported(ws[i]) == None
    ensures Reports(ws[i := Releasing(Some(e))]) == Reports(ws) + multiset{e}
  {
    ReportsAfterUpdate(ws, i, Releasing(Some(e)));
    assert Reports(ws[i := Releasing(Some(e))]) + multiset{} == Reports(ws[i := Releasing(Some(e))]);
  }

  lemma MainKeepsErrors(job: Job, p: Pool)
    requires InStep(job, p) && ErrorsKept(p) && MainAct(job, p).Some?
    ensures ErrorsKept(MainAct(job, p).value)
  {
    hide Reports;
    if p.main.Acquiring? {
      ReportsWhenSilent(p.workers, p.main.next, MainAct(job, p).value.workers[p.main.next]);
    } else if p.main.Draining? && p.errors != [] {
      DrainsOne(p.errors, p.collected);
    }
  }

  lemma MainKeepsSound(job: Job, p: Pool)
    requires Sound(job, p) && MainAct(job, p).Some?
    ensures Sound(job, MainAct(job, p).value)
  {
    MainKeepsInStep(job, p);
    MainKeepsTallies(job, p);
    MainKeepsErrors(job, p);
  }

  /** A worker that is still running keeps the group above zero and the error channel short of full. */
  lemma RunningWorkerKeepsGroup(job: Job, p: Pool, i: nat)
    requires Sound(job, p) && i < |p.workers| && InGroup(p.workers[i])
    ensures p.group > 0 && !p.closed
    ensures HoldsToken(p.workers[i]) ==> p.held > 0
    ensures Reported(p.workers[i]) == None ==> |p.errors| < |job.names|
  {
    CountsAreBounded(p.workers);
    ReportsAreBounded(p.workers);
    assert |multiset(p.errors) + multiset(p.collected)| == |p.errors| + |p.collected|;
  }

  lemma WorkerKeepsTallies(job: Job, p: Pool, i: nat, outcome: Option<string>)
    requires InStep(job, p) && Tallies(job, p) && i < |p.workers| && WorkerAct(job, p, i, outcome).Some?
    ensures Tallies(job, WorkerAct(job, p, i, outcome).value)
  {
    hide HoldCount, GroupCount;
    var p' := WorkerAct(job, p, i, outcome).value;
    CountsAfterUpdate(p.workers, i, p'.workers[i]);
  }

  lemma SendsOne(errors: seq<Fault>, collected: seq<Fault>, e: Fault)
    ensures multiset(errors + [e]) + multiset(collected) == (multiset(errors) + multiset(collected)) + multiset{e}
  {
  }

  /** One worker changes its stage; only a send touches the errors. */
  lemma WorkerChange(job: Job, p: Pool, i: nat, outcome: Option<string>)
    requires |p.workers| == |job.names| && i < |p.workers| && WorkerAct(job, p, i, outcome).Some?
    ensures var p' := WorkerAct(job, p, i, outcome).value;
            && |p'.workers| == |p.workers| && p'.workers == p.workers[i := p'.workers[i]]
            && p'.main == p.main && p'.collected == p.collected && p'.closed == p.closed
            && (if p.workers[i].Sending?
                then p'.errors == p.errors + [p.workers[i].error] && p'.workers[i] == Releasing(Some(p.workers[i].error))
                else p'.errors == p.errors && Reported(p'.workers[i]) == Reported(p.workers[i]))
  {
  }

  lemma WorkerKeepsErrors(job: Job, p: Pool, i: nat, outcome: Option<string>)
    requires InStep(job, p) && ErrorsKept(p) && i < |p.workers| && WorkerAct(job, p, i, outcome).Some?
    ensures ErrorsKept(WorkerAct(job, p, i, outcome).value)
  {
    WorkerChange(job, p, i, outcome);
    ErrorsAfterChange(p, WorkerAct(job, p, i, outcome).value, i);
  }

  lemma ErrorsAfterChange(p: Pool, p': Pool, i: nat)
    requires ErrorsKept(p) && i < |p.workers| == |p'.workers| && p'.workers == p.workers[i := p'.workers[i]]
    requires p'.collected == p.collected
    requires if p.workers[i].Sending?
             then p'.errors == p.errors + [p.workers[i].error] && p'.workers[i] == Releasing(Some(p.workers[i].error))
             else p'.errors == p.errors && Reported(p'.workers[i]) == Reported(p.workers[i])
    ensures ErrorsKept(p')
  {
    if p.workers[i].Sending? {
      ReportsWhenSent(p.workers, i, p.workers[i].error);
      SendsOne(p.errors, p.collected, p.workers[i].error);
    } else {
      ReportsWhenSilent(p.workers, i, p'.workers[i]);
    }
  }

  lemma WorkerKeepsInStep(job: Job, p: Pool, i: nat, outcome: Option<string>)
    requires InStep(job, p) && i < |p.workers| && WorkerAct(job, p, i, outcome).Some? && p.group > 0 && !p.closed
    ensures InStep(job, WorkerAct(job, p, i, outcome).value)
  {
  }

  lemma WorkerKeepsSound(job: Job, p: Pool, i: nat, outcome: Option<string>)
    requires Sound(job, p) && i < |p.workers| && WorkerAct(job, p, i, outcome).Some?
    ensures Sound(job, WorkerAct(job, p, i, outcome).value)
  {
    RunningWorkerKeepsGroup(job, p, i);
    WorkerKeepsInStep(job, p, i, outcome);
    WorkerKeepsTallies(job, p, i, outcome);
    WorkerKeepsErrors(job, p, i, outcome);
  }

  lemma ActKeepsSound(job: Job, p: Pool, a: Action)
    requires Sound(job, p) && Act(job, p, a).Some?
    ensures Sound(job, Act(job, p, a).value)
  {
    match a
    case MainStep => MainKeepsSound(job, p);
    case WorkerStep(i, outcome) => WorkerKeepsSound(job, p, i, outcome);
  }

  lemma {:induction false} RunsAreSound(job: Job, actions: seq<Action>)
    requires Run(job, actions).Some?
    ensures Sound(job, Run(job, actions).value)
    decreases |actions|
  {
    if actions == [] {
      StartIsSound(job);
    } else {
      var front := actions[..|actions| - 1];
      RunsAreSound(job, front);
      ActKeepsSound(job, Run(job, front).value, actions[|actions| - 1]);
    }
  }

  /* ---- Safety of the channels ---- */

  /** The goroutines between taking a token and giving it back never outnumber the tokens. */
  lemma RunningWorkersWithinCap(job: Job, actions: seq<Action>)
    requires Run(job, actions).Some?
    ensures HoldCount(Run(job, actions).value.workers) <= job.tokens
  {
    RunsAreSound(job, actions);
  }

  lemma Extend(job: Job, actions: seq<Action>, a: Action) returns (more: seq<Action>)
    requires Run(job, actions).Some? && Act(job, Run(job, actions).value, a).Some?
    ensures Run(job, more) == Act(job, Run(job, actions).value, a)
  {
    more := actions + [a];
    assert more[..|more| - 1] == actions;
  }

  /** The main goroutine can start workers as long as there are tokens. */
  lemma {:induction false} StartMany(job: Job, k: nat) returns (actions: seq<Action>)
    requires k <= job.tokens && k <= |job.names|
    ensures Run(job, actions).Some? && Run(job, actions).value.main == Adding(k) && Run(job, actions).value.held == k
  {
    if k == 0 {
      actions := [];
    } else {
      hide Run;
      actions := StartMany(job, k - 1);
      actions := Extend(job, actions, MainStep);
      actions := Extend(job, actions, MainStep);
    }
  }

  /** How many goroutines are between taking and returning a token after an interleaving. */
  function RunningAfter(job: Job, actions: seq<Action>): nat
    requires Run(job, actions).Some?
  {
    HoldCount(Run(job, actions).value.workers)
  }

  /** The most goroutines that are ever between taking and returning a token: never more, and as many in some interleaving. */
  ghost predicate RunsAtMost(job: Job, most: int) {
    && (forall actions :: Run(job, actions).Some? ==> RunningAfter(job, actions) <= most)
    && (exists actions :: Run(job, actions).Some? && RunningAfter(job, actions) == most)
  }

  function Least(a: int, b: int): int {
    if a < b then a else b
  }

  lemma PeakIsTokensOrItems(job: Job)
    ensures RunsAtMost(job, Least(job.tokens, |job.names|))
  {
    forall actions | Run(job, actions).Some? ensures RunningAfter(job, actions) <= Least(job.tokens, |job.names|) {
      RunsAreSound(job, actions);
      CountsAreBounded(Run(job, actions).value.workers);
    }
    var actions := StartMany(job, Least(job.tokens, |job.names|));
    RunsAreSound(job, actions);
    assert RunningAfter(job, actions) == Least(job.tokens, |job.names|);
  }

  /**
    The configured concurrency is what bounds a call, and the bound is reached if
    there are as many items: deletions with at least one, creations with as many
    as configured; a negative number for creations makes no channel.
   */
  lemma ConcurrencyIsAsConfigured(names: seq<string>, marked: set<string>, concurrency: int)
    ensures concurrency >= 1 ==>
              RunsAtMost(Job(Deleting, names, DeleteTokens(concurrency, |names|), marked), Least(concurrency, |names|))
    ensures concurrency < 1 ==>
              RunsAtMost(Job(Deleting, names, DeleteTokens(concurrency, |names|), marked), Least(1, |names|))
    ensures concurrency >= 0 <==> EnsureTokens(concurrency).Some?
    ensures concurrency >= 0 ==>
              RunsAtMost(Job(Ensuring, names, EnsureTokens(concurrency).value, marked), Least(concurrency, |names|))
  {
    hide RunsAtMost;
    PeakIsTokensOrItems(Job(Deleting, names, DeleteTokens(concurrency, |names|), marked));
    if concurrency >= 0 {
      PeakIsTokensOrItems(Job(Ensuring, names, EnsureTokens(concurrency).value, marked));
    }
  }

  /** A worker past the semaphore never blocks: not on a full or closed error channel, an empty semaphore or a spent group. */
  lemma WorkersNeverBlock(job: Job, actions: seq<Action>, i: nat, outcome: Option<string>)
    requires Run(job, actions).Some? && i < |job.names| && InGroup(Run(job, actions).value.workers[i])
    ensures Act(job, Run(job, actions).value, WorkerStep(i, outcome)).Some? && !Run(job, actions).value.closed
  {
    RunsAreSound(job, actions);
    RunningWorkerKeepsGroup(job, Run(job, actions).value, i);
  }

  /* ---- Progress and termination ---- */

  /** No action is possible. */
  ghost predicate Stuck(job: Job, p: Pool)
    requires |p.workers| == |job.names|
  {
    forall a :: Act(job, p, a).None?
  }

  lemma SomeStepIsEnabled(job: Job, p: Pool)
    requires Sound(job, p) && !p.main.Returned? && (job.tokens >= 1 || |job.names| == 0)
    ensures !Stuck(job, p)
  {
    CountsAreBounded(p.workers);
    if Act(job, p, MainStep).None? {
      var i :| 0 <= i < |p.workers| && InGroup(p.workers[i]);
      RunningWorkerKeepsGroup(job, p, i);
      assert Act(job, p, WorkerStep(i, None)).Some?;
    }
  }

  function MainWeight(job: Job, main: Main): int {
    match main
    case Adding(i) => 2 * (|job.names| - i) + 4
    case Acquiring(i) => 2 * (|job.names| - i) + 3
    case Waiting => 3
    case Closing => 2
    case Draining => 1
    case Returned => 0
  }

  function Measure(job: Job, p: Pool): int {
    MainWeight(job, p.main) + TotalWeight(p.workers) + |p.errors|
  }

  lemma MainDescends(job: Job, p: Pool)
    requires InStep(job, p) && MainAct(job, p).Some?
    ensures 0 <= Measure(job, MainAct(job, p).value) < Measure(job, p)
  {
    if p.main.Acquiring? {
      CountsAfterUpdate(p.workers, p.main.next, MainAct(job, p).value.workers[p.main.next]);
    }
  }

  lemma WorkerDescends(job: Job, p: Pool, i: nat, outcome: Option<string>)
    requires InStep(job, p) && i < |p.workers| && WorkerAct(job, p, i, outcome).Some?
    ensures 0 <= Measure(job, WorkerAct(job, p, i, outcome).value) < Measure(job, p)
  {
    hide TotalWeight, HoldCount, GroupCount;
    WorkerChange(job, p, i, outcome);
    CountsAfterUpdate(p.workers, i, WorkerAct(job, p, i, outcome).value.workers[i]);
  }

  lemma EveryActionDescends(job: Job, p: Pool, a: Action)
    requires Sound(job, p) && Act(job, p, a).Some?
    ensures 0 <= Measure(job, Act(job, p, a).value) < Measure(job, p)
  {
    match a
    case MainStep => MainDescends(job, p);
    case WorkerStep(i, outcome) => WorkerDescends(job, p, i, outcome);
  }

  /** No interleaving is longer than eleven steps an item and four more: every one comes to an end. */
  lemma {:induction false} InterleavingsAreFinite(job: Job, actions: seq<Action>)
    requires Run(job, actions).Some?
    ensures |actions| + Measure(job, Run(job, actions).value) <= 11 * |job.names| + 4
    ensures 0 <= Measure(job, Run(job, actions).value)
    decreases |actions|
  {
    if actions == [] {
      FreshWorkers(Start(job).workers);
    } else {
      var front := actions[..|actions| - 1];
      InterleavingsAreFinite(job, front);
      RunsAreSound(job, front);
      EveryActionDescends(job, Run(job, front).value, actions[|actions| - 1]);
    }
  }

  /** No interleaving gets stuck before the return. */
  ghost predicate AlwaysReturns(job: Job) {
    forall actions :: Run(job, actions).Some? && Stuck(job, Run(job, actions).value) ==> Run(job, actions).value.main.Returned?
  }

  lemma FirstSendBlocks(job: Job)
    requires job.tokens == 0 && |job.names| > 0
    ensures exists actions :: Run(job, actions).Some? && Stuck(job, Run(job, actions).value) && !Run(job, actions).value.main.Returned?
  {
    var first := [MainStep];
    assert first[..|first| - 1] == [];
    assert Run(job, []) == Some(Start(job));
    assert Run(job, first) == MainAct(job, Start(job));
    var p := Run(job, first).value;
    assert forall i :: 0 <= i < |p.workers| ==> p.workers[i] == Unspawned;
    assert Stuck(job, p);
  }

  /**
    Every interleaving that cannot go on has returned, exactly when there is a
    token or nothing to do. Without a token the main goroutine blocks for good on
    its first send, as no worker is there to receive.
   */
  lemma ReturnsIffTokens(job: Job)
    ensures AlwaysReturns(job) <==> job.tokens >= 1 || |job.names| == 0
  {
    if job.tokens >= 1 || |job.names| == 0 {
      forall actions | Run(job, actions).Some? && Stuck(job, Run(job, actions).value)
        ensures Run(job, actions).value.main.Returned?
      {
        RunsAreSound(job, actions);
        if !Run(job, actions).value.main.Returned? {
          SomeStepIsEnabled(job, Run(job, actions).value);
        }
      }
    } else {
      FirstSendBlocks(job);
    }
  }

  /** A deletion returns whatever concurrency is configured; a creation of at least one pool only if it is positive. */
  lemma OnlyDeletionReturnsForAnyConcurrency(names: seq<string>, marked: set<string>, concurrency: int)
    ensures AlwaysReturns(Job(Deleting, names, DeleteTokens(concurrency, |names|), marked))
    ensures names != [] ==>
              (EnsureTokens(concurrency).Some? && AlwaysReturns(Job(Ensuring, names, EnsureTokens(concurrency).value, marked))
               <==> concurrency >= 1)
  {
    ReturnsIffTokens(Job(Deleting, names, DeleteTokens(concurrency, |names|), marked));
    if concurrency >= 0 {
      ReturnsIffTokens(Job(Ensuring, names, EnsureTokens(concurrency).value, marked));
    }
  }

  /* ---- What is returned ---- */

  ghost predicate Finished(job: Job, actions: seq<Action>) {
    Run(job, actions).Some? && Run(job, actions).value.main.Returned?
  }

  /** At the return every worker is gone, and the errors returned are exactly those the workers met, each as often as met. */
  lemma ReturnedErrorsAreTheFaults(job: Job, actions: seq<Action>)
    requires Finished(job, actions)
    ensures var p := Run(job, actions).value;
            && (forall i :: 0 <= i < |p.workers| ==> p.workers[i].Gone?)
            && multiset(p.collected) == Reports(p.workers)
            && (p.collected == [] <==> forall i :: 0 <= i < |p.workers| ==> p.workers[i] == Gone(None))
  {
    hide Reports, HoldCount;
    var p := Run(job, actions).value;
    RunsAreSound(job, actions);
    CountsAreBounded(p.workers);
    assert multiset(p.errors) == multiset{};
    NoReportsMeansNoFaults(p.workers);
    if p.collected != [] {
      assert p.collected[0] in multiset(p.collected);
    }
  }

  lemma EmptySum<T>(a: multiset<T>, b: multiset<T>)
    ensures a + b == multiset{} <==> a == multiset{} && b == multiset{}
  {
    assert |a + b| == |a| + |b|;
  }

  lemma EmptyIsNone(fault: Option<Fault>)
    ensures AsMultiset(fault) == multiset{} <==> fault == None
  {
    assert fault.Some? ==> |AsMultiset(fault)| == 1;
  }

  lemma {:induction false} NoReportsMeansNoFaults(ws: seq<Worker>)
    ensures Reports(ws) == multiset{} <==> forall i :: 0 <= i < |ws| ==> Reported(ws[i]) == None
    decreases |ws|
  {
    hide Reported, AsMultiset;
    if ws != [] {
      var last := |ws| - 1;
      NoReportsMeansNoFaults(ws[..last]);
      EmptySum(Reports(ws[..last]), AsMultiset(Reported(ws[last])));
      EmptyIsNone(Reported(ws[last]));
      assert forall i :: 0 <= i < last ==> ws[..last][i] == ws[i];
    }
  }
}
