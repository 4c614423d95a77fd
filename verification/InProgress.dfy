/**
  What the worker pools do to the in-progress set and to the service: which names
  are marked when, and that every item is called once.
 */
module InProgress {
  import opened Common
  import opened Workers

  predicate IsDuplicate(fault: Option<Fault>) {
    fault.Some? && fault.value.cause.Duplicate?
  }

  /** The error a worker has met so far. */
  function FaultOf(w: Worker): Option<Fault> {
    match w
    case Unmarking(fault) => fault
    case Sending(e) => Some(e)
    case Releasing(fault) => fault
    case Signalling(fault) => fault
    case Gone(fault) => fault
    case _ => None
  }

  /** The worker's item is settled: called, or refused as a duplicate. */
  predicate Settled(w: Worker) {
    w.Unmarking? || w.Sending? || w.Releasing? || w.Signalling? || w.Gone?
  }

  predicate HasCalled(w: Worker) {
    Settled(w) && !IsDuplicate(FaultOf(w))
  }

  /** Between the store and the deferred removal of the worker's name. */
  predicate HoldsMark(w: Worker) {
    w.Calling? || w.Unmarking?
  }

  predicate DistinctItems(job: Job) {
    forall i, j :: 0 <= i < j < |job.names| ==> job.names[i] != job.names[j]
  }

  /* ---- Every item is called once ---- */

  function TimesCalled(calls: seq<nat>, i: nat): nat {
    if calls == [] then 0 else TimesCalled(calls[..|calls| - 1], i) + One(calls[|calls| - 1] == i)
  }

  /** Worker `i`'s item has been called as often as its stage says, and its error names its item. */
  ghost predicate CallFits(job: Job, p: Pool, i: nat)
    requires i < |p.workers| == |job.names|
  {
    && TimesCalled(p.calls, i) == One(HasCalled(p.workers[i]))
    && (FaultOf(p.workers[i]).Some? ==> FaultOf(p.workers[i]).value.name == job.names[i])
  }

  ghost predicate CalledOnce(job: Job, p: Pool) {
    && |p.workers| == |job.names|
    && forall i :: 0 <= i < |p.workers| ==> CallFits(job, p, i)
  }

  lemma OneMoreCall(calls: seq<nat>, i: nat, j: nat)
    ensures TimesCalled(calls + [i], j) == TimesCalled(calls, j) + One(i == j)
  {
    assert (calls + [i])[..|calls + [i]| - 1] == calls;
  }

  lemma WorkerKeepsCall(job: Job, p: Pool, i: nat, outcome: Option<string>, j: nat)
    requires j < |p.workers| == |job.names| && CallFits(job, p, j) && i < |p.workers| && CallFits(job, p, i)
    requires WorkerAct(job, p, i, outcome).Some?
    ensures |WorkerAct(job, p, i, outcome).value.workers| == |job.names| && CallFits(job, WorkerAct(job, p, i, outcome).value, j)
  {
    hide TimesCalled;
    OneMoreCall(p.calls, i, j);
  }

  lemma ActKeepsCalls(job: Job, p: Pool, a: Action)
    requires CalledOnce(job, p) && InStep(job, p) && Act(job, p, a).Some?
    ensures CalledOnce(job, Act(job, p, a).value)
  {
    KeepsWorkers(job, p, a);
    var p' := Act(job, p, a).value;
    forall j | 0 <= j < |p.workers| ensures CallFits(job, p', j) {
      assert CallFits(job, p, j);
      match a
      case MainStep =>
        assert p'.calls == p.calls && HasCalled(p'.workers[j]) == HasCalled(p.workers[j]);
      case WorkerStep(i, outcome) =>
        assert CallFits(job, p, i);
        WorkerKeepsCall(job, p, i, outcome, j);
    }
  }

  lemma {:induction false} RunsCallOnce(job: Job, actions: seq<Action>)
    requires Run(job, actions).Some?
    ensures CalledOnce(job, Run(job, actions).value)
    decreases |actions|
  {
    if actions != [] {
      var front, a := actions[..|actions| - 1], actions[|actions| - 1];
      RunsCallOnce(job, front);
      RunsAreSound(job, front);
      ActKeepsCalls(job, Run(job, front).value, a);
    }
  }

  /** At the return, each item has been passed to the service exactly once, unless it was refused as a duplicate. */
  lemma EachItemIsCalledOnce(job: Job, actions: seq<Action>, i: nat)
    requires Finished(job, actions) && i < |job.names|
    ensures var p := Run(job, actions).value;
            && p.workers[i].Gone?
            && TimesCalled(p.calls, i) == One(!IsDuplicate(p.workers[i].fault))
  {
    RunsCallOnce(job, actions);
    ReturnedErrorsAreTheFaults(job, actions);
    assert CallFits(job, Run(job, actions).value, i);
  }

  /* ---- The in-progress set of one deletion ---- */

  ghost predicate MarkedBy(job: Job, p: Pool, n: string)
    requires |p.workers| == |job.names|
  {
    exists i :: 0 <= i < |p.workers| && HoldsMark(p.workers[i]) && job.names[i] == n
  }

  ghost predicate MarksFit(job: Job, p: Pool) {
    && |p.workers| == |job.names|
    && (forall n :: n in p.marked <==> n in job.marked || MarkedBy(job, p, n))
    && (forall i :: 0 <= i < |p.workers| && (p.workers[i].Marking? || HoldsMark(p.workers[i]) || HasCalled(p.workers[i])) ==>
          job.names[i] !in job.marked)
    && (forall i :: 0 <= i < |p.workers| && IsDuplicate(FaultOf(p.workers[i])) ==> job.names[i] in job.marked)
  }

  lemma MarksAfterWorker(job: Job, p: Pool, i: nat, outcome: Option<string>)
    requires job.kind.Deleting? && DistinctItems(job) && MarksFit(job, p)
    requires i < |p.workers| && WorkerAct(job, p, i, outcome).Some?
    ensures MarksFit(job, WorkerAct(job, p, i, outcome).value)
  {
    var p' := WorkerAct(job, p, i, outcome).value;
    WorkerChange(job, p, i, outcome);
    assert forall j :: 0 <= j < |p.workers| && j != i ==> p'.workers[j] == p.workers[j] && job.names[j] != job.names[i];
    forall n ensures n in p'.marked <==> n in job.marked || MarkedBy(job, p', n) {
      assert n in p.marked <==> n in job.marked || MarkedBy(job, p, n);
      if n != job.names[i] {
        assert MarkedBy(job, p', n) <==> MarkedBy(job, p, n);
      } else {
        assert MarkedBy(job, p', n) <==> HoldsMark(p'.workers[i]);
        assert MarkedBy(job, p, n) <==> HoldsMark(p.workers[i]);
      }
    }
  }

  /** The main goroutine touches no mark, and starts workers before their check. */
  lemma MainChange(job: Job, p: Pool)
    requires job.kind.Deleting? && InStep(job, p) && MainAct(job, p).Some?
    ensures var p' := MainAct(job, p).value;
            && p'.marked == p.marked && |p'.workers| == |p.workers|
            && forall i :: 0 <= i < |p.workers| ==> p'.workers[i] == p.workers[i] || (p'.workers[i].Checking? && p.workers[i].Unspawned?)
  {
  }

  lemma MarksAfterMain(job: Job, p: Pool)
    requires job.kind.Deleting? && MarksFit(job, p) && Sound(job, p) && MainAct(job, p).Some?
    ensures MarksFit(job, MainAct(job, p).value)
  {
    MainChange(job, p);
    hide MainAct, Sound;
    var p' := MainAct(job, p).value;
    assert forall j :: 0 <= j < |p.workers| ==> (HoldsMark(p'.workers[j]) <==> HoldsMark(p.workers[j]));
    forall n ensures MarkedBy(job, p', n) <==> MarkedBy(job, p, n) {
    }
  }

  /**
    For one deletion with distinct names, and no other caller, the set holds at
    every moment what it held on entry and the names of the workers between their
    store and their removal, and a duplicate is refused only for a name already
    there.
   */
  lemma {:induction false} MarksAreExact(job: Job, actions: seq<Action>)
    requires job.kind.Deleting? && DistinctItems(job) && Run(job, actions).Some?
    ensures MarksFit(job, Run(job, actions).value)
    decreases |actions|
  {
    if actions != [] {
      var front, a := actions[..|actions| - 1], actions[|actions| - 1];
      MarksAreExact(job, front);
      RunsAreSound(job, front);
      var p := Run(job, front).value;
      match a
      case MainStep => MarksAfterMain(job, p);
      case WorkerStep(i, outcome) => MarksAfterWorker(job, p, i, outcome);
    }
  }

  /** An item whose name was marked on entry was refused without a call; any other was called once. */
  ghost predicate Served(job: Job, p: Pool, i: nat)
    requires i < |job.names|
  {
    && i < |p.workers|
    && (job.names[i] in job.marked <==> p.workers[i] == Gone(Some(Fault(job.names[i], Duplicate))))
    && TimesCalled(p.calls, i) == One(job.names[i] !in job.marked)
  }

  /** A worker that is gone has called the service unless it was refused, and was refused exactly if its name was marked on entry. */
  lemma GoneIsServed(job: Job, p: Pool, i: nat)
    requires MarksFit(job, p) && CalledOnce(job, p) && i < |p.workers| && p.workers[i].Gone?
    ensures Served(job, p, i)
  {
    hide TimesCalled;
    assert CallFits(job, p, i);
  }

  lemma GoneMarkNothing(job: Job, p: Pool)
    requires MarksFit(job, p) && forall i :: 0 <= i < |p.workers| ==> p.workers[i].Gone?
    ensures p.marked == job.marked
  {
    assert forall n :: n in p.marked <==> n in job.marked;
  }

  /** After the return the set is as it was, and a name was called iff it was free on entry and refused iff it was not. */
  lemma DeletionRestoresMarks(job: Job, actions: seq<Action>)
    requires job.kind.Deleting? && DistinctItems(job) && Finished(job, actions)
    ensures Run(job, actions).value.marked == job.marked
    ensures forall i :: 0 <= i < |job.names| ==> Served(job, Run(job, actions).value, i)
  {
    var p := Run(job, actions).value;
    MarksAreExact(job, actions);
    ReturnedErrorsAreTheFaults(job, actions);
    RunsCallOnce(job, actions);
    hide Run, MarksFit, CalledOnce, Served, Reports;
    GoneMarkNothing(job, p);
    forall i | 0 <= i < |job.names| ensures Served(job, p, i) {
      GoneIsServed(job, p, i);
    }
  }
}
