/** Exactly when a plan's deletion lists hold a name twice. */
module RepeatedNames {
  import opened NodePools
  import opened Diff
  import opened Planning
  import opened Rounds

  predicate Twice(names: seq<string>, i: nat, j: nat, n: string) {
    i < j < |names| && names[i] == n && names[j] == n
  }

  /** A name stands on a list at least twice. */
  ghost predicate Repeats(names: seq<string>, n: string) {
    exists i: nat, j: nat :: Twice(names, i, j, n)
  }

  lemma RepeatsLast(names: seq<string>, last: string, n: string)
    ensures Repeats(names + [last], n) <==> Repeats(names, n) || (last == n && n in names)
  {
    var all := names + [last];
    if i: nat, j: nat :| Twice(all, i, j, n) {
      if j < |names| {
        assert Twice(names, i, j, n);
      } else {
        assert names[i] == n;
      }
    }
    if i: nat, j: nat :| Twice(names, i, j, n) {
      assert Twice(all, i, j, n);
    }
    if last == n && n in names {
      var i: nat :| i < |names| && names[i] == n;
      assert Twice(all, i, |names|, n);
    }
  }

  /** Two entries of one name with a verdict. */
  ghost predicate TwoEntries(g: Gke, refs: Refs, desired: seq<Desired>, verdict: Verdict, n: string) {
    exists i: nat, j: nat :: TwoAt(g, refs, desired, verdict, n, i, j)
  }

  ghost predicate TwoAt(g: Gke, refs: Refs, desired: seq<Desired>, verdict: Verdict, n: string, i: nat, j: nat) {
    i < j < |desired| && Meets(g, refs, desired[i], verdict, n) && Meets(g, refs, desired[j], verdict, n)
  }

  ghost predicate Meets(g: Gke, refs: Refs, d: Desired, verdict: Verdict, n: string) {
    d.name == n && VerdictOf(g, refs, d) == verdict
  }

  lemma TwoEntriesLast(g: Gke, refs: Refs, front: seq<Desired>, last: Desired, verdict: Verdict, n: string)
    ensures TwoEntries(g, refs, front + [last], verdict, n)
       <==> TwoEntries(g, refs, front, verdict, n)
            || (Meets(g, refs, last, verdict, n) && exists d :: d in front && Meets(g, refs, d, verdict, n))
  {
    hide Meets;
    var all := front + [last];
    if i: nat, j: nat :| TwoAt(g, refs, all, verdict, n, i, j) {
      if j < |front| {
        assert TwoAt(g, refs, front, verdict, n, i, j);
      } else {
        assert front[i] in front && all[i] == front[i];
      }
    }
    if i: nat, j: nat :| TwoAt(g, refs, front, verdict, n, i, j) {
      assert all[i] == front[i] && all[j] == front[j];
      assert TwoAt(g, refs, all, verdict, n, i, j);
    }
    if d :| Meets(g, refs, last, verdict, n) && d in front && Meets(g, refs, d, verdict, n) {
      var i: nat :| i < |front| && front[i] == d;
      assert all[i] == d && all[|front|] == last;
      assert TwoAt(g, refs, all, verdict, n, i, |front|);
    }
  }

  lemma {:induction false} SelectRepeats(g: Gke, refs: Refs, desired: seq<Desired>, verdict: Verdict, n: string)
    ensures Repeats(NamesOf(Select(g, refs, desired, {verdict})), n) <==> TwoEntries(g, refs, desired, verdict, n)
    decreases |desired|
  {
    hide Repeats, TwoEntries;
    if desired == [] {
      NothingRepeats(g, refs, verdict, n);
    } else {
      var front, last := desired[..|desired| - 1], desired[|desired| - 1];
      assert desired == front + [last];
      SelectRepeats(g, refs, front, verdict, n);
      SelectNames(g, refs, front, {verdict}, n);
      TwoEntriesLast(g, refs, front, last, verdict, n);
      var chosen := Select(g, refs, front, {verdict});
      RepeatsLast(NamesOf(chosen), last.name, n);
      assert NamesOf(chosen + [last]) == NamesOf(chosen) + [last.name] && chosen + [] == chosen;
      assert n in NamesOf(chosen) <==> exists d :: d in front && Meets(g, refs, d, verdict, n);
    }
  }

  lemma NothingRepeats(g: Gke, refs: Refs, verdict: Verdict, n: string)
    ensures !Repeats(NamesOf(Select(g, refs, [], {verdict})), n) && !TwoEntries(g, refs, [], verdict, n)
  {
  }

  lemma {:induction false} UnlockedRepeats(names: seq<string>, inUse: set<string>, n: string)
    ensures Repeats(Unlocked(names, inUse), n) <==> Repeats(names, n) && n !in inUse
    decreases |names|
  {
    if names != [] {
      hide Repeats;
      var front, last := names[..|names| - 1], names[|names| - 1];
      assert names == front + [last];
      UnlockedRepeats(front, inUse, n);
      UnlockedMembers(front, inUse, n);
      RepeatsLast(front, last, n);
      RepeatsLast(Unlocked(front, inUse), last, n);
      assert Unlocked(front, inUse) + [] == Unlocked(front, inUse);
    }
  }

  lemma {:induction false} StraysRepeatNothing(existing: seq<NodePoolRef>, desiredNames: set<string>, n: string)
    requires DistinctRefs(existing)
    ensures !Repeats(Strays(existing, desiredNames), n)
    decreases |existing|
  {
    if existing != [] {
      var front, last := existing[..|existing| - 1], existing[|existing| - 1];
      StraysRepeatNothing(front, desiredNames, n);
      StraysExactly(front, desiredNames, n);
      RepeatsLast(Strays(front, desiredNames), last.name, n);
      assert Strays(front, desiredNames) + [] == Strays(front, desiredNames);
    }
  }

  /** The entries of the configuration that put a name on a stage's list twice. */
  ghost predicate ListedTwice(g: Gke, refs: Refs, desired: seq<Desired>, inUse: set<string>, stage: Stage, n: string)
    requires !stage.Creating?
  {
    match stage
    case DeletingMissing => false
    case DeletingErrored => TwoEntries(g, refs, desired, Errored, n)
    case DeletingUpdated => TwoEntries(g, refs, desired, Changed, n) && n !in inUse
  }

  /**
    Exactly which deletion lists of a plan repeat a name: those for entries in
    ERROR, and for changed entries that no slice locks, when the configuration
    has two such entries of one name. The list of strays never does.
   */
  lemma DeletionListsRepeatExactly(g: Gke, existing: seq<NodePoolRef>, desired: seq<Desired>, inUse: set<string>, stage: Stage, n: string)
    requires DistinctRefs(existing) && DiffOf(g, existing, desired).Success? && !stage.Creating?
    ensures Repeats(StageNames(PlanOf(g, existing, desired, inUse), stage), n)
       <==> ListedTwice(g, ByName(existing), desired, inUse, stage, n)
  {
    hide Repeats, TwoEntries;
    var diff, refs := DiffOf(g, existing, desired).value, ByName(existing);
    StraysRepeatNothing(existing, NameSet(desired), n);
    UnlockedRepeats(diff.toDeleteMissing, inUse, n);
    SelectRepeats(g, refs, desired, Errored, n);
    SelectRepeats(g, refs, desired, Changed, n);
    UnlockedRepeats(diff.toDeleteUpdate, inUse, n);
  }

  ghost predicate NoRepeats(names: seq<string>) {
    forall n :: !Repeats(names, n)
  }

  /** The deletion lists hold each name once in all. */
  ghost predicate ListsApart(plan: Plan) {
    && NoRepeats(plan.missing) && NoRepeats(plan.errors) && NoRepeats(plan.updates)
    && (forall n :: n in plan.missing ==> n !in plan.errors && n !in plan.updates)
    && (forall n :: n in plan.errors ==> n !in plan.updates)
  }

  lemma DistinctNamesListNothingTwice(g: Gke, refs: Refs, desired: seq<Desired>, inUse: set<string>, stage: Stage, n: string)
    requires DistinctNames(desired) && !stage.Creating?
    ensures !ListedTwice(g, refs, desired, inUse, stage, n)
  {
  }

  /** With distinct names, no name is on the deletion lists twice. */
  lemma PlannedListsApart(g: Gke, listing: seq<NodePoolRef>, desired: seq<Desired>, inUse: set<string>)
    requires DistinctRefs(listing) && DistinctNames(desired) && DiffOf(g, listing, desired).Success?
    ensures ListsApart(PlanOf(g, listing, desired, inUse))
  {
    var diff, refs, plan := DiffOf(g, listing, desired).value, ByName(listing), PlanOf(g, listing, desired, inUse);
    DiffIsAnExactPartition(g, listing, desired);
    PlanMembers(diff, refs, inUse);
    assert plan == LockFilter(diff, refs, inUse);
    hide DiffOf, PlanOf, LockFilter, Repeats, ListedTwice;
    forall stage: Stage, n | !stage.Creating? ensures !Repeats(StageNames(plan, stage), n) {
      DeletionListsRepeatExactly(g, listing, desired, inUse, stage, n);
      DistinctNamesListNothingTwice(g, refs, desired, inUse, stage, n);
    }
    assert StageNames(plan, DeletingMissing) == plan.missing;
    assert StageNames(plan, DeletingErrored) == plan.errors;
    assert StageNames(plan, DeletingUpdated) == plan.updates;
  }
}
