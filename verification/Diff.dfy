/** Comparing the desired node pools with the listed ones. */
module Diff {
  import opened Common
  import opened NodePools

  datatype Desired = Desired(name: string, subblock: string, config: ConfigValue)

  datatype Differences = Differences(
    toCreate: seq<Desired>,
    toDeleteMissing: seq<string>,
    toDeleteUpdate: seq<string>,
    toDeleteError: seq<string>)

  datatype DiffError = CannotBuild(name: string, error: BuildError)

  type Refs = map<string, NodePoolRef>

  function BuildDesired(g: Gke, d: Desired): Result<NodePool, BuildError> {
    Build(g, d.name, d.subblock, d.config)
  }

  /** The hash label of the pool a desired entry builds. */
  function DesiredHash(g: Gke, d: Desired): string {
    match BuildDesired(g, d)
    case Success(np) => if LABEL_NODE_POOL_HASH in LabelsOf(np) then LabelsOf(np)[LABEL_NODE_POOL_HASH] else ""
    case Failure(_) => ""
  }

  datatype Verdict = Absent | Errored | Changed | Kept

  /** What a desired entry needs, given the listed pools by name. */
  function VerdictOf(g: Gke, refs: Refs, d: Desired): Verdict {
    if d.name !in refs then Absent
    else if refs[d.name].error then Errored
    else if LABEL_NODE_POOL_HASH in refs[d.name].labels && refs[d.name].labels[LABEL_NODE_POOL_HASH] != DesiredHash(g, d) then Changed
    else Kept
  }

  /** The listed pools by name; a later listing of a name replaces an earlier one. */
  function ByName(existing: seq<NodePoolRef>): Refs {
    if existing == [] then map[]
    else var last := existing[|existing| - 1]; ByName(existing[..|existing| - 1])[last.name := last]
  }

  ghost predicate Names(desired: seq<Desired>, name: string) {
    exists d :: d in desired && d.name == name
  }

  function Select(g: Gke, refs: Refs, desired: seq<Desired>, verdicts: set<Verdict>): seq<Desired> {
    if desired == [] then []
    else
      var d := desired[|desired| - 1];
      Select(g, refs, desired[..|desired| - 1], verdicts) + if VerdictOf(g, refs, d) in verdicts then [d] else []
  }

  function NamesOf(ds: seq<Desired>): (names: seq<string>)
    ensures |names| == |ds| && forall i :: 0 <= i < |ds| ==> names[i] == ds[i].name
  {
    seq(|ds|, i requires 0 <= i < |ds| => ds[i].name)
  }

  function Strays(existing: seq<NodePoolRef>, desiredNames: set<string>): seq<string> {
    if existing == [] then []
    else
      var r := existing[|existing| - 1];
      Strays(existing[..|existing| - 1], desiredNames) + if IsStaticRef(r) && r.name !in desiredNames then [r.name] else []
  }

  function FirstFailure(g: Gke, desired: seq<Desired>): Option<DiffError> {
    if desired == [] then None
    else
      var earlier := FirstFailure(g, desired[..|desired| - 1]);
      var d := desired[|desired| - 1];
      if earlier.Some? then earlier
      else if BuildDesired(g, d).Failure? then Some(CannotBuild(d.name, BuildDesired(g, d).error))
      else None
  }

  function NameSet(desired: seq<Desired>): set<string> {
    set i | 0 <= i < |desired| :: desired[i].name
  }

  function DiffOf(g: Gke, existing: seq<NodePoolRef>, desired: seq<Desired>): Result<Differences, DiffError> {
    var refs := ByName(existing);
    match FirstFailure(g, desired)
    case Some(e) => Failure(e)
    case None => Success(Differences(
      Select(g, refs, desired, NEEDS_CREATION),
      Strays(existing, NameSet(desired)),
      NamesOf(Select(g, refs, desired, {Changed})),
      NamesOf(Select(g, refs, desired, {Errored}))))
  }

  lemma {:induction false} FirstFailureIsFinal(g: Gke, desired: seq<Desired>, k: nat)
    requires k <= |desired| && FirstFailure(g, desired[..k]).Some?
    ensures FirstFailure(g, desired) == FirstFailure(g, desired[..k])
    decreases |desired| - k
  {
    if k == |desired| {
      assert desired[..k] == desired;
    } else {
      assert desired[..k + 1][..k] == desired[..k];
      FirstFailureIsFinal(g, desired, k + 1);
    }
  }

  lemma HashLabelIsDesiredHash(g: Gke, d: Desired)
    requires BuildDesired(g, d).Success?
    ensures var labels := LabelsOf(BuildDesired(g, d).value);
            LABEL_NODE_POOL_HASH in labels && labels[LABEL_NODE_POOL_HASH] == DesiredHash(g, d)
  {
    BuiltPoolListsAsAsked(g, d.name, d.subblock, d.config, "");
  }

  method IndexByName(existing: seq<NodePoolRef>) returns (existingMap: Refs)
    ensures existingMap == ByName(existing)
  {
    existingMap := map[];
    for i := 0 to |existing|
      invariant existingMap == ByName(existing[..i])
    {
      assert existing[..i + 1][..i] == existing[..i];
      existingMap := existingMap[existing[i].name := existing[i]];
    }
    assert existing[..|existing|] == existing;
  }

  const NEEDS_CREATION: set<Verdict> := {Absent, Errored, Changed}

  /** Extends the plan's three lists by one desired entry. */
  lemma SelectNext(g: Gke, refs: Refs, desired: seq<Desired>, i: nat, verdicts: set<Verdict>)
    requires i < |desired|
    ensures var before, after := Select(g, refs, desired[..i], verdicts), Select(g, refs, desired[..i + 1], verdicts);
            if VerdictOf(g, refs, desired[i]) in verdicts
            then after == before + [desired[i]] && NamesOf(after) == NamesOf(before) + [desired[i].name]
            else after == before
  {
    assert desired[..i + 1][..i] == desired[..i];
  }

  lemma NothingSelected(g: Gke, refs: Refs, desired: seq<Desired>, verdicts: set<Verdict>)
    requires desired == []
    ensures FirstFailure(g, desired) == None
    ensures Select(g, refs, desired, verdicts) == [] && NamesOf(Select(g, refs, desired, verdicts)) == []
  {
  }

  lemma FailureNext(g: Gke, desired: seq<Desired>, i: nat)
    requires i < |desired| && FirstFailure(g, desired[..i]) == None
    ensures FirstFailure(g, desired[..i + 1])
         == match BuildDesired(g, desired[i])
            case Failure(error) => Some(CannotBuild(desired[i].name, error))
            case Success(_) => None
  {
    assert desired[..i + 1][..i] == desired[..i];
  }

  method ClassifyDesired(g: Gke, refs: Refs, desired: seq<Desired>)
    returns (failure: Option<DiffError>, toCreate: seq<Desired>, toDeleteUpdate: seq<string>, toDeleteError: seq<string>)
    ensures failure == FirstFailure(g, desired)
    ensures failure == None ==>
              && toCreate == Select(g, refs, desired, NEEDS_CREATION)
              && toDeleteUpdate == NamesOf(Select(g, refs, desired, {Changed}))
              && toDeleteError == NamesOf(Select(g, refs, desired, {Errored}))
  {
    hide Build, DesiredHash, BuiltAs, CarriesOwnHash, FirstFailure, Select, NamesOf;
    NothingSelected(g, refs, desired[..0], NEEDS_CREATION);
    NothingSelected(g, refs, desired[..0], {Changed});
    NothingSelected(g, refs, desired[..0], {Errored});
    toCreate, toDeleteUpdate, toDeleteError := [], [], [];
    for i := 0 to |desired|
      invariant FirstFailure(g, desired[..i]) == None
      invariant toCreate == Select(g, refs, desired[..i], NEEDS_CREATION)
      invariant toDeleteUpdate == NamesOf(Select(g, refs, desired[..i], {Changed}))
      invariant toDeleteError == NamesOf(Select(g, refs, desired[..i], {Errored}))
    {
      var d := desired[i];
      FailureNext(g, desired, i);
      SelectNext(g, refs, desired, i, NEEDS_CREATION);
      SelectNext(g, refs, desired, i, {Changed});
      SelectNext(g, refs, desired, i, {Errored});
      var built := StaticNodePoolForSubBlock(g, d.name, d.subblock, d.config);
      if built.Failure? {
        FirstFailureIsFinal(g, desired, i + 1);
        return Some(CannotBuild(d.name, built.error)), [], [], [];
      }
      HashLabelIsDesiredHash(g, d);
      var desiredHash := LabelsOf(built.value)[LABEL_NODE_POOL_HASH];
      if d.name !in refs {
        toCreate := toCreate + [d];
        continue;
      }
      var existing := refs[d.name];
      if existing.error {
        toDeleteError := toDeleteError + [d.name];
        toCreate := toCreate + [d];
        continue;
      }
      if LABEL_NODE_POOL_HASH in existing.labels && existing.labels[LABEL_NODE_POOL_HASH] != desiredHash {
        toDeleteUpdate := toDeleteUpdate + [d.name];
        toCreate := toCreate + [d];
      }
    }
    assert desired[..|desired|] == desired;
    return None, toCreate, toDeleteUpdate, toDeleteError;
  }

  /** The loops of the source over maps and appended lists. */
  method DiffStaticNodePools(g: Gke, existingNodepools: seq<NodePoolRef>, desiredNodepools: seq<Desired>)
    returns (r: Result<Differences, DiffError>)
    ensures r == DiffOf(g, existingNodepools, desiredNodepools)
  {
    var existingMap := IndexByName(existingNodepools);

    var desiredNames: set<string> := {};
    for i := 0 to |desiredNodepools|
      invariant desiredNames == NameSet(desiredNodepools[..i])
    {
      desiredNames := desiredNames + {desiredNodepools[i].name};
    }
    assert desiredNodepools[..|desiredNodepools|] == desiredNodepools;

    var failure, toCreate, toDeleteUpdate, toDeleteError := ClassifyDesired(g, existingMap, desiredNodepools);
    if failure.Some? {
      return Failure(failure.value);
    }

    var toDeleteMissing := [];
    for i := 0 to |existingNodepools|
      invariant toDeleteMissing == Strays(existingNodepools[..i], desiredNames)
    {
      assert existingNodepools[..i + 1][..i] == existingNodepools[..i];
      var existing := existingNodepools[i];
      if !IsStaticRef(existing) {
        continue;
      }
      if existing.name !in desiredNames {
        toDeleteMissing := toDeleteMissing + [existing.name];
      }
    }
    assert existingNodepools[..|existingNodepools|] == existingNodepools;
    return Success(Differences(toCreate, toDeleteMissing, toDeleteUpdate, toDeleteError));
  }

  /* ---- The lists as sets ---- */

  predicate DistinctNames(desired: seq<Desired>) {
    forall i, j :: 0 <= i < j < |desired| ==> desired[i].name != desired[j].name
  }

  predicate DistinctRefs(existing: seq<NodePoolRef>) {
    forall i, j :: 0 <= i < j < |existing| ==> existing[i].name != existing[j].name
  }

  predicate AllBuild(g: Gke, desired: seq<Desired>) {
    forall d :: d in desired ==> BuildDesired(g, d).Success?
  }

  /** A round is planned only if every desired pool can be built. */
  lemma {:induction false} DiffSucceedsIffAllBuild(g: Gke, existing: seq<NodePoolRef>, desired: seq<Desired>)
    ensures DiffOf(g, existing, desired).Success? <==> AllBuild(g, desired)
    decreases |desired|
  {
    if desired != [] {
      var front, d := desired[..|desired| - 1], desired[|desired| - 1];
      DiffSucceedsIffAllBuild(g, existing, front);
      assert desired == front + [d];
    }
  }

  /** The first entry that cannot be built ends the comparison, with its error. */
  lemma {:induction false} DiffFailsAtFirstUnbuildable(g: Gke, existing: seq<NodePoolRef>, desired: seq<Desired>, k: nat)
    requires k < |desired| && BuildDesired(g, desired[k]).Failure?
    requires forall j :: 0 <= j < k ==> BuildDesired(g, desired[j]).Success?
    ensures DiffOf(g, existing, desired) == Failure(CannotBuild(desired[k].name, BuildDesired(g, desired[k]).error))
  {
    hide Build;
    var front := desired[..k];
    DiffSucceedsIffAllBuild(g, existing, front);
    assert FirstFailure(g, front) == None;
    assert desired[..k + 1][..k] == front;
    assert FirstFailure(g, desired[..k + 1]) == Some(CannotBuild(desired[k].name, BuildDesired(g, desired[k]).error));
    FirstFailureIsFinal(g, desired, k + 1);
  }

  lemma {:induction false} SelectMembers(g: Gke, refs: Refs, desired: seq<Desired>, verdicts: set<Verdict>, d: Desired)
    ensures d in Select(g, refs, desired, verdicts) <==> d in desired && VerdictOf(g, refs, d) in verdicts
    decreases |desired|
  {
    if desired != [] {
      SelectMembers(g, refs, desired[..|desired| - 1], verdicts, d);
      assert desired == desired[..|desired| - 1] + [desired[|desired| - 1]];
    }
  }

  lemma SelectNames(g: Gke, refs: Refs, desired: seq<Desired>, verdicts: set<Verdict>, name: string)
    ensures name in NamesOf(Select(g, refs, desired, verdicts))
       <==> exists d :: d in desired && d.name == name && VerdictOf(g, refs, d) in verdicts
  {
    var ds := Select(g, refs, desired, verdicts);
    forall d ensures d in ds <==> d in desired && VerdictOf(g, refs, d) in verdicts {
      SelectMembers(g, refs, desired, verdicts, d);
    }
    if name in NamesOf(ds) {
      var i :| 0 <= i < |ds| && NamesOf(ds)[i] == name;
      assert ds[i] in ds;
    }
    forall d | d in ds && d.name == name ensures name in NamesOf(ds) {
      var i :| 0 <= i < |ds| && ds[i] == d;
      assert NamesOf(ds)[i] == name;
    }
  }

  lemma {:induction false} StraysExactly(existing: seq<NodePoolRef>, desiredNames: set<string>, name: string)
    ensures name in Strays(existing, desiredNames)
       <==> exists r :: r in existing && r.name == name && IsStaticRef(r) && name !in desiredNames
    decreases |existing|
  {
    if existing != [] {
      StraysExactly(existing[..|existing| - 1], desiredNames, name);
      assert existing == existing[..|existing| - 1] + [existing[|existing| - 1]];
    }
  }

  lemma {:induction false} ByNameExactly(existing: seq<NodePoolRef>)
    requires DistinctRefs(existing)
    ensures forall r :: r in existing ==> r.name in ByName(existing) && ByName(existing)[r.name] == r
    ensures forall n :: n in ByName(existing) ==> ByName(existing)[n] in existing && ByName(existing)[n].name == n
    decreases |existing|
  {
    if existing != [] {
      var front, last := existing[..|existing| - 1], existing[|existing| - 1];
      ByNameExactly(front);
      assert existing == front + [last];
      forall r | r in front ensures r.name != last.name {
        var i :| 0 <= i < |front| && front[i] == r;
        assert existing[i].name != existing[|existing| - 1].name;
      }
    }
  }

  /** `xs` arises from `ys` by leaving elements out. */
  ghost predicate Subsequence<T>(xs: seq<T>, ys: seq<T>) {
    || xs == []
    || (ys != [] && (
          || Subsequence(xs, ys[..|ys| - 1])
          || (xs[|xs| - 1] == ys[|ys| - 1] && Subsequence(xs[..|xs| - 1], ys[..|ys| - 1]))))
  }

  lemma {:induction false} SelectKeepsOrder(g: Gke, refs: Refs, desired: seq<Desired>, verdicts: set<Verdict>)
    ensures Subsequence(Select(g, refs, desired, verdicts), desired)
    decreases |desired|
  {
    if desired != [] {
      var front := desired[..|desired| - 1];
      SelectKeepsOrder(g, refs, front, verdicts);
      var s := Select(g, refs, front, verdicts);
      if VerdictOf(g, refs, desired[|desired| - 1]) in verdicts {
        assert Select(g, refs, desired, verdicts)[..|s|] == s;
      } else {
        assert Select(g, refs, desired, verdicts) == s;
      }
    }
  }

  /** The members of the four lists, whatever the configuration repeats. */
  lemma DiffMembers(g: Gke, existing: seq<NodePoolRef>, desired: seq<Desired>)
    requires DiffOf(g, existing, desired).Success?
    ensures var diff, refs := DiffOf(g, existing, desired).value, ByName(existing);
            && (forall n :: n in diff.toDeleteMissing <==>
                  exists r :: r in existing && r.name == n && IsStaticRef(r) && !Names(desired, n))
            && (forall n :: n in diff.toDeleteUpdate <==>
                  exists d :: d in desired && d.name == n && VerdictOf(g, refs, d) == Changed)
            && (forall n :: n in diff.toDeleteError <==>
                  exists d :: d in desired && d.name == n && VerdictOf(g, refs, d) == Errored)
            && (forall d :: d in diff.toCreate <==> (d in desired && VerdictOf(g, refs, d) != Kept))
  {
    var diff, refs := DiffOf(g, existing, desired).value, ByName(existing);
    forall n
      ensures n in diff.toDeleteMissing <==> exists r :: r in existing && r.name == n && IsStaticRef(r) && !Names(desired, n)
    {
      StraysExactly(existing, NameSet(desired), n);
      NameSetExactly(desired, n);
    }
    forall n
      ensures n in diff.toDeleteUpdate <==> exists d :: d in desired && d.name == n && VerdictOf(g, refs, d) == Changed
      ensures n in diff.toDeleteError <==> exists d :: d in desired && d.name == n && VerdictOf(g, refs, d) == Errored
    {
      SelectNames(g, refs, desired, {Changed}, n);
      SelectNames(g, refs, desired, {Errored}, n);
    }
    forall d
      ensures d in diff.toCreate <==> (d in desired && VerdictOf(g, refs, d) != Kept)
    {
      SelectMembers(g, refs, desired, NEEDS_CREATION, d);
    }
  }

  /** With distinct names the verdict on a name is that on its one entry and its one listed pool. */
  lemma VerdictsByName(g: Gke, existing: seq<NodePoolRef>, desired: seq<Desired>, d: Desired)
    requires DistinctRefs(existing) && d in desired
    ensures VerdictOf(g, ByName(existing), d) == Absent <==> forall r :: r in existing ==> r.name != d.name
    ensures VerdictOf(g, ByName(existing), d) == Errored <==> exists r :: r in existing && r.name == d.name && r.error
    ensures VerdictOf(g, ByName(existing), d) == Changed <==> exists r :: r in existing && ChangedBy(g, r, d)
  {
    ByNameExactly(existing);
  }

  /** A healthy listed pool whose hash label differs from that of the desired entry of its name. */
  ghost predicate ChangedBy(g: Gke, r: NodePoolRef, d: Desired) {
    && r.name == d.name && !r.error
    && LABEL_NODE_POOL_HASH in r.labels && r.labels[LABEL_NODE_POOL_HASH] != DesiredHash(g, d)
  }

  /**
    The four lists are an exact partition of what is to be done: which names each
    deletion list holds, that no name is on two of them, and that the creations
    are, in the order of the configuration, precisely the absent entries and
    those on the update and error lists.
   */
  lemma DiffIsAnExactPartition(g: Gke, existing: seq<NodePoolRef>, desired: seq<Desired>)
    requires DistinctNames(desired) && DistinctRefs(existing) && DiffOf(g, existing, desired).Success?
    ensures var diff := DiffOf(g, existing, desired).value;
            && (forall n :: n in diff.toDeleteMissing <==>
                  exists r :: r in existing && r.name == n && IsStaticRef(r) && !Names(desired, n))
            && (forall n :: n in diff.toDeleteError <==>
                  (Names(desired, n) && exists r :: r in existing && r.name == n && r.error))
            && (forall n :: n in diff.toDeleteUpdate <==>
                  exists d :: d in desired && d.name == n && exists r :: r in existing && ChangedBy(g, r, d))
            && (forall d :: d in diff.toCreate <==> (d in desired &&
                  ((forall r :: r in existing ==> r.name != d.name) || d.name in diff.toDeleteUpdate || d.name in diff.toDeleteError)))
            && (forall n :: n in diff.toDeleteMissing ==> n !in diff.toDeleteError && n !in diff.toDeleteUpdate)
            && (forall n :: n in diff.toDeleteError ==> n !in diff.toDeleteUpdate)
            && Subsequence(diff.toCreate, desired)
  {
    DiffMembers(g, existing, desired);
    SelectKeepsOrder(g, ByName(existing), desired, NEEDS_CREATION);
    forall d | d in desired
      ensures VerdictOf(g, ByName(existing), d) == Absent <==> forall r :: r in existing ==> r.name != d.name
      ensures VerdictOf(g, ByName(existing), d) == Errored <==> exists r :: r in existing && r.name == d.name && r.error
      ensures VerdictOf(g, ByName(existing), d) == Changed <==> exists r :: r in existing && ChangedBy(g, r, d)
    {
      VerdictsByName(g, existing, desired, d);
    }
    OneEntryPerName(desired);
  }

  lemma OneEntryPerName(desired: seq<Desired>)
    requires DistinctNames(desired)
    ensures forall d, e :: d in desired && e in desired && d.name == e.name ==> d == e
  {
  }

  lemma NameSetExactly(desired: seq<Desired>, n: string)
    ensures n in NameSet(desired) <==> Names(desired, n)
  {
    if Names(desired, n) {
      var d :| d in desired && d.name == n;
      var i :| 0 <= i < |desired| && desired[i] == d;
    }
  }

  /**
    Changes are detected exactly, on the resolved specification: a healthy pool
    that was built from one request is put on the update list for another
    request of its name iff the two do not resolve alike, provided the hash does
    not collide on the two.
   */
  lemma ChangeDetectionIsExact(g: Gke, refs: Refs, d: Desired, oldSubblock: string, oldConfig: ConfigValue, status: string)
    requires Build(g, d.name, oldSubblock, oldConfig).Success?
    requires var built := Build(g, d.name, oldSubblock, oldConfig).value;
             && d.name in refs && refs[d.name] == RefOf(ClusterPool(built, status)) && status != "ERROR"
             && (g.hash(HashDataOf(built)) == DesiredHash(g, d) ==>
                   BuildDesired(g, d).Success? && HashDataOf(built) == HashDataOf(BuildDesired(g, d).value))
    ensures VerdictOf(g, refs, d) == if SameResolvedSpec(g, d.name, oldSubblock, oldConfig, d.subblock, d.config) then Kept else Changed
  {
    BuiltPoolListsAsAsked(g, d.name, oldSubblock, oldConfig, status);
    BuiltPoolListsAsAsked(g, d.name, d.subblock, d.config, status);
    HashedDataIsTheResolvedSpec(g, d.name, oldSubblock, oldConfig, d.subblock, d.config);
  }
}
