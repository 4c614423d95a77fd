/**
  What sharing one label map does to the labels of the desired pools, and exactly
  when each pool still has the labels its own entry asks for.
 */
module Aliasing {
  import opened Common
  import opened SubBlocks
  import opened Naming
  import opened NodePools
  import opened Diff
  import opened Config
  import opened Expansion

  lemma {:induction false} BatchesAreOfEntries(def: Option<ConfigValue>, shared: Option<Labels>, es: seq<Entry>)
    requires Batches(def, shared, es).Success?
    ensures var bs := Batches(def, shared, es).value;
            |bs| == |es| && forall m :: 0 <= m < |es| ==> BatchOf(def, shared, es[m]) == Success(bs[m])
    decreases |es|
  {
    hide BatchOf;
    if es != [] {
      BatchesAreOfEntries(def, shared, es[..|es| - 1]);
    }
  }

  /** Everything of a configuration but its labels. */
  function Unlabelled(c: ConfigValue): ConfigValue {
    c.(nodeLabels := None)
  }

  function LabelsFrom(c: ConfigValue): Labels {
    OrElse(c.nodeLabels, map[])
  }

  /** A configuration that merging an entry's block with the default should give, but for shared labels. */
  ghost predicate Merged(def: Option<ConfigValue>, es: seq<Entry>, own: Option<ConfigValue>, config: ConfigValue) {
    match def
    case None => own == Some(config)
    case Some(d) =>
      && (if own.Some? then TakesOver(config, d, own.value) else Unlabelled(config) == Unlabelled(d))
      && if d.nodeLabels.Some? then config.nodeLabels == Some(d.nodeLabels.value + AllOverrides(es))
         else LabelsFrom(config) == Overrides(own)
  }

  /** A desired pool for one index of an entry's range. */
  ghost predicate IsFor(project: string, e: Entry, index: int, d: Desired) {
    && ParseSubBlocks(e.subblocks).Success?
    && ParseSubBlocks(e.subblocks).value.0 <= index <= ParseSubBlocks(e.subblocks).value.1
    && d.name == SetNodePoolName(d.config.nodepoolPrefix, e.block, index)
    && d.subblock == SubblockPath(project, e.reservation, e.block, index)
  }

  lemma ResolvedIsMerged(def: Option<ConfigValue>, es: seq<Entry>, own: Option<ConfigValue>)
    requires Resolve(def, SharedLabels(def, es), own).Some?
    ensures Merged(def, es, own, Resolve(def, SharedLabels(def, es), own).value)
  {
  }

  lemma BatchIsOfEntry(project: string, def: Option<ConfigValue>, shared: Option<Labels>, e: Entry, index: int)
    requires BatchOf(def, shared, e).Success?
    requires BatchOf(def, shared, e).value.start <= index <= BatchOf(def, shared, e).value.end
    ensures var b := BatchOf(def, shared, e).value;
            Resolve(def, shared, e.config) == Some(b.config) && IsFor(project, e, index, DesiredOf(project, Item(b, index)))
  {
    hide Resolve, SetNodePoolName, SubblockPath;
  }

  /**
    The exact effect on every desired pool. With a default that has a label map,
    all of them carry the default's labels under the overrides of all entries,
    in order; with one that has none, each carries its own entry's overrides
    only. All other settings are the field-wise override in both cases, and
    without a default each pool has its entry's own block.
   */
  lemma LabelsOfEveryPool(project: string, def: Option<ConfigValue>, es: seq<Entry>, k: nat) returns (m: nat, index: int)
    requires Expand(project, def, es).Success? && k < |Expand(project, def, es).value|
    ensures m < |es| && IsFor(project, es[m], index, Expand(project, def, es).value[k])
    ensures Merged(def, es, es[m].config, Expand(project, def, es).value[k].config)
  {
    hide Batches, BatchOf, Resolve, Merged, IsFor, Items, Offset, SharedLabels;
    var shared := SharedLabels(def, es);
    var bs := Batches(def, shared, es).value;
    BatchesAreOfEntries(def, shared, es);
    var j;
    m, j := PlaceBelongsToBatch(bs, k);
    ExpansionAt(bs, m, j);
    index := bs[m].start + j;
    BatchIsOfEntry(project, def, shared, es[m], index);
    ResolvedIsMerged(def, es, es[m].config);
  }

  /* ---- All overrides, key by key ---- */

  /** The last entry that overrides a key. */
  ghost predicate LastToOverride(es: seq<Entry>, m: nat, key: string) {
    m < |es| && key in Overrides(es[m].config) && forall n :: m < n < |es| ==> key !in Overrides(es[n].config)
  }

  /** The shared map holds, for each key that an entry overrides, the value of the last entry that does. */
  lemma {:induction false} LastOverrideWins(es: seq<Entry>, key: string)
    ensures key in AllOverrides(es) <==> exists m: nat :: LastToOverride(es, m, key)
    ensures forall m: nat :: LastToOverride(es, m, key) ==> AllOverrides(es)[key] == Overrides(es[m].config)[key]
    decreases |es|
  {
    if es != [] {
      var front, last := es[..|es| - 1], |es| - 1;
      LastOverrideWins(front, key);
      if key in Overrides(es[last].config) {
        assert LastToOverride(es, last, key);
      } else {
        forall m: nat ensures LastToOverride(es, m, key) <==> LastToOverride(front, m, key) {
        }
      }
    }
  }

  /* ---- When overrides stay with their entry ---- */

  /** The labels an entry asks for: its overrides on top of the default's labels. */
  function Asked(base: Labels, e: Entry): Labels {
    base + Overrides(e.config)
  }

  ghost predicate AllAskAlike(base: Labels, es: seq<Entry>) {
    forall m, n :: 0 <= m < |es| && 0 <= n < |es| ==> Asked(base, es[m]) == Asked(base, es[n])
  }

  lemma AskingAlikeIsEnough(base: Labels, es: seq<Entry>, m: nat)
    requires AllAskAlike(base, es) && m < |es|
    ensures base + AllOverrides(es) == Asked(base, es[m])
  {
    hide AllOverrides, Overrides;
    forall key ensures Lookup(base + AllOverrides(es), key) == Lookup(Asked(base, es[m]), key) {
      LastOverrideWins(es, key);
      if n: nat :| LastToOverride(es, n, key) {
        assert Lookup(Asked(base, es[n]), key) == Some(Overrides(es[n].config)[key]);
      } else {
        NoLastMeansNone(es, m, key);
      }
    }
    SameLookups(base + AllOverrides(es), Asked(base, es[m]));
  }

  function Lookup(labels: Labels, key: string): Option<string> {
    if key in labels then Some(labels[key]) else None
  }

  lemma SameLookups(l1: Labels, l2: Labels)
    requires forall key :: Lookup(l1, key) == Lookup(l2, key)
    ensures l1 == l2
  {
    assert forall key :: key in l1 <==> Lookup(l1, key).Some?;
    assert forall key :: key in l2 <==> Lookup(l2, key).Some?;
    assert forall key :: key in l1 ==> l1[key] == Lookup(l1, key).value;
  }

  lemma NoLastMeansNone(es: seq<Entry>, m: nat, key: string)
    requires m < |es| && !exists n: nat :: LastToOverride(es, n, key)
    ensures key !in Overrides(es[m].config)
    decreases |es| - m
  {
    if key in Overrides(es[m].config) {
      if n :| m < n < |es| && key in Overrides(es[n].config) {
        NoLastMeansNone(es, n, key);
      } else {
        assert LastToOverride(es, m, key);
      }
    }
  }

  /** The shared map holds what each entry asks for exactly when all entries ask for the same labels. */
  lemma PromiseKeptIffAllAskAlike(base: Labels, es: seq<Entry>)
    ensures (forall m :: 0 <= m < |es| ==> base + AllOverrides(es) == Asked(base, es[m])) <==> AllAskAlike(base, es)
  {
    if AllAskAlike(base, es) {
      forall m | 0 <= m < |es| ensures base + AllOverrides(es) == Asked(base, es[m]) {
        AskingAlikeIsEnough(base, es, m);
      }
    } else {
      var m, n :| 0 <= m < |es| && 0 <= n < |es| && Asked(base, es[m]) != Asked(base, es[n]);
      assert !(base + AllOverrides(es) == Asked(base, es[m]) && base + AllOverrides(es) == Asked(base, es[n]));
    }
  }

  /* ---- The labels of all desired pools ---- */

  function DefaultLabels(def: Option<ConfigValue>): Labels {
    if def.Some? then LabelsFrom(def.value) else map[]
  }

  /** Place `k` of the expansion belongs to entry `m`. */
  ghost predicate PoolOf(def: Option<ConfigValue>, es: seq<Entry>, m: nat, k: nat)
    requires Batches(def, SharedLabels(def, es), es).Success?
  {
    var bs := Batches(def, SharedLabels(def, es), es).value;
    m < |es| && m < |bs| && Offset(bs, m) <= k < Offset(bs, m) + Size(bs[m])
  }

  /** The desired pool at a place of an entry's batch. */
  lemma PoolIsOfBatch(project: string, def: Option<ConfigValue>, es: seq<Entry>, m: nat, k: nat) returns (index: int)
    requires Expand(project, def, es).Success? && PoolOf(def, es, m, k)
    ensures var bs := Batches(def, SharedLabels(def, es), es).value;
            && k < |Expand(project, def, es).value| && bs[m].start <= index <= bs[m].end
            && Expand(project, def, es).value[k] == DesiredOf(project, Item(bs[m], index))
  {
    hide Batches, Items, Offset, SharedLabels, DesiredOf;
    var bs := Batches(def, SharedLabels(def, es), es).value;
    ExpansionAt(bs, m, k - Offset(bs, m));
    index := bs[m].start + (k - Offset(bs, m));
  }

  lemma PoolIsMerged(project: string, def: Option<ConfigValue>, es: seq<Entry>, m: nat, k: nat) returns (index: int)
    requires Expand(project, def, es).Success? && PoolOf(def, es, m, k)
    ensures k < |Expand(project, def, es).value| && IsFor(project, es[m], index, Expand(project, def, es).value[k])
    ensures Merged(def, es, es[m].config, Expand(project, def, es).value[k].config)
  {
    index := PoolIsOfBatch(project, def, es, m, k);
    var shared := SharedLabels(def, es);
    assert Batches(def, shared, es).Success? && m < |es|;
    hide Batches, BatchOf, Resolve, Merged, IsFor, SharedLabels, Expand, PoolOf;
    BatchesAreOfEntries(def, shared, es);
    BatchIsOfEntry(project, def, shared, es[m], index);
    ResolvedIsMerged(def, es, es[m].config);
  }

  lemma EveryEntryHasAPool(def: Option<ConfigValue>, es: seq<Entry>, m: nat) returns (k: nat)
    requires Batches(def, SharedLabels(def, es), es).Success? && m < |es|
    ensures PoolOf(def, es, m, k)
  {
    hide Batches, SharedLabels, Offset;
    var bs := Batches(def, SharedLabels(def, es), es).value;
    BatchesAreOfEntries(def, SharedLabels(def, es), es);
    assert BatchOf(def, SharedLabels(def, es), es[m]).Success?;
    k := Offset(bs, m);
  }

  /** What a pool's labels are, by whether the default has a label map. */
  lemma MergedLabels(def: Option<ConfigValue>, es: seq<Entry>, e: Entry, config: ConfigValue)
    requires Merged(def, es, e.config, config)
    ensures if def.Some? && def.value.nodeLabels.Some? then LabelsFrom(config) == DefaultLabels(def) + AllOverrides(es)
            else LabelsFrom(config) == Asked(DefaultLabels(def), e)
  {
    assert map[] + Overrides(e.config) == Overrides(e.config);
  }

  /** Every desired pool has the labels that its own entry asks for. */
  ghost predicate LabelsAsAsked(project: string, def: Option<ConfigValue>, es: seq<Entry>)
    requires Expand(project, def, es).Success?
  {
    forall m: nat, k: nat :: PoolOf(def, es, m, k) && k < |Expand(project, def, es).value| ==>
      LabelsFrom(Expand(project, def, es).value[k].config) == Asked(DefaultLabels(def), es[m])
  }

  /**
    The documentation promises each range its own overrides. All desired pools of
    a configuration get them exactly when the default has no label map, or all
    entries ask for the same labels anyway.
   */
  lemma LabelsAsAskedExactly(project: string, def: Option<ConfigValue>, es: seq<Entry>)
    requires Expand(project, def, es).Success?
    ensures LabelsAsAsked(project, def, es)
       <==> (def.Some? && def.value.nodeLabels.Some? ==> AllAskAlike(DefaultLabels(def), es))
  {
    hide Batches, AllOverrides, Merged, IsFor, SharedLabels, PoolOf, DefaultLabels, Asked, LabelsFrom;
    var ds, base := Expand(project, def, es).value, DefaultLabels(def);
    var shares := def.Some? && def.value.nodeLabels.Some?;
    forall m: nat, k: nat | PoolOf(def, es, m, k)
      ensures k < |ds| && m < |es|
      ensures LabelsFrom(ds[k].config) == if shares then base + AllOverrides(es) else Asked(base, es[m])
    {
      PoolIsInRange(def, es, m, k);
      var index := PoolIsMerged(project, def, es, m, k);
      MergedLabels(def, es, es[m], ds[k].config);
    }
    if shares {
      PromiseKeptIffAllAskAlike(base, es);
      if LabelsAsAsked(project, def, es) {
        forall m | 0 <= m < |es| ensures base + AllOverrides(es) == Asked(base, es[m]) {
          var k := EveryEntryHasAPool(def, es, m);
        }
      }
    }
  }

  lemma PoolIsInRange(def: Option<ConfigValue>, es: seq<Entry>, m: nat, k: nat)
    requires Batches(def, SharedLabels(def, es), es).Success? && PoolOf(def, es, m, k)
    ensures m < |es|
  {
  }
}
