/**
  The construction of the desired pools on the heap, where blocks and label maps
  are shared objects, against the expansion on values.
 */
module Construction {
  import opened Common
  import opened Text
  import opened SubBlocks
  import opened Naming
  import opened NodePools
  import opened Diff
  import opened Config
  import opened Expansion

  datatype GscSubblock = GscSubblock(block: string, subblocks: string, nodepoolConfig: StaticNodePoolConfig?)

  datatype Reservation = Reservation(name: string, gscSubblocks: seq<GscSubblock>)

  /** A desired pool that refers to its configuration block. */
  datatype DesiredStaticNodePool = DesiredStaticNodePool(name: string, subblockToConsume: string, config: StaticNodePoolConfig)

  ghost function AsDesired(d: DesiredStaticNodePool): Desired
    reads d.config, d.config.nodeLabels
  {
    Desired(d.name, d.subblockToConsume, d.config.Value())
  }

  /** The entries of all reservations in order, each with the name of its reservation. */
  function Flatten(rs: seq<Reservation>): seq<(string, GscSubblock)> {
    if rs == [] then []
    else
      var r := rs[|rs| - 1];
      Flatten(rs[..|rs| - 1]) + seq(|r.gscSubblocks|, k requires 0 <= k < |r.gscSubblocks| => (r.name, r.gscSubblocks[k]))
  }

  lemma {:induction false} FlattenAt(rs: seq<Reservation>, i: nat, j: nat)
    requires i < |rs| && j < |rs[i].gscSubblocks|
    ensures |Flatten(rs[..i])| + j < |Flatten(rs)|
    ensures Flatten(rs)[|Flatten(rs[..i])| + j] == (rs[i].name, rs[i].gscSubblocks[j])
    decreases |rs|
  {
    var last := |rs| - 1;
    if i < last {
      assert rs[..last][..i] == rs[..i];
      FlattenAt(rs[..last], i, j);
    }
  }

  ghost predicate Describes(e: Entry, reservation: string, s: GscSubblock)
    reads s.nodepoolConfig, if s.nodepoolConfig == null then null else s.nodepoolConfig.nodeLabels
  {
    e == Entry(reservation, s.block, s.subblocks, ValueOf(s.nodepoolConfig))
  }

  /** A built entry has the name, sub-block and scalar settings of an item. */
  ghost predicate Fits(project: string, d: DesiredStaticNodePool, x: Item)
    reads d.config
  {
    && d.name == DesiredOf(project, x).name && d.subblockToConsume == DesiredOf(project, x).subblock
    && d.config.Scalars() == x.batch.config.(nodeLabels := None)
  }

  /** The default block shares a label map with what is derived from it. */
  ghost predicate Shares(def: StaticNodePoolConfig?)
    reads def
  {
    def != null && def.nodeLabels != null
  }

  /** The items built so far, and where their labels are: in the shared map, or in maps of their own. */
  ghost predicate Built(project: string, def: StaticNodePoolConfig?, items: seq<Item>, out: seq<DesiredStaticNodePool>)
    reads def, set d | d in out :: d.config, set d | d in out :: d.config.nodeLabels
  {
    && |out| == |items|
    && forall k :: 0 <= k < |out| ==>
         && Fits(project, out[k], items[k])
         && (if Shares(def) then out[k].config.nodeLabels == def.nodeLabels
             else LabelsIn(out[k].config.nodeLabels) == items[k].batch.config.nodeLabels)
  }

  /** The shared map holds the default's labels with the overrides of the entries so far. */
  ghost predicate SharedSoFar(def: StaticNodePoolConfig?, def0: Option<ConfigValue>, es: seq<Entry>)
    reads def, if def == null then null else def.nodeLabels
  {
    Shares(def) ==> def.nodeLabels.labels == Overrides(def0) + AllOverrides(es)
  }

  /** The default block still has the scalar settings and the kind of labels it came with. */
  ghost predicate Defaults(def: StaticNodePoolConfig?, def0: Option<ConfigValue>)
    reads def
  {
    && (def == null <==> def0 == None)
    && (def != null ==> def.Scalars() == def0.value.(nodeLabels := None) && (def.nodeLabels == null <==> def0.value.nodeLabels == None))
  }

  /** The configuration block of an entry; a merge may write into the default's label map, on which built entries agree. */
  method ConfigFor(def: StaticNodePoolConfig?, own: StaticNodePoolConfig?, ghost def0: Option<ConfigValue>, ghost c: Option<ConfigValue>,
                   ghost project: string, ghost items: seq<Item>, ghost desired: seq<DesiredStaticNodePool>)
    returns (config: StaticNodePoolConfig?)
    requires c == ValueOf(own) && Defaults(def, def0)
    requires Shares(def) && own != null ==> own.nodeLabels != def.nodeLabels
    requires Built(project, def, items, desired)
    modifies if def == null then null else def.nodeLabels
    ensures Built(project, def, items, desired)
    ensures config == null <==> Resolve(def0, None, c) == None
    ensures config != null ==> config.Scalars() == Resolve(def0, None, c).value.(nodeLabels := None)
    ensures Shares(def) ==> config != null && config.nodeLabels == def.nodeLabels
    ensures Shares(def) ==> def.nodeLabels.labels == old(LabelsIn(def.nodeLabels)).value + Overrides(c)
    ensures !Shares(def) && config != null ==> LabelsIn(config.nodeLabels) == Resolve(def0, None, c).value.nodeLabels
  {
    config := def;
    if own != null {
      config := MergeConfig(def, own);
    } else if Shares(def) {
      assert def.nodeLabels.labels == def.nodeLabels.labels + map[];
    }
  }

  lemma BuiltExtends(project: string, def: StaticNodePoolConfig?, items: seq<Item>, out: seq<DesiredStaticNodePool>,
                     b: Batch, config: StaticNodePoolConfig, extended: seq<DesiredStaticNodePool>)
    requires Built(project, def, items, out)
    requires |extended| == |out| + Size(b) && extended[..|out|] == out
    requires forall k :: |out| <= k < |extended| ==>
               extended[k].config == config && Fits(project, extended[k], Item(b, b.start + k - |out|))
    requires Labelled(def, config, b)
    ensures Built(project, def, items + ItemsOf(b), extended)
  {
    var all := items + ItemsOf(b);
    forall k | 0 <= k < |extended|
      ensures Fits(project, extended[k], all[k])
      ensures if Shares(def) then extended[k].config.nodeLabels == def.nodeLabels
              else LabelsIn(extended[k].config.nodeLabels) == all[k].batch.config.nodeLabels
    {
      if k < |out| {
        assert extended[k] == extended[..|out|][k] == out[k];
      } else {
        assert all[k] == ItemsOf(b)[k - |out|] == Item(b, b.start + k - |out|);
      }
    }
  }

  /** Blocks of a batch have its labels, or the shared ones. */
  ghost predicate Labelled(def: StaticNodePoolConfig?, config: StaticNodePoolConfig, b: Batch)
    reads def, config, config.nodeLabels
  {
    if Shares(def) then config.nodeLabels == def.nodeLabels else LabelsIn(config.nodeLabels) == b.config.nodeLabels
  }

  /** The loop over one range of indices, for a block of the batch's name prefix. */
  method AppendRange(project: string, reservation: string, block: string, start: int, end: int, config: StaticNodePoolConfig,
                     desired: seq<DesiredStaticNodePool>, ghost def: StaticNodePoolConfig?, ghost b: Batch, ghost items: seq<Item>)
    returns (extended: seq<DesiredStaticNodePool>)
    requires 0 <= start <= end < MAX_INT && b == Batch(reservation, block, start, end, b.config)
    requires config.Scalars() == b.config.(nodeLabels := None) && Labelled(def, config, b)
    requires Built(project, def, items, desired)
    ensures Built(project, def, items + ItemsOf(b), extended)
  {
    hide Built, SetNodePoolName, SubblockPath, ItemsOf, Labelled;
    extended := desired;
    var i := start;
    while i <= end
      invariant start <= i <= end + 1
      invariant |extended| == |desired| + (i - start) && extended[..|desired|] == desired
      invariant forall k :: |desired| <= k < |extended| ==>
                  extended[k].config == config && Fits(project, extended[k], Item(b, start + k - |desired|))
      decreases end + 1 - i
    {
      var nodePoolID := SetNodePoolName(config.nodepoolPrefix, block, i);
      var subblockToConsume := SubblockPath(project, reservation, block, i);
      extended := extended + [DesiredStaticNodePool(nodePoolID, subblockToConsume, config)];
      i := Increment(i);
    }
    BuiltExtends(project, def, items, desired, b, config, extended);
  }

  lemma NextBatch(def0: Option<ConfigValue>, shared: Option<Labels>, es: seq<Entry>, e: Entry)
    requires Batches(def0, shared, es).Success?
    ensures BatchOf(def0, shared, e).Failure? ==> Batches(def0, shared, es + [e]) == Failure(BatchOf(def0, shared, e).error)
    ensures BatchOf(def0, shared, e).Success? ==>
              && Batches(def0, shared, es + [e]) == Success(Batches(def0, shared, es).value + [BatchOf(def0, shared, e).value])
              && Items(Batches(def0, shared, es + [e]).value)
                 == Items(Batches(def0, shared, es).value) + ItemsOf(BatchOf(def0, shared, e).value)
  {
    assert (es + [e])[..|es + [e]| - 1] == es;
    if BatchOf(def0, shared, e).Success? {
      var bs, b := Batches(def0, shared, es).value, BatchOf(def0, shared, e).value;
      assert (bs + [b])[..|bs + [b]| - 1] == bs;
    }
  }

  /** One entry: its range is parsed, its block merged, and its pools appended. */
  method AddEntry(project: string, reservation: string, s: GscSubblock, def: StaticNodePoolConfig?,
                  desired: seq<DesiredStaticNodePool>, ghost def0: Option<ConfigValue>, ghost e: Entry, ghost items: seq<Item>)
    returns (r: Result<seq<DesiredStaticNodePool>, ExpandError>)
    requires Describes(e, reservation, s) && Defaults(def, def0) && Built(project, def, items, desired)
    requires Shares(def) && s.nodepoolConfig != null ==> s.nodepoolConfig.nodeLabels != def.nodeLabels
    modifies if def == null then null else def.nodeLabels
    ensures BatchOf(def0, None, e).Failure? ==> r == Failure(BatchOf(def0, None, e).error)
    ensures BatchOf(def0, None, e).Success? ==>
              && r.Success? && Built(project, def, items + ItemsOf(BatchOf(def0, None, e).value), r.value)
              && (Shares(def) ==> def.nodeLabels.labels == old(LabelsIn(def.nodeLabels)).value + Overrides(e.config))
  {
    hide Built;
    var range := ParseSubBlocks(s.subblocks);
    if range.Failure? {
      return Failure(BadRange(s.block, range.error));
    }
    var (start, end) := range.value;
    AcceptedRangesAreOrdered(s.subblocks);
    var subblockConfig := ConfigFor(def, s.nodepoolConfig, def0, e.config, project, items, desired);
    if subblockConfig == null {
      return Failure(NoConfig(s.block));
    }
    if end == MAX_INT {
      return Failure(NeverEnds(s.block));
    }
    ghost var b := BatchOf(def0, None, e).value;
    var extended := AppendRange(project, reservation, s.block, start, end, subblockConfig, desired, def, b, items);
    return Success(extended);
  }

  lemma {:induction false} BatchesFailureIsFinal(def: Option<ConfigValue>, shared: Option<Labels>, es: seq<Entry>, k: nat)
    requires k <= |es| && Batches(def, shared, es[..k]).Failure?
    ensures Batches(def, shared, es) == Batches(def, shared, es[..k])
    decreases |es| - k
  {
    if k == |es| {
      assert es[..k] == es;
    } else {
      assert es[..k + 1][..k] == es[..k];
      BatchesFailureIsFinal(def, shared, es, k + 1);
    }
  }

  /** A batch whose labels are those of the shared map, if there is one. */
  function Relabeled(b: Batch, shared: Option<Labels>): Batch {
    if shared.Some? then b.(config := b.config.(nodeLabels := shared)) else b
  }

  lemma RelabeledBatch(def: Option<ConfigValue>, shared: Option<Labels>, e: Entry)
    requires shared.Some? ==> def.Some?
    ensures match BatchOf(def, None, e)
            case Failure(error) => BatchOf(def, shared, e) == Failure(error)
            case Success(b) => BatchOf(def, shared, e) == Success(Relabeled(b, shared))
  {
  }

  /** The shared map decides the labels of the batches and nothing else. */
  lemma {:induction false} RelabeledBatches(def: Option<ConfigValue>, shared: Option<Labels>, es: seq<Entry>)
    requires shared.Some? ==> def.Some?
    ensures match Batches(def, None, es)
            case Failure(error) => Batches(def, shared, es) == Failure(error)
            case Success(bs) =>
              && Batches(def, shared, es).Success? && |Batches(def, shared, es).value| == |bs|
              && forall i :: 0 <= i < |bs| ==> Batches(def, shared, es).value[i] == Relabeled(bs[i], shared)
    decreases |es|
  {
    if es != [] {
      RelabeledBatches(def, shared, es[..|es| - 1]);
      RelabeledBatch(def, shared, es[|es| - 1]);
    }
  }

  lemma {:induction false} RelabeledItems(bs: seq<Batch>, cs: seq<Batch>, shared: Option<Labels>)
    requires |bs| == |cs| && forall i :: 0 <= i < |bs| ==> cs[i] == Relabeled(bs[i], shared)
    ensures |Items(cs)| == |Items(bs)|
    ensures forall k :: 0 <= k < |Items(bs)| ==> Items(cs)[k] == Item(Relabeled(Items(bs)[k].batch, shared), Items(bs)[k].index)
    decreases |bs|
  {
    if bs != [] {
      RelabeledItems(bs[..|bs| - 1], cs[..|cs| - 1], shared);
    }
  }

  lemma BuiltIsDesired(project: string, def: StaticNodePoolConfig?, shared: Option<Labels>, d: DesiredStaticNodePool, x: Item)
    requires Fits(project, d, x)
    requires if Shares(def) then d.config.nodeLabels == def.nodeLabels && shared == Some(def.nodeLabels.labels)
             else LabelsIn(d.config.nodeLabels) == x.batch.config.nodeLabels && shared == None
    ensures AsDesired(d) == DesiredOf(project, Item(Relabeled(x.batch, shared), x.index))
  {
  }

  /** Once all entries are in, what is on the heap is the expansion on values. */
  lemma BuiltIsExpansion(project: string, def: StaticNodePoolConfig?, def0: Option<ConfigValue>, es: seq<Entry>,
                         out: seq<DesiredStaticNodePool>)
    requires Defaults(def, def0) && SharedSoFar(def, def0, es) && Batches(def0, None, es).Success?
    requires Built(project, def, Items(Batches(def0, None, es).value), out)
    ensures Expand(project, def0, es).Success? && |out| == |Expand(project, def0, es).value|
    ensures forall k :: 0 <= k < |out| ==> AsDesired(out[k]) == Expand(project, def0, es).value[k]
  {
    var shared := SharedLabels(def0, es);
    var bs := Batches(def0, None, es).value;
    RelabeledBatches(def0, shared, es);
    var cs := Batches(def0, shared, es).value;
    RelabeledItems(bs, cs, shared);
    forall k | 0 <= k < |out| ensures AsDesired(out[k]) == Expand(project, def0, es).value[k] {
      BuiltIsDesired(project, def, shared, out[k], Items(bs)[k]);
    }
  }

  /** The construction after the first `m` entries. */
  ghost predicate Halfway(project: string, def: StaticNodePoolConfig?, def0: Option<ConfigValue>, values: seq<Entry>, m: nat,
                          desired: seq<DesiredStaticNodePool>)
    reads *
  {
    && m <= |values| && Defaults(def, def0) && SharedSoFar(def, def0, values[..m])
    && Batches(def0, None, values[..m]).Success? && Built(project, def, Items(Batches(def0, None, values[..m]).value), desired)
  }

  lemma FailedEntry(project: string, def0: Option<ConfigValue>, values: seq<Entry>, m: nat)
    requires m <= |values| && Batches(def0, None, values[..m]).Failure?
    ensures Expand(project, def0, values) == Failure(Batches(def0, None, values[..m]).error)
  {
    BatchesFailureIsFinal(def0, None, values, m);
    RelabeledBatches(def0, SharedLabels(def0, values), values);
  }

  lemma NextOverrides(es: seq<Entry>, m: nat)
    requires m < |es|
    ensures AllOverrides(es[..m + 1]) == AllOverrides(es[..m]) + Overrides(es[m].config)
  {
    assert es[..m + 1][..m] == es[..m];
  }

  /** What the next entry adds to the expansion on values. */
  lemma NextEntry(project: string, def0: Option<ConfigValue>, values: seq<Entry>, m: nat)
    requires m < |values| && Batches(def0, None, values[..m]).Success?
    ensures AllOverrides(values[..m + 1]) == AllOverrides(values[..m]) + Overrides(values[m].config)
    ensures match BatchOf(def0, None, values[m])
            case Failure(error) => Expand(project, def0, values) == Failure(error)
            case Success(b) =>
              && Batches(def0, None, values[..m + 1]).Success?
              && Items(Batches(def0, None, values[..m + 1]).value) == Items(Batches(def0, None, values[..m]).value) + ItemsOf(b)
  {
    NextOverrides(values, m);
    hide AllOverrides, Items, BatchOf, Expand, Batches;
    assert values[..m + 1] == values[..m] + [values[m]];
    NextBatch(def0, None, values[..m], values[m]);
    if BatchOf(def0, None, values[m]).Failure? {
      FailedEntry(project, def0, values, m + 1);
    }
  }

  lemma MoreLabels(base: Labels, some: Labels, more: Labels)
    ensures base + (some + more) == (base + some) + more
  {
  }

  ghost predicate AllDescribed(values: seq<Entry>, flat: seq<(string, GscSubblock)>)
    reads set x | x in flat :: x.1.nodepoolConfig, set x | x in flat && x.1.nodepoolConfig != null :: x.1.nodepoolConfig.nodeLabels
  {
    |values| == |flat| && forall k :: 0 <= k < |values| ==> Describes(values[k], flat[k].0, flat[k].1)
  }

  /** No entry's block uses the default's label map. */
  ghost predicate OwnLabels(def: StaticNodePoolConfig?, flat: seq<(string, GscSubblock)>)
    reads def, set x | x in flat :: x.1.nodepoolConfig
  {
    forall k :: 0 <= k < |flat| && Shares(def) && flat[k].1.nodepoolConfig != null ==> flat[k].1.nodepoolConfig.nodeLabels != def.nodeLabels
  }

  /** The entries, as they are decoded: each with its own labels. */
  ghost predicate Decoded(def: StaticNodePoolConfig?, values: seq<Entry>, flat: seq<(string, GscSubblock)>)
    reads *
  {
    AllDescribed(values, flat) && OwnLabels(def, flat)
  }

  method AddNext(project: string, reservation: string, s: GscSubblock, def: StaticNodePoolConfig?,
                 desired: seq<DesiredStaticNodePool>, ghost def0: Option<ConfigValue>, ghost values: seq<Entry>,
                 ghost flat: seq<(string, GscSubblock)>, ghost m: nat)
    returns (r: Result<seq<DesiredStaticNodePool>, ExpandError>)
    requires Decoded(def, values, flat) && m < |flat| && flat[m] == (reservation, s)
    requires Halfway(project, def, def0, values, m, desired)
    modifies if def == null then null else def.nodeLabels
    ensures Decoded(def, values, flat)
    ensures r.Success? ==> Halfway(project, def, def0, values, m + 1, r.value)
    ensures r.Failure? ==> Expand(project, def0, values) == Failure(r.error)
  {
    hide Batches, Items, AllOverrides, Built, Expand, BatchOf;
    ghost var items := Items(Batches(def0, None, values[..m]).value);
    assert Describes(values[m], flat[m].0, flat[m].1);
    NextEntry(project, def0, values, m);
    MoreLabels(Overrides(def0), AllOverrides(values[..m]), Overrides(values[m].config));
    r := AddEntry(project, reservation, s, def, desired, def0, values[m], items);
  }

  /** The entries of a reservation stand in the flat list from the m-th on. */
  ghost predicate StandsAt(reservation: Reservation, flat: seq<(string, GscSubblock)>, m: nat) {
    forall j: nat :: j < |reservation.gscSubblocks| ==> EntryAt(reservation, flat, m, j)
  }

  ghost predicate EntryAt(reservation: Reservation, flat: seq<(string, GscSubblock)>, m: nat, j: nat)
    requires j < |reservation.gscSubblocks|
  {
    m + j < |flat| && flat[m + j] == (reservation.name, reservation.gscSubblocks[j])
  }

  lemma NextReservation(rs: seq<Reservation>, i: nat)
    requires i < |rs|
    ensures |Flatten(rs[..i + 1])| == |Flatten(rs[..i])| + |rs[i].gscSubblocks|
    ensures StandsAt(rs[i], Flatten(rs), |Flatten(rs[..i])|)
  {
    assert rs[..i + 1][..i] == rs[..i];
    forall j: nat | j < |rs[i].gscSubblocks| ensures EntryAt(rs[i], Flatten(rs), |Flatten(rs[..i])|, j) {
      FlattenAt(rs, i, j);
    }
  }

  /** The inner loop, over the entries of one reservation, which start at the m-th of all. */
  method AddReservation(project: string, reservation: Reservation, def: StaticNodePoolConfig?, desired: seq<DesiredStaticNodePool>,
                        ghost def0: Option<ConfigValue>, ghost values: seq<Entry>,
                        ghost flat: seq<(string, GscSubblock)>, ghost m: nat)
    returns (r: Result<seq<DesiredStaticNodePool>, ExpandError>)
    requires StandsAt(reservation, flat, m)
    requires Decoded(def, values, flat) && Halfway(project, def, def0, values, m, desired)
    modifies if def == null then null else def.nodeLabels
    ensures Decoded(def, values, flat)
    ensures r.Success? ==> Halfway(project, def, def0, values, m + |reservation.gscSubblocks|, r.value)
    ensures r.Failure? ==> Expand(project, def0, values) == Failure(r.error)
  {
    hide Decoded, Halfway;
    var extended := desired;
    ghost var n := m;
    for j := 0 to |reservation.gscSubblocks|
      invariant n == m + j
      invariant Decoded(def, values, flat)
      invariant Halfway(project, def, def0, values, n, extended)
    {
      assert EntryAt(reservation, flat, m, j);
      var next := AddNext(project, reservation.name, reservation.gscSubblocks[j], def, extended, def0, values, flat, n);
      if next.Failure? {
        return next;
      }
      extended, n := next.value, n + 1;
    }
    return Success(extended);
  }

  lemma BeforeAnyEntry(project: string, def: StaticNodePoolConfig?, values: seq<Entry>)
    ensures Halfway(project, def, ValueOf(def), values, 0, [])
  {
    var base := Overrides(ValueOf(def));
    assert base + AllOverrides(values[..0]) == base;
  }

  /** Entries on the heap that stand for desired entries on values. */
  ghost predicate StandFor(out: seq<DesiredStaticNodePool>, ds: seq<Desired>)
    reads set d | d in out :: d.config, set d | d in out :: d.config.nodeLabels
  {
    |out| == |ds| && forall k :: 0 <= k < |out| ==> AsDesired(out[k]) == ds[k]
  }

  lemma AfterAllEntries(project: string, def: StaticNodePoolConfig?, def0: Option<ConfigValue>, values: seq<Entry>,
                        out: seq<DesiredStaticNodePool>)
    requires Halfway(project, def, def0, values, |values|, out)
    ensures Expand(project, def0, values).Success? && StandFor(out, Expand(project, def0, values).value)
  {
    assert values[..|values|] == values;
    BuiltIsExpansion(project, def, def0, values, out);
  }

  /**
    The loops over reservations and sub-block entries. Every block of the
    configuration is decoded on its own, so no override uses the default's map.
   */
  method ConstructDesiredNodePools(project: string, reservations: seq<Reservation>, defaultConfig: StaticNodePoolConfig?,
                                   ghost values: seq<Entry>)
    returns (r: Result<seq<DesiredStaticNodePool>, ExpandError>)
    requires Decoded(defaultConfig, values, Flatten(reservations))
    modifies if defaultConfig == null then null else defaultConfig.nodeLabels
    ensures match Expand(project, old(ValueOf(defaultConfig)), values)
            case Failure(error) => r == Failure(error)
            case Success(ds) => r.Success? && StandFor(r.value, ds)
  {
    hide Decoded, Halfway, Expand, StandFor;
    ghost var def0 := ValueOf(defaultConfig);
    var desiredNodePools: seq<DesiredStaticNodePool> := [];
    ghost var flat, n := Flatten(reservations), 0;
    BeforeAnyEntry(project, defaultConfig, values);
    for i := 0 to |reservations|
      invariant n == |Flatten(reservations[..i])|
      invariant Decoded(defaultConfig, values, flat)
      invariant Halfway(project, defaultConfig, def0, values, n, desiredNodePools)
    {
      NextReservation(reservations, i);
      var next := AddReservation(project, reservations[i], defaultConfig, desiredNodePools, def0, values, flat, n);
      if next.Failure? {
        return next;
      }
      desiredNodePools, n := next.value, n + |reservations[i].gscSubblocks|;
    }
    assert reservations[..|reservations|] == reservations;
    AsManyValues(defaultConfig, values, flat);
    AfterAllEntries(project, defaultConfig, def0, values, desiredNodePools);
    return Success(desiredNodePools);
  }

  lemma AsManyValues(def: StaticNodePoolConfig?, values: seq<Entry>, flat: seq<(string, GscSubblock)>)
    requires Decoded(def, values, flat)
    ensures |values| == |flat|
  {
  }
}
