/**
  Expanding the reservations of a configuration into desired node pools: every
  index of every entry, in order, and when the result is unambiguous.
 */
module Expansion {
  import opened Common
  import opened Text
  import opened SubBlocks
  import opened Naming
  import opened NodePools
  import opened Diff
  import opened Config

  /** One sub-block entry of a reservation, as values. */
  datatype Entry = Entry(reservation: string, block: string, subblocks: string, config: Option<ConfigValue>)

  datatype ExpandError = BadRange(block: string, error: RangeError) | NoConfig(block: string) | NeverEnds(block: string)

  /** An entry with its range parsed and its configuration resolved. */
  datatype Batch = Batch(reservation: string, block: string, start: int, end: int, config: ConfigValue)

  datatype Item = Item(batch: Batch, index: int)

  /* ---- Entries to batches ---- */

  /** The labels an entry overrides. */
  function Overrides(c: Option<ConfigValue>): Labels {
    if c.Some? && c.value.nodeLabels.Some? then c.value.nodeLabels.value else map[]
  }

  /** All label overrides, the later ones on top. */
  function AllOverrides(es: seq<Entry>): Labels {
    if es == [] then map[] else AllOverrides(es[..|es| - 1]) + Overrides(es[|es| - 1].config)
  }

  /** What the default block's own label map holds once the entries have been merged, if it has one. */
  function SharedLabels(def: Option<ConfigValue>, es: seq<Entry>): Option<Labels> {
    if def.Some? && def.value.nodeLabels.Some? then Some(def.value.nodeLabels.value + AllOverrides(es)) else None
  }

  /** The configuration of an entry, when the default's label map holds `shared`. */
  function Resolve(def: Option<ConfigValue>, shared: Option<Labels>, config: Option<ConfigValue>): Option<ConfigValue> {
    match (def, config)
    case (None, c) => c
    case (Some(d), None) => Some(d.(nodeLabels := shared))
    case (Some(d), Some(c)) =>
      Some(Override(d, c).(nodeLabels := if shared.Some? then shared else if Overrides(config) == map[] then None else c.nodeLabels))
  }

  /** The index loop never ends when the range goes up to the largest int. */
  function BatchOf(def: Option<ConfigValue>, shared: Option<Labels>, e: Entry): (r: Result<Batch, ExpandError>)
    ensures r.Success? ==> 0 <= r.value.start <= r.value.end < MAX_INT
  {
    match ParseSubBlocks(e.subblocks)
    case Failure(error) => Failure(BadRange(e.block, error))
    case Success((start, end)) =>
      AcceptedRangesAreOrdered(e.subblocks);
      match Resolve(def, shared, e.config)
      case None => Failure(NoConfig(e.block))
      case Some(c) => if end == MAX_INT then Failure(NeverEnds(e.block)) else Success(Batch(e.reservation, e.block, start, end, c))
  }

  /** The batches of the entries, or the first error met. */
  function Batches(def: Option<ConfigValue>, shared: Option<Labels>, es: seq<Entry>): Result<seq<Batch>, ExpandError> {
    if es == [] then Success([])
    else
      match Batches(def, shared, es[..|es| - 1])
      case Failure(error) => Failure(error)
      case Success(bs) =>
        match BatchOf(def, shared, es[|es| - 1])
        case Failure(error) => Failure(error)
        case Success(b) => Success(bs + [b])
  }

  /* ---- Batches to desired pools ---- */

  function Size(b: Batch): nat {
    if b.start <= b.end then b.end - b.start + 1 else 0
  }

  function ItemsOf(b: Batch): seq<Item> {
    seq(Size(b), k requires 0 <= k < Size(b) => Item(b, b.start + k))
  }

  function Items(bs: seq<Batch>): seq<Item> {
    if bs == [] then [] else Items(bs[..|bs| - 1]) + ItemsOf(bs[|bs| - 1])
  }

  function DesiredOf(project: string, item: Item): Desired {
    Desired(
      SetNodePoolName(item.batch.config.nodepoolPrefix, item.batch.block, item.index),
      SubblockPath(project, item.batch.reservation, item.batch.block, item.index),
      item.batch.config)
  }

  function DesiredList(project: string, items: seq<Item>): (ds: seq<Desired>)
    ensures |ds| == |items| && forall k :: 0 <= k < |ds| ==> ds[k] == DesiredOf(project, items[k])
  {
    seq(|items|, k requires 0 <= k < |items| => DesiredOf(project, items[k]))
  }

  /** The desired pools of a configuration, or the first error met. */
  function Expand(project: string, def: Option<ConfigValue>, es: seq<Entry>): Result<seq<Desired>, ExpandError> {
    match Batches(def, SharedLabels(def, es), es)
    case Failure(error) => Failure(error)
    case Success(bs) => Success(DesiredList(project, Items(bs)))
  }

  /* ---- When a configuration can be expanded ---- */

  /** An entry with a range below the largest int, and a configuration of its own or by default. */
  predicate Expandable(def: Option<ConfigValue>, e: Entry) {
    && ParseSubBlocks(e.subblocks).Success? && ParseSubBlocks(e.subblocks).value.1 < MAX_INT
    && (def.Some? || e.config.Some?)
  }

  lemma BatchOrError(def: Option<ConfigValue>, shared: Option<Labels>, e: Entry)
    ensures BatchOf(def, shared, e).Success? <==> Expandable(def, e)
    ensures match ParseSubBlocks(e.subblocks)
            case Failure(error) => BatchOf(def, shared, e) == Failure(BadRange(e.block, error))
            case Success((start, end)) =>
              && (def.None? && e.config.None? ==> BatchOf(def, shared, e) == Failure(NoConfig(e.block)))
              && ((def.Some? || e.config.Some?) && end == MAX_INT ==> BatchOf(def, shared, e) == Failure(NeverEnds(e.block)))
  {
    if ParseSubBlocks(e.subblocks).Success? {
      AcceptedRangesAreOrdered(e.subblocks);
    }
  }

  lemma {:induction false} BatchesUpToFirstError(def: Option<ConfigValue>, shared: Option<Labels>, es: seq<Entry>)
    ensures Batches(def, shared, es).Success? <==> forall e :: e in es ==> Expandable(def, e)
    ensures forall k :: 0 <= k < |es| && !Expandable(def, es[k]) && (forall j :: 0 <= j < k ==> Expandable(def, es[j])) ==>
              Batches(def, shared, es).Failure? && BatchOf(def, shared, es[k]).Failure?
              && Batches(def, shared, es).error == BatchOf(def, shared, es[k]).error
    decreases |es|
  {
    hide BatchOf, Expandable;
    if es != [] {
      var front, last := es[..|es| - 1], es[|es| - 1];
      assert forall k :: 0 <= k < |front| ==> front[k] == es[k];
      BatchesUpToFirstError(def, shared, front);
      BatchOrError(def, shared, last);
      assert forall e :: e in es <==> e in front || e == last;
      assert Batches(def, shared, es) ==
        if Batches(def, shared, front).Failure? then Batches(def, shared, front)
        else if BatchOf(def, shared, last).Failure? then Failure(BatchOf(def, shared, last).error)
        else Success(Batches(def, shared, front).value + [BatchOf(def, shared, last).value]);
      hide Batches;
    }
  }

  /** A configuration can be expanded exactly when each of its entries can. */
  lemma ExpandsExactly(project: string, def: Option<ConfigValue>, es: seq<Entry>)
    ensures Expand(project, def, es).Success? <==> forall e :: e in es ==> Expandable(def, e)
  {
    BatchesUpToFirstError(def, SharedLabels(def, es), es);
  }

  /** Otherwise the first entry that cannot be expanded decides how it ends: a bad range, no configuration, or never. */
  lemma FirstErrorIsReturned(project: string, def: Option<ConfigValue>, es: seq<Entry>, k: nat)
    requires k < |es| && !Expandable(def, es[k]) && forall j :: 0 <= j < k ==> Expandable(def, es[j])
    ensures match ParseSubBlocks(es[k].subblocks)
            case Failure(error) => Expand(project, def, es) == Failure(BadRange(es[k].block, error))
            case Success(_) =>
              Expand(project, def, es)
              == Failure(if def.None? && es[k].config.None? then NoConfig(es[k].block) else NeverEnds(es[k].block))
  {
    BatchesUpToFirstError(def, SharedLabels(def, es), es);
    BatchOrError(def, SharedLabels(def, es), es[k]);
    if ParseSubBlocks(es[k].subblocks).Success? {
      AcceptedRangesAreOrdered(es[k].subblocks);
    }
    hide Batches, BatchOf;
  }

  /* ---- Completeness: every index of every entry, in order ---- */

  function Offset(bs: seq<Batch>, m: nat): nat
    requires m <= |bs|
  {
    if m == 0 then 0 else Offset(bs, m - 1) + Size(bs[m - 1])
  }

  lemma {:induction false} OffsetOfPrefix(bs: seq<Batch>, k: nat, m: nat)
    requires m <= k <= |bs|
    ensures Offset(bs[..k], m) == Offset(bs, m)
  {
    if m > 0 {
      OffsetOfPrefix(bs, k, m - 1);
    }
  }

  /** The expansion has as many items as all ranges together have indices. */
  lemma {:induction false} ExpansionIsComplete(bs: seq<Batch>)
    ensures |Items(bs)| == Offset(bs, |bs|)
    decreases |bs|
  {
    if bs != [] {
      ExpansionIsComplete(bs[..|bs| - 1]);
      OffsetOfPrefix(bs, |bs| - 1, |bs| - 1);
    }
  }

  /** Index `start + j` of batch `m` is at its place, in the order of the entries. */
  lemma {:induction false} ExpansionAt(bs: seq<Batch>, m: nat, j: nat)
    requires m < |bs| && j < Size(bs[m])
    ensures Offset(bs, m) + j < |Items(bs)| && Items(bs)[Offset(bs, m) + j] == Item(bs[m], bs[m].start + j)
    decreases |bs|
  {
    var last := |bs| - 1;
    ExpansionIsComplete(bs[..last]);
    OffsetOfPrefix(bs, last, m);
    OffsetOfPrefix(bs, last, last);
    if m < last {
      ExpansionAt(bs[..last], m, j);
    }
  }

  /** Every place of the expansion belongs to one index of one batch. */
  lemma {:induction false} PlaceBelongsToBatch(bs: seq<Batch>, k: nat) returns (m: nat, j: nat)
    requires k < |Items(bs)|
    ensures m < |bs| && j < Size(bs[m]) && k == Offset(bs, m) + j
    decreases |bs|
  {
    var last := |bs| - 1;
    ExpansionIsComplete(bs[..last]);
    OffsetOfPrefix(bs, last, last);
    if k < Offset(bs, last) {
      m, j := PlaceBelongsToBatch(bs[..last], k);
      OffsetOfPrefix(bs, last, m);
    } else {
      m, j := last, k - Offset(bs, last);
    }
  }

  lemma {:induction false} OffsetsGrow(bs: seq<Batch>, m: nat, n: nat)
    requires m < n <= |bs|
    ensures Offset(bs, m) + Size(bs[m]) <= Offset(bs, n)
  {
    if n > m + 1 {
      OffsetsGrow(bs, m, n - 1);
    }
  }

  /* ---- Ambiguity ---- */

  predicate Natural(bs: seq<Batch>) {
    forall b :: b in bs ==> 0 <= b.start <= b.end
  }

  predicate RangesOverlap(b: Batch, c: Batch) {
    b.start <= c.end && c.start <= b.end
  }

  predicate SameTemplate(b: Batch, c: Batch) {
    SameNames(b.config.nodepoolPrefix, b.block, c.config.nodepoolPrefix, c.block)
  }

  predicate SameCapacity(b: Batch, c: Batch) {
    b.reservation == c.reservation && b.block == c.block
  }

  /** No two batches that share a name template have overlapping ranges. */
  predicate UnambiguousNames(bs: seq<Batch>) {
    forall m, n :: 0 <= m < n < |bs| && SameTemplate(bs[m], bs[n]) ==> !RangesOverlap(bs[m], bs[n])
  }

  /** Batches for overlapping ranges of one block of one reservation use one name template. */
  predicate UnambiguousCapacity(bs: seq<Batch>) {
    forall b, c :: b in bs && c in bs && SameCapacity(b, c) && RangesOverlap(b, c) ==> SameTemplate(b, c)
  }

  lemma SameNameExactly(project: string, x: Item, y: Item)
    requires 0 <= x.index && 0 <= y.index
    ensures DesiredOf(project, x).name == DesiredOf(project, y).name <==> x.index == y.index && SameTemplate(x.batch, y.batch)
  {
    NamesClashExactly(x.batch.config.nodepoolPrefix, x.batch.block, x.index, y.batch.config.nodepoolPrefix, y.batch.block, y.index);
  }

  lemma SameSubblockExactly(project: string, x: Item, y: Item)
    requires 0 <= x.index && 0 <= y.index && '/' !in x.batch.block && '/' !in y.batch.block
    ensures DesiredOf(project, x).subblock == DesiredOf(project, y).subblock <==> x.index == y.index && SameCapacity(x.batch, y.batch)
  {
    PathsDetermineSubblock(project, x.batch.reservation, x.batch.block, x.index, y.batch.reservation, y.batch.block, y.index);
  }

  /** An item is one of the expansion's exactly when its batch is there and its index in range. */
  lemma ItemsExactly(bs: seq<Batch>, x: Item)
    ensures x in Items(bs) <==> x.batch in bs && x.batch.start <= x.index <= x.batch.end
  {
    if x in Items(bs) {
      var k :| 0 <= k < |Items(bs)| && Items(bs)[k] == x;
      var m, j := PlaceBelongsToBatch(bs, k);
      ExpansionAt(bs, m, j);
    }
    if x.batch in bs && x.batch.start <= x.index <= x.batch.end {
      var m :| 0 <= m < |bs| && bs[m] == x.batch;
      ExpansionAt(bs, m, x.index - x.batch.start);
    }
  }

  /** An index that two overlapping ranges share. */
  function SharedIndex(b: Batch, c: Batch): (x: int)
    requires RangesOverlap(b, c) && b.start <= b.end && c.start <= c.end
    ensures b.start <= x <= b.end && c.start <= x <= c.end
  {
    if b.start <= c.start then c.start else b.start
  }

  lemma ApartIsDistinct(bs: seq<Batch>, k: nat, l: nat)
    requires Natural(bs) && UnambiguousNames(bs) && k < l < |Items(bs)|
    ensures 0 <= Items(bs)[k].index && 0 <= Items(bs)[l].index
    ensures Items(bs)[k].index == Items(bs)[l].index ==> !SameTemplate(Items(bs)[k].batch, Items(bs)[l].batch)
  {
    var m, i := PlaceBelongsToBatch(bs, k);
    var n, j := PlaceBelongsToBatch(bs, l);
    ExpansionAt(bs, m, i);
    ExpansionAt(bs, n, j);
    if n < m {
      OffsetsGrow(bs, n, m);
    }
    assert bs[m] in bs && bs[n] in bs;
  }

  /** The place of an index of a batch. */
  lemma PlaceOf(bs: seq<Batch>, m: nat, index: int) returns (k: nat)
    requires m < |bs| && bs[m].start <= index <= bs[m].end
    ensures Offset(bs, m) <= k < Offset(bs, m) + Size(bs[m]) && k < |Items(bs)| && Items(bs)[k] == Item(bs[m], index)
  {
    hide Items, Offset;
    k := Offset(bs, m) + (index - bs[m].start);
    ExpansionAt(bs, m, index - bs[m].start);
  }

  lemma OverlapClashes(project: string, bs: seq<Batch>, m: nat, n: nat)
    requires Natural(bs) && m < n < |bs| && SameTemplate(bs[m], bs[n]) && RangesOverlap(bs[m], bs[n])
    ensures !DistinctNames(DesiredList(project, Items(bs)))
  {
    assert bs[m] in bs && bs[n] in bs;
    var x := SharedIndex(bs[m], bs[n]);
    hide DesiredOf, Items, Offset, Size, SameTemplate, DesiredList, Natural;
    var k := PlaceOf(bs, m, x);
    var l := PlaceOf(bs, n, x);
    OffsetsGrow(bs, m, n);
    SameNameExactly(project, Items(bs)[k], Items(bs)[l]);
    assert DesiredList(project, Items(bs))[k].name == DesiredList(project, Items(bs))[l].name;
  }

  /** The desired names are distinct exactly when no two entries of one name template have overlapping ranges. */
  lemma NamesDistinctIffUnambiguous(project: string, bs: seq<Batch>)
    requires Natural(bs)
    ensures DistinctNames(DesiredList(project, Items(bs))) <==> UnambiguousNames(bs)
  {
    if UnambiguousNames(bs) {
      forall k, l | 0 <= k < l < |Items(bs)| ensures DesiredOf(project, Items(bs)[k]).name != DesiredOf(project, Items(bs)[l]).name {
        ApartIsDistinct(bs, k, l);
        SameNameExactly(project, Items(bs)[k], Items(bs)[l]);
      }
    } else {
      var m, n :| 0 <= m < n < |bs| && SameTemplate(bs[m], bs[n]) && RangesOverlap(bs[m], bs[n]);
      OverlapClashes(project, bs, m, n);
    }
  }
}
