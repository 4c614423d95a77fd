/** Which node pools are held by slices, judged from the labels on their nodes. */
module Partitions {

  import opened Common

  datatype Slice = Slice(partitionIds: seq<string>)

  datatype Node = Node(labels: Labels)

  const GKE_NODE_POOL_NAME_LABEL := "cloud.google.com/gke-nodepool"
  const PARTITION_PREFIX := "cloud.google.com/gke-tpu-partition-"
  const PARTITION_SUFFIX := "-id"

  predicate IsPartitionIDLabel(key: string) {
    |key| > 38 && key[..35] == PARTITION_PREFIX && key[|key| - 3..] == PARTITION_SUFFIX
  }

  /** The key test accepts the prefix, a non-empty middle and the suffix, and nothing else. */
  lemma PartitionLabelsExactly(key: string)
    ensures IsPartitionIDLabel(key)
       <==> exists middle :: middle != "" && key == PARTITION_PREFIX + middle + PARTITION_SUFFIX
  {
    if IsPartitionIDLabel(key) {
      var middle := key[35..|key| - 3];
      assert key == PARTITION_PREFIX + middle + PARTITION_SUFFIX;
    }
  }

  ghost predicate UsedPartition(slices: seq<Slice>, id: string) {
    exists s :: s in slices && id in s.partitionIds
  }

  /** A node pool is in use when one of its nodes carries a partition that a slice claims. */
  ghost predicate InUse(slices: seq<Slice>, nodes: seq<Node>, pool: string) {
    exists n :: n in nodes && Occupies(slices, n, pool)
  }

  ghost predicate Occupies(slices: seq<Slice>, n: Node, pool: string) {
    && GKE_NODE_POOL_NAME_LABEL in n.labels && n.labels[GKE_NODE_POOL_NAME_LABEL] == pool
    && exists k :: k in n.labels && IsPartitionIDLabel(k) && UsedPartition(slices, n.labels[k])
  }

  /** The pools in use, as a set. */
  ghost function InUseNames(slices: seq<Slice>, nodes: seq<Node>): (names: set<string>)
    ensures forall pool :: pool in names <==> InUse(slices, nodes, pool)
  {
    set n | n in nodes && GKE_NODE_POOL_NAME_LABEL in n.labels && Occupies(slices, n, n.labels[GKE_NODE_POOL_NAME_LABEL])
      :: n.labels[GKE_NODE_POOL_NAME_LABEL]
  }

  method UsedPartitions(slices: seq<Slice>) returns (used: set<string>)
    ensures forall id :: id in used <==> UsedPartition(slices, id)
  {
    used := {};
    for i := 0 to |slices|
      invariant forall id :: id in used <==> UsedPartition(slices[..i], id)
    {
      var ids := slices[i].partitionIds;
      for j := 0 to |ids|
        invariant forall id :: id in used <==> UsedPartition(slices[..i], id) || id in ids[..j]
      {
        used := used + {ids[j]};
      }
      assert ids[..|ids|] == ids;
      assert slices[..i + 1] == slices[..i] + [slices[i]];
    }
    assert slices[..|slices|] == slices;
  }

  /**
    The loops of the source. A node's labels are visited in whatever order the
    map yields them, and the visit stops at the first used partition.
   */
  method GetInUseNodepools(slices: seq<Slice>, nodes: seq<Node>) returns (inUse: set<string>)
    ensures forall pool :: pool in inUse <==> InUse(slices, nodes, pool)
  {
    var used := UsedPartitions(slices);
    inUse := {};
    for i := 0 to |nodes|
      invariant forall pool :: pool in inUse <==> InUse(slices, nodes[..i], pool)
    {
      assert nodes[..i + 1] == nodes[..i] + [nodes[i]];
      assert forall p :: InUse(slices, nodes[..i + 1], p) <==> InUse(slices, nodes[..i], p) || Occupies(slices, nodes[i], p);
      var labels := nodes[i].labels;
      if GKE_NODE_POOL_NAME_LABEL !in labels {
        continue;
      }
      var pool := labels[GKE_NODE_POOL_NAME_LABEL];
      var keys := labels.Keys;
      var found := false;
      while keys != {}
        invariant keys <= labels.Keys
        invariant !found ==> forall k :: k in labels && k !in keys && IsPartitionIDLabel(k) ==> !UsedPartition(slices, labels[k])
        invariant found ==> Occupies(slices, nodes[i], pool)
        invariant forall p :: p in inUse <==> InUse(slices, nodes[..i], p) || (found && p == pool)
        decreases keys
      {
        var k :| k in keys;
        if IsPartitionIDLabel(k) {
          if labels[k] in used {
            inUse := inUse + {pool};
            found := true;
            break;
          }
        }
        keys := keys - {k};
      }
    }
    assert nodes[..|nodes|] == nodes;
  }

  /** More slices lock more pools, never fewer. */
  lemma MoreSlicesLockMore(few: seq<Slice>, many: seq<Slice>, nodes: seq<Node>, pool: string)
    requires forall s :: s in few ==> s in many
    requires InUse(few, nodes, pool)
    ensures InUse(many, nodes, pool)
  {
    var n :| n in nodes && Occupies(few, n, pool);
    var k :| k in n.labels && IsPartitionIDLabel(k) && UsedPartition(few, n.labels[k]);
    assert UsedPartition(many, n.labels[k]);
    assert Occupies(many, n, pool);
  }
}
