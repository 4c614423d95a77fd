/**
  How far the in-use guard reaches: through which nodes a slice's hold on a pool
  is seen, and what a round deletes of what slices hold.
 */
module Guard {
  import opened Common
  import opened Partitions
  import opened NodePools
  import opened Diff
  import opened Planning
  import opened Convergence

  /* ---- Overwritten labels ---- */

  /** A configuration's own labels give a reserved label another value. */
  predicate Overwrites(c: ConfigValue, key: string, value: string) {
    key in OrElse(c.nodeLabels, map[]) && OrElse(c.nodeLabels, map[])[key] != value
  }

  lemma ReservedUnlessOverwritten(g: Gke, name: string, subblock: string, c: ConfigValue, key: string)
    requires Build(g, name, subblock, c).Success? && key in ReservedLabels(name) && key != LABEL_NODE_POOL_HASH
    ensures var labels := LabelsOf(Build(g, name, subblock, c).value);
            key in labels && (labels[key] == ReservedLabels(name)[key] <==> !Overwrites(c, key, ReservedLabels(name)[key]))
  {
  }

  lemma ReservedKeys(name: string)
    ensures LABEL_STATIC_NODEPOOL in ReservedLabels(name) && ReservedLabels(name)[LABEL_STATIC_NODEPOOL] == "true"
    ensures LABEL_NODEPOOL_MANAGER in ReservedLabels(name)
    ensures ReservedLabels(name)[LABEL_NODEPOOL_MANAGER] == LABEL_NODEPOOL_MANAGER_TPU_PODINATOR
    ensures LABEL_STATIC_NODEPOOL != LABEL_NODE_POOL_HASH && LABEL_NODEPOOL_MANAGER != LABEL_NODE_POOL_HASH
  {
    assert LABEL_STATIC_NODEPOOL[0] != LABEL_NODE_POOL_HASH[0];
    assert |LABEL_NODEPOOL_MANAGER| != |LABEL_NODE_POOL_HASH|;
    assert |LABEL_NODEPOOL_MANAGER| != |LABEL_PROVISIONER_NODEPOOL_ID|;
    assert |LABEL_NODEPOOL_MANAGER| != |LABEL_STATIC_NODEPOOL|;
  }

  /** A built pool is static exactly when its configuration does not overwrite the static label. */
  lemma StaticUnlessOverwritten(g: Gke, d: Desired)
    requires BuildDesired(g, d).Success?
    ensures IsStatic(BuildDesired(g, d).value) <==> !Overwrites(d.config, LABEL_STATIC_NODEPOOL, "true")
  {
    ReservedKeys(d.name);
    hide ReservedLabels;
    ReservedUnlessOverwritten(g, d.name, d.subblock, d.config, LABEL_STATIC_NODEPOOL);
  }

  /** A built pool carries the manager's label exactly when its configuration does not overwrite it. */
  lemma ManagedUnlessOverwritten(g: Gke, d: Desired)
    requires BuildDesired(g, d).Success?
    ensures var labels := LabelsOf(BuildDesired(g, d).value);
            LABEL_NODEPOOL_MANAGER in labels
            && (labels[LABEL_NODEPOOL_MANAGER] == LABEL_NODEPOOL_MANAGER_TPU_PODINATOR
                <==> !Overwrites(d.config, LABEL_NODEPOOL_MANAGER, LABEL_NODEPOOL_MANAGER_TPU_PODINATOR))
  {
    ReservedKeys(d.name);
    hide ReservedLabels;
    ReservedUnlessOverwritten(g, d.name, d.subblock, d.config, LABEL_NODEPOOL_MANAGER);
  }

  predicate HasLabel(n: Node, key: string, value: string) {
    key in n.labels && n.labels[key] == value
  }

  /** A node carries the manager's label and the static label. */
  predicate BothLabels(n: Node) {
    HasLabel(n, LABEL_NODEPOOL_MANAGER, LABEL_NODEPOOL_MANAGER_TPU_PODINATOR) && HasLabel(n, LABEL_STATIC_NODEPOOL, "true")
  }

  lemma {:induction false} VisibleExactly(nodes: seq<Node>, n: Node)
    ensures n in VisibleNodes(nodes)
       <==> n in nodes && BothLabels(n)
    decreases |nodes|
  {
    if nodes != [] {
      VisibleExactly(nodes[..|nodes| - 1], n);
      assert nodes == nodes[..|nodes| - 1] + [nodes[|nodes| - 1]];
    }
  }

  /** A slice holds a pool through a node that the controller sees. */
  ghost predicate SeenHeld(slices: seq<Slice>, nodes: seq<Node>, pool: string) {
    exists n :: n in nodes && Occupies(slices, n, pool) && BothLabels(n)
  }

  /** A slice's hold on a pool counts exactly when it is through a node that carries both reserved labels. */
  lemma LocksThroughVisibleNodesOnly(slices: seq<Slice>, nodes: seq<Node>, pool: string)
    ensures pool in InUseNames(slices, VisibleNodes(nodes)) <==> SeenHeld(slices, nodes, pool)
  {
    hide VisibleNodes, Occupies, BothLabels;
    forall n ensures n in VisibleNodes(nodes) <==> n in nodes && BothLabels(n) {
      VisibleExactly(nodes, n);
    }
  }

  /**
    Exactly what a round deletes of what slices hold, over all its planning: a pool
    that is desired and in ERROR, or, once slices and nodes are listed, one to be
    removed or changed that no slice holds through a node with both labels. For a
    pool in use, the second is the gap in the guard.
   */
  lemma RoundDeletesExactly(g: Gke, existing: seq<NodePoolRef>, desired: seq<Desired>,
                            slices: Option<seq<Slice>>, nodes: Option<seq<Node>>, n: string)
    requires DistinctRefs(existing) && RoundPlan(g, existing, desired, slices, nodes).Success?
    ensures Deletes(RoundPlan(g, existing, desired, slices, nodes).value, n) <==>
              || (Names(desired, n) && exists r :: r in existing && r.name == n && r.error)
              || ((Removed(existing, desired, n) || Altered(g, existing, desired, n))
                  && slices.Some? && nodes.Some? && !SeenHeld(slices.value, nodes.value, n))
  {
    PlanningEndsExactly(g, existing, desired, slices, nodes);
    DiffSucceedsIffAllBuild(g, existing, desired);
    GuardedLists(g, existing, desired, n);
    GuardedListsAreEmpty(g, existing, desired);
    ErroredExactly(g, existing, desired, n);
    var diff, refs := DiffOf(g, existing, desired).value, ByName(existing);
    PlanMembers(diff, refs, {});
    if slices.Some? && nodes.Some? {
      PlanMembers(diff, refs, InUseNames(slices.value, VisibleNodes(nodes.value)));
      LocksThroughVisibleNodesOnly(slices.value, nodes.value, n);
    }
    hide DiffOf, LockFilter, SeenHeld, Removed, Altered, AllBuild;
  }

  lemma ErroredExactly(g: Gke, existing: seq<NodePoolRef>, desired: seq<Desired>, n: string)
    requires DistinctRefs(existing) && DiffOf(g, existing, desired).Success?
    ensures n in DiffOf(g, existing, desired).value.toDeleteError
       <==> Names(desired, n) && exists r :: r in existing && r.name == n && r.error
  {
    DiffMembers(g, existing, desired);
    ByNameExactly(existing);
    hide DiffOf, ByName;
  }

  /** A node carries the two labels as its pool has them. */
  predicate CarriesLabelsOf(n: Node, np: NodePool) {
    && (LABEL_NODEPOOL_MANAGER in LabelsOf(np) ==> HasLabel(n, LABEL_NODEPOOL_MANAGER, LabelsOf(np)[LABEL_NODEPOOL_MANAGER]))
    && (LABEL_STATIC_NODEPOOL in LabelsOf(np) ==> HasLabel(n, LABEL_STATIC_NODEPOOL, LabelsOf(np)[LABEL_STATIC_NODEPOOL]))
  }

  /** The labels of a pool give its nodes away, or hide them. */
  lemma NodesShowUnlessOverwritten(g: Gke, name: string, subblock: string, c: ConfigValue, n: Node)
    requires Build(g, name, subblock, c).Success? && CarriesLabelsOf(n, Build(g, name, subblock, c).value)
    ensures BothLabels(n) <==> !OverwritesEither(c)
  {
    ReservedKeys(name);
    ReservedUnlessOverwritten(g, name, subblock, c, LABEL_STATIC_NODEPOOL);
    ReservedUnlessOverwritten(g, name, subblock, c, LABEL_NODEPOOL_MANAGER);
    hide ReservedLabels, Build, LabelsOf;
  }

  predicate OverwritesEither(c: ConfigValue) {
    || Overwrites(c, LABEL_NODEPOOL_MANAGER, LABEL_NODEPOOL_MANAGER_TPU_PODINATOR)
    || Overwrites(c, LABEL_STATIC_NODEPOOL, "true")
  }

  /**
    A pool that a slice really holds, built from one configuration and healthy, is
    deleted by the round after its configuration has changed, exactly when the
    configuration it was built from overwrites one of the two labels that its
    nodes are found by.
   */
  lemma LeasedPoolIsDeletedIffLabelsOverwritten(g: Gke, existing: seq<NodePoolRef>, desired: seq<Desired>,
                                                slices: seq<Slice>, nodes: seq<Node>,
                                                d: Desired, builtFor: string, builtFrom: ConfigValue, status: string)
    requires DistinctRefs(existing) && DistinctNames(desired) && DiffOf(g, existing, desired).Success? && d in desired
    requires Build(g, d.name, builtFor, builtFrom).Success? && status != "ERROR"
    requires var np := Build(g, d.name, builtFor, builtFrom).value;
             && RefOf(ClusterPool(np, status)) in existing && g.hash(HashDataOf(np)) != DesiredHash(g, d)
             && forall n :: n in nodes && Occupies(slices, n, d.name) ==> CarriesLabelsOf(n, np)
    requires InUse(slices, nodes, d.name)
    ensures RoundPlan(g, existing, desired, Some(slices), Some(nodes)).Success?
    ensures Deletes(RoundPlan(g, existing, desired, Some(slices), Some(nodes)).value, d.name) <==> OverwritesEither(builtFrom)
  {
    var np := Build(g, d.name, builtFor, builtFrom).value;
    BuiltPoolListsAsAsked(g, d.name, builtFor, builtFrom, status);
    assert LabelsOf(np) == RefOf(ClusterPool(np, status)).labels;
    ChangedIsUpdated(g, existing, desired, d, RefOf(ClusterPool(np, status)));
    assert Altered(g, existing, desired, d.name);
    DiffSucceedsIffAllBuild(g, existing, desired);
    PlanningEndsExactly(g, existing, desired, Some(slices), Some(nodes));
    hide DiffOf, Build, RoundPlan, OverwritesEither, BothLabels, Occupies, CarriesLabelsOf, Removed, Altered, AllBuild;
    RoundDeletesExactly(g, existing, desired, Some(slices), Some(nodes), d.name);
    forall n | n in nodes && Occupies(slices, n, d.name) ensures BothLabels(n) <==> !OverwritesEither(builtFrom) {
      NodesShowUnlessOverwritten(g, d.name, builtFor, builtFrom, n);
    }
  }

  lemma ChangedIsUpdated(g: Gke, existing: seq<NodePoolRef>, desired: seq<Desired>, d: Desired, r: NodePoolRef)
    requires DistinctRefs(existing) && DiffOf(g, existing, desired).Success?
    requires d in desired && r in existing && ChangedBy(g, r, d)
    ensures d.name in DiffOf(g, existing, desired).value.toDeleteUpdate
    ensures forall q :: q in existing && q.name == d.name ==> !q.error
  {
    DiffMembers(g, existing, desired);
    ByNameExactly(existing);
    hide DiffOf, ByName;
    assert VerdictOf(g, ByName(existing), d) == Changed;
  }

  /** A node of a pool, on a partition. */
  function LeasedNode(np: NodePool, id: string): Node {
    Node(LabelsOf(np)[GKE_NODE_POOL_NAME_LABEL := np.name][PARTITION_PREFIX + "4x4x4" + PARTITION_SUFFIX := id])
  }

  lemma LeasedNodeIsLeased(np: NodePool, id: string)
    ensures Occupies([Slice([id])], LeasedNode(np, id), np.name) && CarriesLabelsOf(LeasedNode(np, id), np)
    ensures forall name :: Occupies([Slice([id])], LeasedNode(np, id), name) ==> name == np.name
  {
    var key, n := PARTITION_PREFIX + "4x4x4" + PARTITION_SUFFIX, LeasedNode(np, id);
    assert |key| == 43 && key[..35] == PARTITION_PREFIX && key[|key| - 3..] == PARTITION_SUFFIX;
    assert |GKE_NODE_POOL_NAME_LABEL| == 29 && |LABEL_NODEPOOL_MANAGER| == 27 && |LABEL_STATIC_NODEPOOL| == 31;
    assert n.labels[GKE_NODE_POOL_NAME_LABEL] == np.name && n.labels[key] == id;
    assert UsedPartition([Slice([id])], id) by {
      assert [Slice([id])][0] in [Slice([id])] && id in [Slice([id])][0].partitionIds;
    }
  }

  /** The smallest such cluster: one leased pool and one entry, which has changed since the pool was built. */
  lemma OverwrittenLabelUnlocksLeasedPool(g: Gke, d: Desired, builtFor: string, builtFrom: ConfigValue, id: string)
    requires Build(g, d.name, builtFor, builtFrom).Success? && BuildDesired(g, d).Success?
    requires g.hash(HashDataOf(Build(g, d.name, builtFor, builtFrom).value)) != DesiredHash(g, d)
    ensures var np := Build(g, d.name, builtFor, builtFrom).value;
            var existing, slices, nodes := [RefOf(ClusterPool(np, RUNNING))], [Slice([id])], [LeasedNode(np, id)];
            && InUse(slices, nodes, d.name)
            && RoundPlan(g, existing, [d], Some(slices), Some(nodes)).Success?
            && (Deletes(RoundPlan(g, existing, [d], Some(slices), Some(nodes)).value, d.name) <==> OverwritesEither(builtFrom))
  {
    var np := Build(g, d.name, builtFor, builtFrom).value;
    var existing, slices, nodes := [RefOf(ClusterPool(np, RUNNING))], [Slice([id])], [LeasedNode(np, id)];
    BuiltPoolListsAsAsked(g, d.name, builtFor, builtFrom, RUNNING);
    LeasedNodeIsLeased(np, id);
    DiffSucceedsIffAllBuild(g, existing, [d]);
    assert existing[0] in existing && [d][0] in [d] && nodes[0] in nodes;
    assert AllBuild(g, [d]);
    hide DiffOf, Build, RoundPlan, LeasedNode, Occupies, OverwritesEither, CarriesLabelsOf, BuildDesired;
    LeasedPoolIsDeletedIffLabelsOverwritten(g, existing, [d], slices, nodes, d, builtFor, builtFrom, RUNNING);
  }
}
