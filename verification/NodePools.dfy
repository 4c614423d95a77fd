/**
  Node pools: how a desired pool is built from its configuration, what of it is
  hashed, and what a listing shows of it.
 */
module NodePools {
  import opened Common
  import opened Networks

  const LABEL_NODEPOOL_MANAGER := "google.com/nodepool-manager"
  const LABEL_NODEPOOL_MANAGER_TPU_PODINATOR := "tpu-provisioner"
  const LABEL_NODE_POOL_HASH := "google.com/tpu-provisioner-nodepool-hash"
  const LABEL_PROVISIONER_NODEPOOL_ID := "provisioner-nodepool-id"
  const LABEL_STATIC_NODEPOOL := "tpu-provisioner-static-nodepool"
  const V7X_SLICE_ACCELERATOR := "tpu7x"

  /** The contents of one configuration block; absent labels and flags are nil in the source. */
  datatype ConfigValue = ConfigValue(
    nodepoolPrefix: string,
    machineType: string,
    accelerator: string,
    topology: string,
    nodeCount: int,
    nodeLabels: Option<Labels>,
    shieldedIntegrityMonitoring: Option<bool>,
    shieldedSecureBoot: Option<bool>,
    maxPodsPerNode: int,
    enableAutoRepair: Option<bool>,
    placementPolicy: string)

  datatype GKEContext = GKEContext(
    projectID: string,
    nodeZone: string,
    nodeServiceAccount: string,
    nodeAdditionalNetworks: string,
    nodeSecondaryDisk: string,
    nodeTags: seq<string>,
    nodeDiskType: string,
    nodeConfidentialStorage: bool,
    nodeBootDiskKMSKey: string,
    nodeSecureBoot: bool,
    maxPodsPerNode: int)

  datatype ReservationAffinity = ReservationAffinity(consumeReservationType: string, key: string, values: seq<string>)

  datatype PlacementPolicy = PlacementPolicy(policyName: string, tpuTopology: string, placementType: string)

  datatype ShieldedInstanceConfig = ShieldedInstanceConfig(integrityMonitoring: bool, secureBoot: bool)

  datatype SecondaryBootDisk = SecondaryBootDisk(diskImage: string, mode: string)

  datatype NodeConfig = NodeConfig(
    serviceAccount: string,
    shielded: Option<ShieldedInstanceConfig>,
    tags: seq<string>,
    secondaryBootDisks: seq<SecondaryBootDisk>,
    machineType: string,
    reservation: Option<ReservationAffinity>,
    labels: Option<Labels>,
    bootDiskKmsKey: string,
    diskType: string,
    confidentialStorage: bool)

  datatype NodeManagement = NodeManagement(autoRepair: bool, autoUpgrade: bool)

  datatype NodePool = NodePool(
    name: string,
    config: Option<NodeConfig>,
    initialNodeCount: int,
    locations: seq<string>,
    placement: Option<PlacementPolicy>,
    management: NodeManagement,
    maxSurge: int,
    maxPods: Option<int>,
    additionalNetworks: Option<seq<Network>>)

  /** The part of a node pool that is hashed. */
  datatype HashData = HashData(
    placement: Option<PlacementPolicy>,
    initialNodeCount: int,
    maxPods: Option<int>,
    machineType: string,
    reservation: Option<ReservationAffinity>,
    shielded: Option<ShieldedInstanceConfig>,
    labels: Option<Labels>)

  /** The provider: its settings and its hash, of which nothing is assumed here. */
  datatype Gke = Gke(ctx: GKEContext, hash: HashData -> string)

  function WithoutHash(labels: Labels): Labels {
    labels - {LABEL_NODE_POOL_HASH}
  }

  function HashDataOf(np: NodePool): HashData {
    match np.config
    case None => HashData(np.placement, np.initialNodeCount, np.maxPods, "", None, None, None)
    case Some(c) =>
      HashData(np.placement, np.initialNodeCount, np.maxPods, c.machineType, c.reservation, c.shielded,
               if c.labels.None? then None else Some(WithoutHash(c.labels.value)))
  }

  /** The hash of a pool: every label but the hash label itself is copied into the hashed data. */
  method NodePoolHash(g: Gke, np: NodePool) returns (hash: string)
    ensures hash == g.hash(HashDataOf(np))
  {
    var data := HashData(np.placement, np.initialNodeCount, np.maxPods, "", None, None, None);
    if np.config.Some? {
      var c := np.config.value;
      data := data.(machineType := c.machineType, reservation := c.reservation, shielded := c.shielded);
      if c.labels.Some? {
        var labels := c.labels.value;
        var copied: Labels := map[];
        var keys := labels.Keys;
        while keys != {}
          invariant keys <= labels.Keys
          invariant copied == map k | k in labels.Keys - keys && k != LABEL_NODE_POOL_HASH :: labels[k]
          decreases keys
        {
          var k :| k in keys;
          keys := keys - {k};
          if k == LABEL_NODE_POOL_HASH {
            continue;
          }
          copied := copied[k := labels[k]];
        }
        assert copied == WithoutHash(labels);
        data := data.(labels := Some(copied));
      }
    }
    hash := g.hash(data);
  }

  /* ---- Building the pool for one sub-block ---- */

  datatype BuildError = BadNetworks(error: NetworkError) | NameTooLong(name: string)

  function OrElse<T>(o: Option<T>, default: T): T {
    if o.Some? then o.value else default
  }

  function ReservedLabels(name: string): Labels {
    map[LABEL_NODEPOOL_MANAGER := LABEL_NODEPOOL_MANAGER_TPU_PODINATOR,
        LABEL_PROVISIONER_NODEPOOL_ID := name,
        LABEL_STATIC_NODEPOOL := "true"]
  }

  function ResolvedPlacement(c: ConfigValue): PlacementPolicy {
    if c.placementPolicy != "" then PlacementPolicy(c.placementPolicy, "", "")
    else if c.accelerator == V7X_SLICE_ACCELERATOR then PlacementPolicy("tpu-provisioner-" + c.topology, "", "")
    else PlacementPolicy("", c.topology, "COMPACT")
  }

  function ResolvedMaxPods(ctx: GKEContext, c: ConfigValue): int {
    if c.maxPodsPerNode != 0 then c.maxPodsPerNode else ctx.maxPodsPerNode
  }

  function ResolvedShielding(ctx: GKEContext, c: ConfigValue): ShieldedInstanceConfig {
    ShieldedInstanceConfig(OrElse(c.shieldedIntegrityMonitoring, true), OrElse(c.shieldedSecureBoot, ctx.nodeSecureBoot))
  }

  /** The pool before its hash label is stored. */
  function Unhashed(ctx: GKEContext, name: string, subblock: string, c: ConfigValue, networks: seq<Network>): NodePool {
    NodePool(
      name,
      Some(NodeConfig(
        ctx.nodeServiceAccount,
        Some(ResolvedShielding(ctx, c)),
        ctx.nodeTags,
        if ctx.nodeSecondaryDisk != "" then [SecondaryBootDisk(ctx.nodeSecondaryDisk, "CONTAINER_IMAGE_CACHE")] else [],
        c.machineType,
        Some(ReservationAffinity("SPECIFIC_RESERVATION", "compute.googleapis.com/reservation-name", [subblock])),
        Some(ReservedLabels(name) + OrElse(c.nodeLabels, map[])),
        ctx.nodeBootDiskKMSKey,
        ctx.nodeDiskType,
        ctx.nodeConfidentialStorage)),
      c.nodeCount,
      [ctx.nodeZone],
      Some(ResolvedPlacement(c)),
      NodeManagement(OrElse(c.enableAutoRepair, true), false),
      1,
      Some(ResolvedMaxPods(ctx, c)),
      if networks == [] then None else Some(networks))
  }

  function StoreHash(np: NodePool, hash: string): NodePool
    requires np.config.Some? && np.config.value.labels.Some?
  {
    np.(config := Some(np.config.value.(labels := Some(np.config.value.labels.value[LABEL_NODE_POOL_HASH := hash]))))
  }

  /** What the pool for a sub-block is, or why there is none. */
  function Build(g: Gke, name: string, subblock: string, c: ConfigValue): Result<NodePool, BuildError> {
    match ParseNetworks(g.ctx.nodeAdditionalNetworks)
    case Failure(e) => Failure(BadNetworks(e))
    case Success(networks) =>
      if |name| > 40 then Failure(NameTooLong(name))
      else
        var np := Unhashed(g.ctx, name, subblock, c, networks);
        Success(StoreHash(np, g.hash(HashDataOf(np))))
  }

  /* ---- What a built pool is, field by field ---- */

  /** A flag is as set, or its default. */
  predicate FlagIs(flag: bool, setting: Option<bool>, default: bool) {
    (setting == Some(true) ==> flag) && (setting == Some(false) ==> !flag) && (setting == None ==> flag == default)
  }

  /** A policy that is named, or named after the topology of the tpu7x accelerator; else compact placement in the topology. */
  predicate PlacedAs(p: PlacementPolicy, c: ConfigValue) {
    && (c.placementPolicy != "" ==> p.policyName == c.placementPolicy)
    && (c.placementPolicy == "" && c.accelerator == "tpu7x" ==> p.policyName == "tpu-provisioner-" + c.topology)
    && (c.placementPolicy == "" && c.accelerator != "tpu7x" ==> p.policyName == "")
    && p.placementType == (if p.policyName == "" then "COMPACT" else "")
    && p.tpuTopology == (if p.policyName == "" then c.topology else "")
  }

  /** Where the user's labels do not say otherwise, a pool has the three reserved labels; it has no other but the hash. */
  ghost predicate LabelledAs(labels: Labels, name: string, user: Labels) {
    forall key :: key != "google.com/tpu-provisioner-nodepool-hash" ==>
      && (key in user ==> key in labels && labels[key] == user[key])
      && (key !in user && key == "google.com/nodepool-manager" ==> key in labels && labels[key] == "tpu-provisioner")
      && (key !in user && key == "provisioner-nodepool-id" ==> key in labels && labels[key] == name)
      && (key !in user && key == "tpu-provisioner-static-nodepool" ==> key in labels && labels[key] == "true")
      && (key in labels ==> key in user || key in {"google.com/nodepool-manager", "provisioner-nodepool-id", "tpu-provisioner-static-nodepool"})
  }

  ghost predicate NodesAs(nc: NodeConfig, ctx: GKEContext, name: string, subblock: string, c: ConfigValue) {
    && nc.machineType == c.machineType && nc.serviceAccount == ctx.nodeServiceAccount && nc.tags == ctx.nodeTags
    && nc.bootDiskKmsKey == ctx.nodeBootDiskKMSKey && nc.diskType == ctx.nodeDiskType
    && nc.confidentialStorage == ctx.nodeConfidentialStorage
    && (ctx.nodeSecondaryDisk == "" ==> nc.secondaryBootDisks == [])
    && (ctx.nodeSecondaryDisk != "" ==>
          nc.secondaryBootDisks == [SecondaryBootDisk(ctx.nodeSecondaryDisk, "CONTAINER_IMAGE_CACHE")])
    && nc.reservation == Some(ReservationAffinity("SPECIFIC_RESERVATION", "compute.googleapis.com/reservation-name", [subblock]))
    && nc.shielded.Some? && FlagIs(nc.shielded.value.integrityMonitoring, c.shieldedIntegrityMonitoring, true)
    && FlagIs(nc.shielded.value.secureBoot, c.shieldedSecureBoot, ctx.nodeSecureBoot)
    && nc.labels.Some? && LabelledAs(nc.labels.value, name, OrElse(c.nodeLabels, map[]))
  }

  /** Every field of a pool, but for the value of its hash label, in terms of the settings it is built from. */
  ghost predicate BuiltAs(np: NodePool, ctx: GKEContext, name: string, subblock: string, c: ConfigValue) {
    && np.name == name && np.initialNodeCount == c.nodeCount && np.locations == [ctx.nodeZone] && np.maxSurge == 1
    && (c.maxPodsPerNode != 0 ==> np.maxPods == Some(c.maxPodsPerNode))
    && (c.maxPodsPerNode == 0 ==> np.maxPods == Some(ctx.maxPodsPerNode))
    && FlagIs(np.management.autoRepair, c.enableAutoRepair, true) && !np.management.autoUpgrade
    && np.placement.Some? && PlacedAs(np.placement.value, c)
    && (np.additionalNetworks == None ==> ParseNetworks(ctx.nodeAdditionalNetworks) == Success([]))
    && (np.additionalNetworks.Some? ==>
          np.additionalNetworks.value != [] && ParseNetworks(ctx.nodeAdditionalNetworks) == Success(np.additionalNetworks.value))
    && np.config.Some? && NodesAs(np.config.value, ctx, name, subblock, c)
  }

  /** User labels are written over the reserved ones, key by key in any order. */
  method PoolLabels(name: string, user: Labels) returns (labels: Labels)
    ensures labels == ReservedLabels(name) + user
  {
    labels := ReservedLabels(name);
    var keys := user.Keys;
    while keys != {}
      invariant keys <= user.Keys
      invariant labels == ReservedLabels(name) + map k | k in user.Keys - keys :: user[k]
      decreases keys
    {
      var k :| k in keys;
      labels := labels[k := user[k]];
      keys := keys - {k};
    }
  }

  /** A named policy, one named after the topology for the tpu7x accelerator, or compact placement in the topology. */
  method PlacementFor(config: ConfigValue) returns (placementPolicy: PlacementPolicy)
    ensures placementPolicy == ResolvedPlacement(config)
  {
    placementPolicy := PlacementPolicy("", "", "");
    if config.placementPolicy != "" {
      placementPolicy := placementPolicy.(policyName := config.placementPolicy);
    } else if config.accelerator == V7X_SLICE_ACCELERATOR {
      placementPolicy := placementPolicy.(policyName := "tpu-provisioner-" + config.topology);
    } else {
      placementPolicy := placementPolicy.(tpuTopology := config.topology, placementType := "COMPACT");
    }
  }

  /** The settings that start from a default and are replaced when the configuration has them. */
  method SettingsFor(ctx: GKEContext, config: ConfigValue) returns (shielding: ShieldedInstanceConfig, autorepair: bool, maxPods: int)
    ensures shielding == ResolvedShielding(ctx, config) && autorepair == OrElse(config.enableAutoRepair, true)
    ensures maxPods == ResolvedMaxPods(ctx, config)
  {
    var shieldedIntegrityMonitoring := true;
    if config.shieldedIntegrityMonitoring.Some? {
      shieldedIntegrityMonitoring := config.shieldedIntegrityMonitoring.value;
    }
    var shieldedSecureBoot := ctx.nodeSecureBoot;
    if config.shieldedSecureBoot.Some? {
      shieldedSecureBoot := config.shieldedSecureBoot.value;
    }
    autorepair := true;
    if config.enableAutoRepair.Some? {
      autorepair := config.enableAutoRepair.value;
    }
    maxPods := ctx.maxPodsPerNode;
    if config.maxPodsPerNode != 0 {
      maxPods := config.maxPodsPerNode;
    }
    shielding := ShieldedInstanceConfig(shieldedIntegrityMonitoring, shieldedSecureBoot);
  }

  /** The source's procedure: user labels are written over the reserved ones, then the hash is computed and stored. */
  method StaticNodePoolForSubBlock(g: Gke, nodePoolID: string, subblockToConsume: string, config: ConfigValue)
    returns (r: Result<NodePool, BuildError>)
    ensures r == Build(g, nodePoolID, subblockToConsume, config)
    ensures r.Success? ==> BuiltAs(r.value, g.ctx, nodePoolID, subblockToConsume, config) && CarriesOwnHash(g, r.value)
  {
    ghost var built := Build(g, nodePoolID, subblockToConsume, config);
    if built.Success? {
      BuiltPoolExactly(g, nodePoolID, subblockToConsume, config, built.value);
    }
    hide BuiltAs, CarriesOwnHash;
    hide ParseNetworks, HashDataOf, ReservedLabels, ResolvedPlacement, ResolvedShielding, ResolvedMaxPods;
    var labels := PoolLabels(nodePoolID, OrElse(config.nodeLabels, map[]));

    var secondaryDisks := [];
    if g.ctx.nodeSecondaryDisk != "" {
      secondaryDisks := [SecondaryBootDisk(g.ctx.nodeSecondaryDisk, "CONTAINER_IMAGE_CACHE")];
    }
    var networks := ParseAdditionalNodeNetworks(g.ctx.nodeAdditionalNetworks);
    if networks.Failure? {
      return Failure(BadNetworks(networks.error));
    }
    var networkConfig: Option<seq<Network>> := None;
    if |networks.value| > 0 {
      networkConfig := Some(networks.value);
    }

    var placementPolicy := PlacementFor(config);
    if |nodePoolID| > 40 {
      return Failure(NameTooLong(nodePoolID));
    }

    var shielding, autorepair, maxPods := SettingsFor(g.ctx, config);
    var np := NodePool(
      nodePoolID,
      Some(NodeConfig(
        g.ctx.nodeServiceAccount, Some(shielding), g.ctx.nodeTags, secondaryDisks, config.machineType,
        Some(ReservationAffinity("SPECIFIC_RESERVATION", "compute.googleapis.com/reservation-name", [subblockToConsume])),
        Some(labels), g.ctx.nodeBootDiskKMSKey, g.ctx.nodeDiskType, g.ctx.nodeConfidentialStorage)),
      config.nodeCount, [g.ctx.nodeZone], Some(placementPolicy),
      NodeManagement(autorepair, false), 1,
      Some(maxPods), networkConfig);
    assert np == Unhashed(g.ctx, nodePoolID, subblockToConsume, config, networks.value);
    var hash := NodePoolHash(g, np);
    return Success(StoreHash(np, hash));
  }

  /* ---- What a listing shows ---- */

  /** A pool as the service holds it. */
  datatype ClusterPool = ClusterPool(spec: NodePool, status: string)

  datatype NodePoolRef = NodePoolRef(name: string, error: bool, labels: Labels, subblockName: string)

  function LabelsOf(np: NodePool): Labels {
    if np.config.Some? && np.config.value.labels.Some? then np.config.value.labels.value else map[]
  }

  /** The sub-block a pool holds: the first value of its reservation affinity, or "". */
  function SubblockOf(np: NodePool): string {
    if np.config.Some? && np.config.value.reservation.Some? && np.config.value.reservation.value.values != []
    then np.config.value.reservation.value.values[0] else ""
  }

  function RefOf(p: ClusterPool): NodePoolRef {
    NodePoolRef(p.spec.name, p.status == "ERROR", LabelsOf(p.spec), SubblockOf(p.spec))
  }

  predicate IsStaticRef(r: NodePoolRef) {
    LABEL_STATIC_NODEPOOL in r.labels && r.labels[LABEL_STATIC_NODEPOOL] == "true"
  }

  predicate IsStatic(np: NodePool) {
    LABEL_STATIC_NODEPOOL in LabelsOf(np) && LabelsOf(np)[LABEL_STATIC_NODEPOOL] == "true"
  }

  /** A reference tells a pool's name, whether it is in ERROR, its labels and the first sub-block it holds, with "" for none. */
  predicate Shows(r: NodePoolRef, p: ClusterPool) {
    && r.name == p.spec.name && (r.error <==> p.status == "ERROR")
    && (p.spec.config.Some? && p.spec.config.value.labels.Some? ==> r.labels == p.spec.config.value.labels.value)
    && (p.spec.config.None? || p.spec.config.value.labels.None? ==> r.labels == map[])
    && (if p.spec.config.Some? && p.spec.config.value.reservation.Some? && |p.spec.config.value.reservation.value.values| > 0
        then [r.subblockName] <= p.spec.config.value.reservation.value.values else r.subblockName == "")
  }

  /** One reference per pool of the service's answer, in its order. */
  method ListNodePools(response: seq<ClusterPool>) returns (refs: seq<NodePoolRef>)
    ensures |refs| == |response| && forall i :: 0 <= i < |refs| ==> refs[i] == RefOf(response[i])
    ensures forall i :: 0 <= i < |refs| ==> Shows(refs[i], response[i])
  {
    refs := [];
    for i := 0 to |response|
      invariant |refs| == i && forall k :: 0 <= k < i ==> refs[k] == RefOf(response[k])
    {
      var np := response[i].spec;
      var labels: Labels := map[];
      var subblockName := "";
      if np.config.Some? {
        if np.config.value.labels.Some? {
          labels := np.config.value.labels.value;
        }
        if np.config.value.reservation.Some? && |np.config.value.reservation.value.values| > 0 {
          subblockName := np.config.value.reservation.value.values[0];
        }
      }
      refs := refs + [NodePoolRef(np.name, response[i].status == "ERROR", labels, subblockName)];
    }
  }

  /* ---- Facts about built pools ---- */

  /** A pool carries, as its hash label, the hash of its own content. */
  predicate CarriesOwnHash(g: Gke, np: NodePool) {
    LABEL_NODE_POOL_HASH in LabelsOf(np) && LabelsOf(np)[LABEL_NODE_POOL_HASH] == g.hash(HashDataOf(np))
  }

  /**
    Storing the hash label does not change the hash, also when the user's labels
    name the hash key: what a listing shows of a built pool is its name, the
    sub-block asked for, and the hash of the built pool itself.
   */
  lemma BuiltPoolListsAsAsked(g: Gke, name: string, subblock: string, c: ConfigValue, status: string)
    requires Build(g, name, subblock, c).Success?
    ensures var np := Build(g, name, subblock, c).value;
            var ref := RefOf(ClusterPool(np, status));
            && CarriesOwnHash(g, np)
            && ref.name == np.name == name && ref.subblockName == SubblockOf(np) == subblock
            && LABEL_NODE_POOL_HASH in ref.labels && ref.labels[LABEL_NODE_POOL_HASH] == g.hash(HashDataOf(np))
  {
    var networks := ParseNetworks(g.ctx.nodeAdditionalNetworks).value;
    var np := Unhashed(g.ctx, name, subblock, c, networks);
    HashIgnoresItself(np, g.hash(HashDataOf(np)));
  }

  lemma HashIgnoresItself(np: NodePool, hash: string)
    requires np.config.Some? && np.config.value.labels.Some?
    ensures HashDataOf(StoreHash(np, hash)) == HashDataOf(np)
  {
    var labels := np.config.value.labels.value;
    assert WithoutHash(labels[LABEL_NODE_POOL_HASH := hash]) == WithoutHash(labels);
  }

  /** The effective value of a label on a pool built with a configuration, if it has one. */
  function EffectiveLabel(name: string, c: ConfigValue, key: string): Option<string> {
    if c.nodeLabels.Some? && key in c.nodeLabels.value then Some(c.nodeLabels.value[key])
    else if key in ReservedLabels(name) then Some(ReservedLabels(name)[key])
    else None
  }

  lemma BuiltPoolIsBuiltAs(g: Gke, name: string, subblock: string, c: ConfigValue)
    requires Build(g, name, subblock, c).Success?
    ensures BuiltAs(Build(g, name, subblock, c).value, g.ctx, name, subblock, c)
  {
  }

  /** A pool built as asked that carries its own hash is the built pool: the fields and the hash leave no choice. */
  lemma BuiltPoolExactly(g: Gke, name: string, subblock: string, c: ConfigValue, np: NodePool)
    requires Build(g, name, subblock, c).Success?
    ensures np == Build(g, name, subblock, c).value <==> BuiltAs(np, g.ctx, name, subblock, c) && CarriesOwnHash(g, np)
  {
    var built := Build(g, name, subblock, c).value;
    BuiltPoolIsBuiltAs(g, name, subblock, c);
    BuiltPoolListsAsAsked(g, name, subblock, c, "");
    hide Build, LabelledAs, WithoutHash, ParseNetworks, PlacedAs;
    if BuiltAs(np, g.ctx, name, subblock, c) && CarriesOwnHash(g, np) {
      SameLabelsButHash(LabelsOf(np), LabelsOf(built), name, OrElse(c.nodeLabels, map[]));
      OnePlacement(np.placement.value, built.placement.value, c);
    }
  }

  lemma OnePlacement(p: PlacementPolicy, q: PlacementPolicy, c: ConfigValue)
    requires PlacedAs(p, c) && PlacedAs(q, c)
    ensures p == q
  {
  }

  lemma SameLabelsButHash(l1: Labels, l2: Labels, name: string, user: Labels)
    requires LabelledAs(l1, name, user) && LabelledAs(l2, name, user)
    ensures WithoutHash(l1) == WithoutHash(l2)
    ensures LABEL_NODE_POOL_HASH in l1 && LABEL_NODE_POOL_HASH in l2 && l1[LABEL_NODE_POOL_HASH] == l2[LABEL_NODE_POOL_HASH] ==> l1 == l2
  {
    forall key | key != LABEL_NODE_POOL_HASH
      ensures key in l1 <==> key in l2
      ensures key in l1 ==> l1[key] == l2[key]
    {
    }
  }

  /**
    Two requests whose settings come to the same, field by field: those hashed, in
    the settings' own terms and with their own defaults.
   */
  ghost predicate SameResolvedSpec(g: Gke, name: string, sub1: string, c1: ConfigValue, sub2: string, c2: ConfigValue) {
    && PolicyName(c1) == PolicyName(c2) && (PolicyName(c1) == "" ==> c1.topology == c2.topology)
    && c1.nodeCount == c2.nodeCount
    && (if c1.maxPodsPerNode != 0 then c1.maxPodsPerNode else g.ctx.maxPodsPerNode)
       == (if c2.maxPodsPerNode != 0 then c2.maxPodsPerNode else g.ctx.maxPodsPerNode)
    && c1.machineType == c2.machineType
    && sub1 == sub2
    && OrElse(c1.shieldedIntegrityMonitoring, true) == OrElse(c2.shieldedIntegrityMonitoring, true)
    && OrElse(c1.shieldedSecureBoot, g.ctx.nodeSecureBoot) == OrElse(c2.shieldedSecureBoot, g.ctx.nodeSecureBoot)
    && forall key :: key != LABEL_NODE_POOL_HASH ==> EffectiveLabel(name, c1, key) == EffectiveLabel(name, c2, key)
  }

  /** The placement policy a configuration refers to by name, if any. */
  function PolicyName(c: ConfigValue): string {
    if c.placementPolicy != "" then c.placementPolicy
    else if c.accelerator == V7X_SLICE_ACCELERATOR then "tpu-provisioner-" + c.topology
    else ""
  }

  /**
    What of placement, accelerator and topology counts: the name of the policy,
    and without one the topology. So an explicit policy makes the other two
    irrelevant, and spelling out the policy that is derived changes nothing.
   */
  lemma PlacementCountsByPolicyOrTopology(c: ConfigValue, d: ConfigValue)
    ensures ResolvedPlacement(c) == ResolvedPlacement(d)
       <==> PolicyName(c) == PolicyName(d) && (PolicyName(c) == "" ==> c.topology == d.topology)
  {
    assert "tpu-provisioner-" + c.topology != "" && "tpu-provisioner-" + d.topology != "";
  }

  lemma HashedLabelsAreEffective(name: string, c: ConfigValue, key: string)
    ensures var hashed := WithoutHash(ReservedLabels(name) + OrElse(c.nodeLabels, map[]));
            if key == LABEL_NODE_POOL_HASH then key !in hashed
            else EffectiveLabel(name, c, key) == if key in hashed then Some(hashed[key]) else None
  {
  }

  /** The hashed data of two built pools of one name agree exactly when their requests resolve alike. */
  lemma HashedDataIsTheResolvedSpec(g: Gke, name: string, sub1: string, c1: ConfigValue, sub2: string, c2: ConfigValue)
    requires Build(g, name, sub1, c1).Success? && Build(g, name, sub2, c2).Success?
    ensures HashDataOf(Build(g, name, sub1, c1).value) == HashDataOf(Build(g, name, sub2, c2).value)
       <==> SameResolvedSpec(g, name, sub1, c1, sub2, c2)
  {
    var networks := ParseNetworks(g.ctx.nodeAdditionalNetworks).value;
    var np1, np2 := Unhashed(g.ctx, name, sub1, c1, networks), Unhashed(g.ctx, name, sub2, c2, networks);
    HashIgnoresItself(np1, g.hash(HashDataOf(np1)));
    HashIgnoresItself(np2, g.hash(HashDataOf(np2)));
    var l1 := WithoutHash(ReservedLabels(name) + OrElse(c1.nodeLabels, map[]));
    var l2 := WithoutHash(ReservedLabels(name) + OrElse(c2.nodeLabels, map[]));
    forall key | key != LABEL_NODE_POOL_HASH
      ensures EffectiveLabel(name, c1, key) == if key in l1 then Some(l1[key]) else None
      ensures EffectiveLabel(name, c2, key) == if key in l2 then Some(l2[key]) else None
    {
      HashedLabelsAreEffective(name, c1, key);
      HashedLabelsAreEffective(name, c2, key);
    }
    assert [sub1] == [sub2] ==> [sub1][0] == [sub2][0];
    PlacementCountsByPolicyOrTopology(c1, c2);
    if SameResolvedSpec(g, name, sub1, c1, sub2, c2) {
      SameLabels(l1, l2);
    }
  }

  /** Two settings that are both given, and differ. */
  predicate BothSetApart<T(==)>(x: T, y: T, unset: T) {
    x != unset && y != unset && x != y
  }

  /** No difference between hashed settings that are spelled out on both sides goes unnoticed. */
  lemma ExplicitDifferencesAreHashed(g: Gke, name: string, sub1: string, c1: ConfigValue, sub2: string, c2: ConfigValue)
    requires Build(g, name, sub1, c1).Success? && Build(g, name, sub2, c2).Success?
    requires || sub1 != sub2 || c1.machineType != c2.machineType || c1.nodeCount != c2.nodeCount
             || BothSetApart(c1.maxPodsPerNode, c2.maxPodsPerNode, 0)
             || BothSetApart(c1.placementPolicy, c2.placementPolicy, "")
             || BothSetApart(c1.shieldedIntegrityMonitoring, c2.shieldedIntegrityMonitoring, None)
             || BothSetApart(c1.shieldedSecureBoot, c2.shieldedSecureBoot, None)
    ensures HashDataOf(Build(g, name, sub1, c1).value) != HashDataOf(Build(g, name, sub2, c2).value)
  {
    HashedDataIsTheResolvedSpec(g, name, sub1, c1, sub2, c2);
    hide Build, HashDataOf;
  }

  lemma SameLabels(l1: Labels, l2: Labels)
    requires LABEL_NODE_POOL_HASH !in l1 && LABEL_NODE_POOL_HASH !in l2
    requires forall key :: key != LABEL_NODE_POOL_HASH ==>
               (if key in l1 then Some(l1[key]) else None) == (if key in l2 then Some(l2[key]) else None)
    ensures l1 == l2
  {
    assert l1.Keys == l2.Keys;
  }

  /** Whether a configuration can be built depends only on the network list, which is looked at first, and the length of the name. */
  lemma BuildableExactly(g: Gke, name: string, subblock: string, c: ConfigValue)
    ensures Build(g, name, subblock, c).Success? <==> ParseNetworks(g.ctx.nodeAdditionalNetworks).Success? && |name| <= 40
    ensures forall e :: ParseNetworks(g.ctx.nodeAdditionalNetworks) == Failure(e) <==> Build(g, name, subblock, c) == Failure(BadNetworks(e))
    ensures ParseNetworks(g.ctx.nodeAdditionalNetworks).Success? && |name| > 40 <==>
              Build(g, name, subblock, c) == Failure(NameTooLong(name))
  {
  }

  /** The settings that a configuration may spell out or leave to the default without changing its hash. */
  lemma DefaultsAndAutoRepairAreNotHashed(g: Gke, name: string, subblock: string, c: ConfigValue, repair: Option<bool>)
    requires Build(g, name, subblock, c).Success?
    ensures var explicit := c.(
              enableAutoRepair := repair,
              maxPodsPerNode := if c.maxPodsPerNode != 0 then c.maxPodsPerNode else g.ctx.maxPodsPerNode,
              shieldedIntegrityMonitoring := Some(OrElse(c.shieldedIntegrityMonitoring, true)),
              shieldedSecureBoot := Some(OrElse(c.shieldedSecureBoot, g.ctx.nodeSecureBoot)));
            && Build(g, name, subblock, explicit).Success?
            && HashDataOf(Build(g, name, subblock, explicit).value) == HashDataOf(Build(g, name, subblock, c).value)
  {
    var explicit := c.(
              enableAutoRepair := repair,
              maxPodsPerNode := if c.maxPodsPerNode != 0 then c.maxPodsPerNode else g.ctx.maxPodsPerNode,
              shieldedIntegrityMonitoring := Some(OrElse(c.shieldedIntegrityMonitoring, true)),
              shieldedSecureBoot := Some(OrElse(c.shieldedSecureBoot, g.ctx.nodeSecureBoot)));
    assert forall key :: EffectiveLabel(name, explicit, key) == EffectiveLabel(name, c, key);
    HashedDataIsTheResolvedSpec(g, name, subblock, explicit, subblock, c);
  }
}
