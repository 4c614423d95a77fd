/**
  Configuration blocks as shared, mutable objects, and merging a sub-block's
  block with the default one.

  A merge copies the default block, but its label map only by reference.
 */
module Config {
  import opened Common
  import opened NodePools

  /** A label map on the heap. */
  class LabelMap {
    var labels: Labels

    constructor ()
      ensures labels == map[]
    {
      labels := map[];
    }
  }

  class StaticNodePoolConfig {
    var nodepoolPrefix: string
    var machineType: string
    var accelerator: string
    var topology: string
    var nodeCount: int
    var nodeLabels: LabelMap?
    var shieldedIntegrityMonitoring: Option<bool>
    var shieldedSecureBoot: Option<bool>
    var maxPodsPerNode: int
    var enableAutoRepair: Option<bool>
    var placementPolicy: string

    /** A copy of all fields; the label map is copied by reference. */
    constructor Copy(other: StaticNodePoolConfig)
      ensures Scalars() == other.Scalars() && nodeLabels == other.nodeLabels
    {
      nodepoolPrefix := other.nodepoolPrefix;
      machineType := other.machineType;
      accelerator := other.accelerator;
      topology := other.topology;
      nodeCount := other.nodeCount;
      nodeLabels := other.nodeLabels;
      shieldedIntegrityMonitoring := other.shieldedIntegrityMonitoring;
      shieldedSecureBoot := other.shieldedSecureBoot;
      maxPodsPerNode := other.maxPodsPerNode;
      enableAutoRepair := other.enableAutoRepair;
      placementPolicy := other.placementPolicy;
    }

    /** Takes over the name prefix and the hardware fields that the override sets. */
    method OverrideHardware(subblock: StaticNodePoolConfig)
      requires subblock != this
      modifies `nodepoolPrefix, `machineType, `accelerator, `topology, `nodeCount
      ensures var over := Override(old(Scalars()), subblock.Scalars());
              && nodepoolPrefix == over.nodepoolPrefix && machineType == over.machineType && accelerator == over.accelerator
              && topology == over.topology && nodeCount == over.nodeCount
    {
      if subblock.nodepoolPrefix != "" {
        nodepoolPrefix := subblock.nodepoolPrefix;
      }
      if subblock.machineType != "" {
        machineType := subblock.machineType;
      }
      if subblock.accelerator != "" {
        accelerator := subblock.accelerator;
      }
      if subblock.topology != "" {
        topology := subblock.topology;
      }
      if subblock.nodeCount != 0 {
        nodeCount := subblock.nodeCount;
      }
    }

    /** Takes over the node settings that the override sets. */
    method OverrideSettings(subblock: StaticNodePoolConfig)
      requires subblock != this
      modifies `shieldedIntegrityMonitoring, `shieldedSecureBoot, `maxPodsPerNode, `enableAutoRepair, `placementPolicy
      ensures var over := Override(old(Scalars()), subblock.Scalars());
              && shieldedIntegrityMonitoring == over.shieldedIntegrityMonitoring && shieldedSecureBoot == over.shieldedSecureBoot
              && maxPodsPerNode == over.maxPodsPerNode && enableAutoRepair == over.enableAutoRepair
              && placementPolicy == over.placementPolicy
    {
      if subblock.shieldedIntegrityMonitoring.Some? {
        shieldedIntegrityMonitoring := subblock.shieldedIntegrityMonitoring;
      }
      if subblock.shieldedSecureBoot.Some? {
        shieldedSecureBoot := subblock.shieldedSecureBoot;
      }
      if subblock.maxPodsPerNode != 0 {
        maxPodsPerNode := subblock.maxPodsPerNode;
      }
      if subblock.enableAutoRepair.Some? {
        enableAutoRepair := subblock.enableAutoRepair;
      }
      if subblock.placementPolicy != "" {
        placementPolicy := subblock.placementPolicy;
      }
    }

    /** Everything but the labels. */
    function Scalars(): ConfigValue
      reads this
    {
      ConfigValue(nodepoolPrefix, machineType, accelerator, topology, nodeCount, None, shieldedIntegrityMonitoring,
                  shieldedSecureBoot, maxPodsPerNode, enableAutoRepair, placementPolicy)
    }

    function Value(): ConfigValue
      reads this, nodeLabels
    {
      Scalars().(nodeLabels := LabelsIn(nodeLabels))
    }
  }

  function LabelsIn(m: LabelMap?): Option<Labels>
    reads m
  {
    if m == null then None else Some(m.labels)
  }

  ghost function ValueOf(c: StaticNodePoolConfig?): Option<ConfigValue>
    reads c, if c == null then null else c.nodeLabels
  {
    if c == null then None else Some(c.Value())
  }

  /** The fields of a merge other than the labels: the override's where it has one, else the default's. */
  function Override(global: ConfigValue, subblock: ConfigValue): ConfigValue {
    ConfigValue(
      if subblock.nodepoolPrefix != "" then subblock.nodepoolPrefix else global.nodepoolPrefix,
      if subblock.machineType != "" then subblock.machineType else global.machineType,
      if subblock.accelerator != "" then subblock.accelerator else global.accelerator,
      if subblock.topology != "" then subblock.topology else global.topology,
      if subblock.nodeCount != 0 then subblock.nodeCount else global.nodeCount,
      None,
      if subblock.shieldedIntegrityMonitoring.Some? then subblock.shieldedIntegrityMonitoring else global.shieldedIntegrityMonitoring,
      if subblock.shieldedSecureBoot.Some? then subblock.shieldedSecureBoot else global.shieldedSecureBoot,
      if subblock.maxPodsPerNode != 0 then subblock.maxPodsPerNode else global.maxPodsPerNode,
      if subblock.enableAutoRepair.Some? then subblock.enableAutoRepair else global.enableAutoRepair,
      if subblock.placementPolicy != "" then subblock.placementPolicy else global.placementPolicy)
  }

  /** A setting is its own value where that is set, and the default otherwise. */
  predicate Takes<T(==)>(result: T, own: T, default: T, unset: T) {
    (own != unset ==> result == own) && (own == unset ==> result == default)
  }

  /** Each field but the labels is the override's where it is set there, else the default's, whatever the other fields are. */
  predicate TakesOver(merged: ConfigValue, global: ConfigValue, subblock: ConfigValue) {
    && Takes(merged.nodepoolPrefix, subblock.nodepoolPrefix, global.nodepoolPrefix, "")
    && Takes(merged.machineType, subblock.machineType, global.machineType, "")
    && Takes(merged.accelerator, subblock.accelerator, global.accelerator, "")
    && Takes(merged.topology, subblock.topology, global.topology, "")
    && Takes(merged.nodeCount, subblock.nodeCount, global.nodeCount, 0)
    && Takes(merged.shieldedIntegrityMonitoring, subblock.shieldedIntegrityMonitoring, global.shieldedIntegrityMonitoring, None)
    && Takes(merged.shieldedSecureBoot, subblock.shieldedSecureBoot, global.shieldedSecureBoot, None)
    && Takes(merged.maxPodsPerNode, subblock.maxPodsPerNode, global.maxPodsPerNode, 0)
    && Takes(merged.enableAutoRepair, subblock.enableAutoRepair, global.enableAutoRepair, None)
    && Takes(merged.placementPolicy, subblock.placementPolicy, global.placementPolicy, "")
  }

  /** The labels that a block overrides. */
  ghost function OverrideLabels(c: StaticNodePoolConfig): Labels
    reads c, c.nodeLabels
  {
    if c.nodeLabels == null then map[] else c.nodeLabels.labels
  }

  /** Writes the labels of one map over those of another, key by key in any order. */
  method WriteOver(target: LabelMap, source: LabelMap)
    modifies target
    ensures target.labels == old(target.labels) + old(source.labels)
  {
    ghost var base, over := target.labels, source.labels;
    var keys := source.labels.Keys;
    while keys != {}
      invariant keys <= over.Keys
      invariant source != target ==> source.labels == over
      invariant target.labels == base + map k | k in over.Keys - keys :: over[k]
      decreases keys
    {
      var k :| k in keys;
      assert k in source.labels && source.labels[k] == over[k];
      target.labels := target.labels[k := source.labels[k]];
      keys := keys - {k};
    }
    assert over == map k | k in over.Keys :: over[k];
  }

  /** Writes the override's labels into the map that the target refers to, or into a new one if it refers to none. */
  method MergeLabels(res: StaticNodePoolConfig, subblock: StaticNodePoolConfig)
    requires res != subblock
    modifies res`nodeLabels, res.nodeLabels
    ensures old(res.nodeLabels) != null ==>
              && res.nodeLabels == old(res.nodeLabels)
              && res.nodeLabels.labels == old(res.nodeLabels.labels) + old(OverrideLabels(subblock))
    ensures old(res.nodeLabels) == null ==>
              if old(OverrideLabels(subblock)) == map[] then res.nodeLabels == null
              else res.nodeLabels != null && fresh(res.nodeLabels) && res.nodeLabels.labels == old(OverrideLabels(subblock))
  {
    if subblock.nodeLabels != null && |subblock.nodeLabels.labels| > 0 {
      if res.nodeLabels == null {
        res.nodeLabels := new LabelMap();
      }
      WriteOver(res.nodeLabels, subblock.nodeLabels);
    }
  }

  /** A copy of the default block with the override's fields; without one of the two, the other itself. */
  method MergeConfig(global: StaticNodePoolConfig?, subblock: StaticNodePoolConfig?) returns (merged: StaticNodePoolConfig?)
    modifies if global == null then null else global.nodeLabels
    ensures global == null ==> merged == subblock
    ensures global != null && subblock == null ==> merged == global
    ensures global != null && subblock != null ==>
              && merged != null && fresh(merged)
              && merged.Scalars() == Override(global.Scalars(), subblock.Scalars())
              && TakesOver(merged.Scalars(), global.Scalars(), subblock.Scalars())
              && (global.nodeLabels != null ==>
                    && merged.nodeLabels == global.nodeLabels
                    && global.nodeLabels.labels == old(global.nodeLabels.labels) + old(OverrideLabels(subblock)))
              && (global.nodeLabels == null ==>
                    if old(OverrideLabels(subblock)) == map[] then merged.nodeLabels == null
                    else merged.nodeLabels != null && fresh(merged.nodeLabels) && merged.nodeLabels.labels == old(OverrideLabels(subblock)))
    ensures global != null && subblock == null && global.nodeLabels != null ==> global.nodeLabels.labels == old(global.nodeLabels.labels)
  {
    if global == null {
      return subblock;
    }
    if subblock == null {
      return global;
    }
    var res := new StaticNodePoolConfig.Copy(global);
    res.OverrideHardware(subblock);
    MergeLabels(res, subblock);
    res.OverrideSettings(subblock);
    return res;
  }
}
