/**
 * The primary configuration of the plugin (`ResourceStrategyFit`) and its
 * resolution from the argument bag (`calculateWeight`).
 */
module Strategy {
  import opened Wrappers

  /** `config.ScoringStrategyType` is a string; two values are supported. */
  type ScoringStrategyType = string

  const LeastAllocated: ScoringStrategyType := "LeastAllocated"
  const MostAllocated: ScoringStrategyType := "MostAllocated"

  /** `DefaultResourceStrategyFitPluginWeight`. */
  const DefaultPluginWeight: int := 10

  /** `ResourcesType`: the scoring strategy and weight of one resource. */
  datatype ResourcesType = ResourcesType(kind: ScoringStrategyType, weight: int)

  /** `ResourceStrategyFit`: the overall weight and the per-resource rules. */
  datatype ResourceStrategyFit = ResourceStrategyFit(overallWeight: int, resources: map<string, ResourcesType>)

  predicate SupportedKind(kind: ScoringStrategyType) {
    kind == LeastAllocated || kind == MostAllocated
  }

  /** A rule as resolution leaves it. */
  predicate NormalRule(rule: ResourcesType) {
    rule.weight >= 1 && SupportedKind(rule.kind)
  }

  /** The rules used when none, or an empty map, is configured. */
  function DefaultResources(): map<string, ResourcesType> {
    map["cpu" := ResourcesType(LeastAllocated, 1), "memory" := ResourcesType(LeastAllocated, 1)]
  }

  /** The configured rules, or the defaults when absent or empty. */
  function ConfiguredResources(arg: Option<map<string, ResourcesType>>): (m: map<string, ResourcesType>)
    ensures arg.Some? && arg.value != map[] ==> m == arg.value
    ensures arg.None? || arg.value == map[] ==> m == DefaultResources()
  {
    if arg.None? || |arg.value| == 0 then DefaultResources() else arg.value
  }

  /**
   * One rule as resolution rewrites it: a non-positive weight becomes 1 and an
   * unsupported strategy becomes LeastAllocated; anything else is kept.
   */
  function NormalizeRule(rule: ResourcesType): (r: ResourcesType)
    ensures NormalRule(r)
    ensures rule.weight >= 1 ==> r.weight == rule.weight
    ensures rule.weight < 1 ==> r.weight == 1
    ensures SupportedKind(rule.kind) ==> r.kind == rule.kind
    ensures !SupportedKind(rule.kind) ==> r.kind == LeastAllocated
  {
    ResourcesType(
      if SupportedKind(rule.kind) then rule.kind else LeastAllocated,
      if rule.weight <= 0 then 1 else rule.weight)
  }

  /** Every rule of the map rewritten by `NormalizeRule`. */
  function NormalizeResources(m: map<string, ResourcesType>): map<string, ResourcesType> {
    map k | k in m :: NormalizeRule(m[k])
  }

  /** The overall weight resolution gives: absent or negative means the default. */
  function ResolvedOverallWeight(arg: Option<int>): int {
    if arg.None? || arg.value < 0 then DefaultPluginWeight else arg.value
  }

  /** What `calculateWeight` returns for the two arguments. */
  function ResolvedConfig(weightArg: Option<int>, resourcesArg: Option<map<string, ResourcesType>>): ResourceStrategyFit {
    ResourceStrategyFit(ResolvedOverallWeight(weightArg), NormalizeResources(ConfiguredResources(resourcesArg)))
  }

  /** A configuration as resolution leaves it. */
  predicate NormalConfig(cfg: ResourceStrategyFit) {
    cfg.overallWeight >= 0 && forall k :: k in cfg.resources ==> NormalRule(cfg.resources[k])
  }

  /**
   * `calculateWeight`: defaults the overall weight, defaults the rule map and
   * rewrites each of its entries in place, in whatever order the map is visited.
   */
  method CalculateWeight(weightArg: Option<int>, resourcesArg: Option<map<string, ResourcesType>>)
    returns (cfg: ResourceStrategyFit)
    ensures weightArg.None? || weightArg.value < 0 ==> cfg.overallWeight == DefaultPluginWeight
    ensures weightArg.Some? && weightArg.value >= 0 ==> cfg.overallWeight == weightArg.value
    ensures cfg.resources.Keys == ConfiguredResources(resourcesArg).Keys
    ensures forall k :: k in cfg.resources ==> cfg.resources[k] == NormalizeRule(ConfiguredResources(resourcesArg)[k])
    ensures cfg == ResolvedConfig(weightArg, resourcesArg)
  {
    var pluginWeight := 0;
    var found := weightArg.Some?;
    if found {
      pluginWeight := weightArg.value;
    }
    if !found || pluginWeight < 0 {
      pluginWeight := DefaultPluginWeight;
    }

    var resources: map<string, ResourcesType>;
    if resourcesArg.Some? {
      resources := resourcesArg.value;
    }
    if resourcesArg.None? || |resources| == 0 {
      resources := DefaultResources();
    }

    resources := NormalizeInPlace(resources);
    cfg := ResourceStrategyFit(pluginWeight, resources);
  }

  /**
   * The loop of `calculateWeight` that rewrites every entry of the rule map,
   * visiting the keys in whatever order.
   */
  method NormalizeInPlace(initial: map<string, ResourcesType>) returns (resources: map<string, ResourcesType>)
    ensures resources == NormalizeResources(initial)
  {
    resources := initial;
    var todo := resources.Keys;
    while todo != {}
      invariant todo <= initial.Keys
      invariant resources.Keys == initial.Keys
      invariant forall k :: k in todo ==> resources[k] == initial[k]
      invariant forall k :: k in initial && k !in todo ==> resources[k] == NormalizeRule(initial[k])
      decreases todo
    {
      var k :| k in todo;
      var v := resources[k];
      if v.weight <= 0 {
        v := v.(weight := 1);
      }
      if v.kind != LeastAllocated && v.kind != MostAllocated {
        v := v.(kind := LeastAllocated);
      }
      resources := resources[k := v];
      todo := todo - {k};
    }
  }

  /** An absent or empty rule map resolves to exactly cpu and memory, LeastAllocated, weight 1. */
  lemma DefaultRulesResolved(weightArg: Option<int>, resourcesArg: Option<map<string, ResourcesType>>)
    requires resourcesArg.None? || resourcesArg.value == map[]
    ensures ResolvedConfig(weightArg, resourcesArg).resources
         == map["cpu" := ResourcesType(LeastAllocated, 1), "memory" := ResourcesType(LeastAllocated, 1)]
  {
    var m := ResolvedConfig(weightArg, resourcesArg).resources;
    assert m.Keys == {"cpu", "memory"};
  }

  /**
   * Normalisation keeps the keys, leaves every rule normal, keeps rules that
   * were already normal, and a second pass changes nothing.
   */
  lemma NormalizeResourcesProperties(m: map<string, ResourcesType>)
    ensures NormalizeResources(m).Keys == m.Keys
    ensures forall k :: k in m ==> NormalRule(NormalizeResources(m)[k])
    ensures forall k :: k in m && NormalRule(m[k]) ==> NormalizeResources(m)[k] == m[k]
    ensures NormalizeResources(NormalizeResources(m)) == NormalizeResources(m)
  {
    var n := NormalizeResources(m);
    assert NormalizeResources(n).Keys == n.Keys;
    forall k | k in n ensures NormalizeResources(n)[k] == n[k] {
      assert NormalRule(n[k]);
    }
  }

  /** Every resolved configuration is normal. */
  lemma ResolvedConfigIsNormal(weightArg: Option<int>, resourcesArg: Option<map<string, ResourcesType>>)
    ensures NormalConfig(ResolvedConfig(weightArg, resourcesArg))
  {
    NormalizeResourcesProperties(ConfiguredResources(resourcesArg));
  }
}
