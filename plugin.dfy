/**
 * The plugin itself (`resourceStrategyFitPlugin`): construction from the
 * argument bag, the secondary-policy dispatch (`applySraPolicy`), the node
 * order function and the registration decisions of `OnSessionOpen`.
 */
module Plugin {
  import opened Wrappers
  import opened Api
  import opened Text
  import opened Strategy
  import opened Scoring
  import opened Retention

  /** `PluginName`. */
  const PluginName: string := "resource-strategy-fit"

  /** `ProportionalPolicy`, as the lower-case tag the dispatch compares with. */
  const ProportionalPolicy: string := "proportional"

  /** `sraConfig`, the decoded `sra` block (its zero value when absent). */
  datatype SraConfig = SraConfig(policy: string, resources: string)

  /**
   * The argument bag, as the values the plugin reads from it:
   * `resourceStrategyFitWeight`, `resources`, `sra`, `sra.retention.weight`,
   * and the per-resource retention integers, looked up by resource name.
   */
  datatype Arguments = Arguments(
    fitWeight: Option<int>,
    resources: Option<map<string, ResourcesType>>,
    sra: SraConfig,
    retentionWeight: Option<int>,
    retentionResourceWeight: string -> Option<int>)

  /** `Sra`: the active secondary policy and the retention parameters. */
  datatype Sra = Sra(policy: string, retention: RetentionWeight)

  /** The policy the `switch` in `applySraPolicy` selects, matching the lower-cased name. */
  function ResolvePolicy(name: string): (p: string)
    ensures p == RetentionPolicy <==> ToLower(name) == RetentionPolicy
    ensures p == ProportionalPolicy <==> ToLower(name) == ProportionalPolicy
    ensures p == "" <==> ToLower(name) != RetentionPolicy && ToLower(name) != ProportionalPolicy
  {
    var lower := ToLower(name);
    if lower == "" then ""
    else if lower == RetentionPolicy then RetentionPolicy
    else if lower == ProportionalPolicy then ProportionalPolicy
    else ""
  }

  /** What `applySraPolicy` stores. */
  function ResolveSra(args: Arguments): Sra {
    var policy := ResolvePolicy(args.sra.policy);
    if policy == RetentionPolicy then
      Sra(policy, RetentionOf(Split(args.sra.resources), args.retentionWeight, args.retentionResourceWeight))
    else Sra(policy, NoRetention)
  }

  /** The node order function is registered: some term of the score is active. */
  predicate OrderFnEnabled(weight: ResourceStrategyFit, sra: Sra) {
    weight.overallWeight > 0 || (sra.policy == RetentionPolicy && sra.retention.weight > 0)
  }

  /** What the node order function returns: the primary term plus the retention term, each when active. */
  ghost function OrderScoreOf(weight: ResourceStrategyFit, sra: Sra, task: Task, node: Node): real {
    (if weight.overallWeight > 0 then ScoreOf(task, node, weight) else 0.0)
    + (if sra.policy == RetentionPolicy && sra.retention.weight > 0 then SraScoreOf(task, node, sra.retention) else 0.0)
  }

  class ResourceStrategyFitPlugin {
    var weight: ResourceStrategyFit
    var sraPolicy: Sra

    /** `New`: resolves the primary configuration, then applies the secondary policy. */
    constructor New(args: Arguments)
      ensures weight == ResolvedConfig(args.fitWeight, args.resources)
      ensures sraPolicy == ResolveSra(args)
    {
      var w := CalculateWeight(args.fitWeight, args.resources);
      weight := w;
      sraPolicy := Sra("", NoRetention);
      new;
      ApplySraPolicy(args);
    }

    /**
     * `applySraPolicy`: splits the resource list at commas and selects the
     * policy by its lower-cased name; only retention reads its parameters.
     */
    method ApplySraPolicy(args: Arguments)
      modifies this
      ensures sraPolicy == ResolveSra(args)
      ensures weight == old(weight)
    {
      var policy := Sra("", NoRetention);
      var cfg := args.sra;
      var resources := Split(cfg.resources);
      var name := ToLower(cfg.policy);
      if name == "" {
      } else if name == RetentionPolicy {
        var retention := CalculateRetentionWeight(resources, args.retentionWeight, args.retentionResourceWeight);
        policy := Sra(RetentionPolicy, retention);
      } else if name == ProportionalPolicy {
        policy := policy.(policy := ProportionalPolicy);
      } else {
        policy := policy.(policy := "");
      }
      sraPolicy := policy;
    }

    /** `Name`. */
    function Name(): (n: string)
      ensures n == PluginName
    {
      PluginName
    }

    /**
     * The registration decisions of `OnSessionOpen`: the predicate only under
     * the proportional policy; the node order function unless both the primary
     * weight and the retention weight are switched off.
     */
    method OnSessionOpen() returns (predicateRegistered: bool, orderRegistered: bool)
      ensures predicateRegistered <==> sraPolicy.policy == ProportionalPolicy
      ensures orderRegistered <==> OrderFnEnabled(weight, sraPolicy)
    {
      predicateRegistered := sraPolicy.policy == ProportionalPolicy;
      orderRegistered := !(weight.overallWeight <= 0
        && (sraPolicy.policy != RetentionPolicy || sraPolicy.retention.weight <= 0));
    }

    /** `nodeOrderFn`: adds `Score` when the overall weight is positive and the retention score when active. */
    method NodeOrder(task: Task, node: Node) returns (score: real)
      ensures score == OrderScoreOf(weight, sraPolicy, task, node)
    {
      score := 0.0;
      if weight.overallWeight > 0 {
        var s := Score(task, node, weight);
        score := score + s;
      }
      if sraPolicy.policy == RetentionPolicy && sraPolicy.retention.weight > 0 {
        var rs := SraScore(task, node, sraPolicy.retention);
        score := score + rs;
      }
    }
  }

  /** The resolved policy is one of the three tags, and it names retention exactly when the retention record is read. */
  lemma ResolveSraShape(args: Arguments)
    ensures ResolveSra(args).policy in {"", RetentionPolicy, ProportionalPolicy}
    ensures ResolveSra(args).policy != RetentionPolicy ==> ResolveSra(args).retention == NoRetention
    ensures WellFormed(ResolveSra(args).retention)
  {
    var sra := ResolveSra(args);
    if sra.policy == RetentionPolicy {
      RetentionOfWellFormed(Split(args.sra.resources), args.retentionWeight, args.retentionResourceWeight);
    } else {
      assert NoRetention.resources == map[];
    }
  }

  /** Leaving the order function unregistered loses nothing: it would score every node 0. */
  lemma UnregisteredOrderScoresZero(weight: ResourceStrategyFit, sra: Sra, task: Task, node: Node)
    requires !OrderFnEnabled(weight, sra)
    ensures OrderScoreOf(weight, sra, task, node) == 0.0
  {
  }

  /**
   * For a plugin built from any argument bag and non-negative resource
   * vectors, the node order score lies in `[0, MaxNodeScore * (w1 + w2)]`,
   * `w1`, `w2` being the primary and retention weights where active.
   */
  lemma OrderScoreBounds(args: Arguments, task: Task, node: Node)
    requires NonNegative(task.resreq) && NonNegative(node.used)
    ensures var weight, sra := ResolvedConfig(args.fitWeight, args.resources), ResolveSra(args);
      0.0 <= OrderScoreOf(weight, sra, task, node)
      <= (MaxNodeScore * (weight.overallWeight + (if sra.policy == RetentionPolicy && sra.retention.weight > 0 then sra.retention.weight else 0))) as real
  {
    var weight, sra := ResolvedConfig(args.fitWeight, args.resources), ResolveSra(args);
    ResolvedConfigIsNormal(args.fitWeight, args.resources);
    ScoreBounds(task, node, weight);
    ResolveSraShape(args);
    if sra.policy == RetentionPolicy && sra.retention.weight > 0 {
      SraScoreBounds(task, node, sra.retention);
    }
  }

  /** An empty argument bag: default rules, overall weight 10, no secondary policy, no predicate, an order function. */
  lemma EmptyArgumentsDefaults(lookup: string -> Option<int>)
    ensures var args := Arguments(None, None, SraConfig("", ""), None, lookup);
      && ResolvedConfig(args.fitWeight, args.resources) == ResourceStrategyFit(10, DefaultResources())
      && ResolveSra(args) == Sra("", NoRetention)
      && OrderFnEnabled(ResolvedConfig(args.fitWeight, args.resources), ResolveSra(args))
  {
    DefaultRulesResolved(None, None);
  }

  /** An overall weight of 0 and no secondary policy: no order function is registered. */
  lemma AllZeroConfigurationUnregistered(resources: Option<map<string, ResourcesType>>, policy: string, lookup: string -> Option<int>)
    requires ToLower(policy) != RetentionPolicy
    ensures var args := Arguments(Some(0), resources, SraConfig(policy, ""), None, lookup);
      !OrderFnEnabled(ResolvedConfig(args.fitWeight, args.resources), ResolveSra(args))
  {
  }
}
