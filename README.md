# resource-strategy-fit, modelled in Dafny

This project models the node-scoring core of Volcano's `resource-strategy-fit`
scheduler plugin. Given a task and a candidate node, the plugin computes:

- a **primary score**. Each requested resource that has a rule is scored
  MostAllocated or LeastAllocated. The scores are summed, normalised by the
  sum of the rule weights and scaled by `MaxNodeScore × resourceStrategyFitWeight`.
  If any tracked resource is insufficient, the whole node scores 0.
- an optional **retention** ("scarce resource avoidance") score. It sums the
  weights of the scarce resources the node has capacity for, inverts and
  normalises the sum (`1 - raw/sum`), and scales it by `MaxNodeScore × weight`.
  A node with zero capacity for any requested resource scores 0 here.

It also models how the configuration is resolved from the argument bag:

- the defaults for the overall weight and the rule map;
- per-rule normalisation;
- the case-insensitive choice of the secondary policy;
- parsing of the comma-separated list of scarce resources;
- the two registration decisions of `OnSessionOpen`.

Modules:

- `Api` (`api.dfy`): resource vectors as `map<string, real>`, where a missing
  key reads 0. Also `Task`, `Node` and `MaxNodeScore = 100`.
- `Strategy` (`strategy.dfy`): `ResourcesType`, `ResourceStrategyFit` and
  `CalculateWeight`. Its loop, which rewrites each map entry and visits the
  keys in arbitrary order as Go's `range` does, is the method
  `NormalizeInPlace`.
- `Scoring` (`scoring.dfy`): the two per-resource scorers and `Score`. `Score`
  is a loop with an early `return 0`, proved against the left fold
  `Accumulate`; its final mapping (lines 309-314) is the method
  `MapToNodeScore`, and the `switch` on the strategy type is `ResourceFit`.
- `Retention` (`retention.dfy`): `retentionWeight`, `CalculateRetentionWeight`,
  `ResourceSraScore` (a loop over the map in arbitrary order) and `SraScore`.
- `Plugin` (`plugin.dfy`): the plugin as a class whose fields are the two
  resolved configurations. `ApplySraPolicy` updates `sraPolicy` in place.
  `OnSessionOpen` returns the two registration decisions as booleans.
  `NodeOrder` adds the two terms.
- `Text` (`text.dfy`): Go's `strings.Split(s, ",")`, `TrimSpace` and `ToLower`.
- `Sums` (`sums.dfy`): the sum of a map's values, independent of visiting order.
- `Scenarios` (`scenarios.dfy`): worked examples on concrete nodes.
- `Wrappers` (`wrappers.dfy`): `Option`.

Modelling notes:

- Quantities are exact rationals (`real`) and integers are unbounded.
- `OnSessionOpen` calls `retentionScore`, but `retention.go` defines it as
  `sraScore`. Both are modelled as `Retention.SraScore`.
- `applySraPolicy` hands the decoded `sra` block to `calculateRetentionWeight`,
  whose parameter is the argument bag. The model passes the split list and
  the argument-bag values in their place:
  - `sra.retention.weight` as an `Option<int>`;
  - the per-resource integers as a lookup `string -> Option<int>`, keyed by
    resource name. The key prefix `SraRetentionResourcesPrefix` is not part
    of this model.
- A configured per-resource retention weight of 0 is kept; only a negative
  value is reset to 1 (retention.go:85-89).
- `Score` reads the node's *allocatable* vector, while `sraScore` reads its
  *capacity* vector. The model keeps both.
- A strategy type other than the two supported ones can reach `Score` only
  when the configuration was not resolved. It then scores 0 without an error,
  and its weight still counts, because the `switch` has no default case.
- A resource listed twice in the scarce list is stored once but counted twice
  in `ResourcesWeightSum`. So a node holding every scarce resource does not
  reach a retention score of 0 (`Scenarios.RepeatedNameHalvesAvoidance`).

## Model

| member | source | states |
|---|---|---|
| `Api.Get` | pkg/scheduler/plugins/resource-strategy-fit/resource_strategy_fit.go:274-277 | a resource the vector lacks reads as 0, otherwise its quantity |
| `Strategy.ConfiguredResources` | pkg/scheduler/plugins/resource-strategy-fit/resource_strategy_fit.go:128-140 | the configured rule map is used when present and non-empty, and the cpu/memory default otherwise |
| `Strategy.NormalizeRule` | pkg/scheduler/plugins/resource-strategy-fit/resource_strategy_fit.go:142-150 | the rewritten rule has weight ≥ 1 and a supported type; weights ≥ 1 and supported types are kept, weight ≤ 0 becomes 1, any other type becomes LeastAllocated |
| `Strategy.CalculateWeight` | pkg/scheduler/plugins/resource-strategy-fit/resource_strategy_fit.go:94-153 | an absent or negative overall weight becomes 10 and any given value ≥ 0 (0 included) is kept; the keys are those of the configured-or-default map, and each entry is that map's entry normalised, whatever order the loop visits the keys in |
| `Strategy.NormalizeInPlace` | pkg/scheduler/plugins/resource-strategy-fit/resource_strategy_fit.go:142-150 | the loop that rewrites every entry of the rule map, visiting the keys in any order, leaves each entry normalised and the keys unchanged |
| `Strategy.DefaultRulesResolved` | pkg/scheduler/plugins/resource-strategy-fit/resource_strategy_fit.go:128-140 | an absent or empty rule map resolves to exactly {cpu, memory}, each LeastAllocated with weight 1 |
| `Strategy.NormalizeResourcesProperties` | pkg/scheduler/plugins/resource-strategy-fit/resource_strategy_fit.go:142-151 | normalisation keeps the keys, makes every rule normal, leaves normal rules unchanged, and a second pass changes nothing |
| `Strategy.ResolvedConfigIsNormal` | pkg/scheduler/plugins/resource-strategy-fit/resource_strategy_fit.go:120-152 | every resolved configuration has overall weight ≥ 0 and only normal rules |
| `Scoring.MostRequestedScore` | pkg/scheduler/plugins/resource-strategy-fit/resource_strategy_fit.go:317-329 | capacity 0 or weight 0 gives (0, no error), checked before insufficiency; it errors exactly when capacity ≠ 0, weight ≠ 0 and requested + used > capacity |
| `Scoring.LeastRequestedScore` | pkg/scheduler/plugins/resource-strategy-fit/resource_strategy_fit.go:331-343 | the same guards and the same error condition as MostAllocated |
| `Scoring.MostRequestedBounds` | pkg/scheduler/plugins/resource-strategy-fit/resource_strategy_fit.go:322-328 | with requested, used ≥ 0 and weight ≥ 0, a non-error score lies in [0, weight] |
| `Scoring.LeastRequestedBounds` | pkg/scheduler/plugins/resource-strategy-fit/resource_strategy_fit.go:336-342 | with requested, used ≥ 0 and weight ≥ 0, a non-error score lies in [0, weight] |
| `Scoring.Complementary` | pkg/scheduler/plugins/resource-strategy-fit/resource_strategy_fit.go:317-343 | with capacity > 0, weight > 0 and requested + used ≤ capacity, neither scorer errors and their scores add up to exactly the weight |
| `Scoring.ResourceFit` | pkg/scheduler/plugins/resource-strategy-fit/resource_strategy_fit.go:284-294 | a strategy type other than the two supported ones scores 0 without an error |
| `Scoring.Score` | pkg/scheduler/plugins/resource-strategy-fit/resource_strategy_fit.go:266-315 | the loop with its early `return 0` computes exactly the left fold of the per-resource steps, divided by the weight sum when positive and scaled by 100 × overall weight |
| `Scoring.MapToNodeScore` | pkg/scheduler/plugins/resource-strategy-fit/resource_strategy_fit.go:309-314 | the sum is divided by the weight sum only when that is positive, then multiplied by 100 × overall weight, as the final mapping of the accumulators |
| `Scoring.FailedIffInsufficient` | pkg/scheduler/plugins/resource-strategy-fit/resource_strategy_fit.go:273-307 | the aggregation fails exactly when some requested resource that has a rule is insufficient (both directions) |
| `Scoring.InsufficientZeroesScore` | pkg/scheduler/plugins/resource-strategy-fit/resource_strategy_fit.go:296-300 | one insufficient tracked resource makes the node's score 0, whatever the other resources contribute |
| `Scoring.AccumulatePermutation` | pkg/scheduler/plugins/resource-strategy-fit/resource_strategy_fit.go:273-307 | the accumulators depend only on the multiset of visited names |
| `Scoring.ScoreOrderIndependent` | pkg/scheduler/plugins/resource-strategy-fit/resource_strategy_fit.go:273 | `Score` is the same for every order of the task's resource names |
| `Scoring.UntrackedIgnored` | pkg/scheduler/plugins/resource-strategy-fit/resource_strategy_fit.go:279-282 | inserting a requested resource without a rule anywhere in the list does not change the score |
| `Scoring.NoTrackedResourceScoresZero` | pkg/scheduler/plugins/resource-strategy-fit/resource_strategy_fit.go:279-282 | when no requested resource has a rule, the sum and the weight sum stay 0, so the score is 0 |
| `Scoring.AccumulateBounds` | pkg/scheduler/plugins/resource-strategy-fit/resource_strategy_fit.go:287-307 | with non-negative quantities and weights, the loop keeps 0 ≤ score ≤ weightSum |
| `Scoring.ScoreBounds` | pkg/scheduler/plugins/resource-strategy-fit/resource_strategy_fit.go:309-314 | under a resolved configuration and non-negative vectors, the score lies in [0, 100 × overall weight] |
| `Retention.EntryWeight` | pkg/scheduler/plugins/resource-strategy-fit/retention.go:85-89 | a scarce resource's weight is ≥ 0: 1 when absent or negative, the supplied value otherwise (0 included) |
| `Retention.KeptNamesTrimmed` | pkg/scheduler/plugins/resource-strategy-fit/retention.go:77-82 | the kept names are non-empty and carry no space at either end |
| `Retention.KeptMembers` | pkg/scheduler/plugins/resource-strategy-fit/retention.go:77-82 | a name is kept exactly when some piece, trimmed, is that name and the name is not empty |
| `Retention.CalculateRetentionWeight` | pkg/scheduler/plugins/resource-strategy-fit/retention.go:67-95 | the loop computes the record of the kept names: weight 1 unless an integer is supplied, each kept name stored with its entry weight, and every entry weight added to the sum |
| `Retention.RetentionMapContents` | pkg/scheduler/plugins/resource-strategy-fit/retention.go:90 | the stored names are exactly the kept names, and each is stored with its own (non-negative) entry weight even when repeated |
| `Retention.WeightSumCoversMap` | pkg/scheduler/plugins/resource-strategy-fit/retention.go:90-91 | `ResourcesWeightSum` ≥ the sum of the map's values, with equality when the kept names are distinct |
| `Retention.RetentionOfWellFormed` | pkg/scheduler/plugins/resource-strategy-fit/retention.go:67-95 | a resolved record has non-negative weights, a sum covering them, and overall weight 1 unless supplied |
| `Retention.ResourceSraScore` | pkg/scheduler/plugins/resource-strategy-fit/retention.go:137-149 | visiting the map in any order, the result is the summed weight of the scarce resources with capacity > 0 |
| `Retention.RawScoreBounds` | pkg/scheduler/plugins/resource-strategy-fit/retention.go:140-146 | with non-negative weights, that sum lies in [0, sum of the map's weights] |
| `Retention.SraScore` | pkg/scheduler/plugins/resource-strategy-fit/retention.go:101-134 | the loop with its early exit returns 0 when some requested resource has zero capacity; otherwise the raw sum, inverted and normalised when the weight sum is positive, scaled by 100 × weight |
| `Retention.SraZeroWithoutCapacity` | pkg/scheduler/plugins/resource-strategy-fit/retention.go:105-115 | zero capacity for any requested resource gives 0 |
| `Retention.SraScoreBounds` | pkg/scheduler/plugins/resource-strategy-fit/retention.go:126-133 | for a well-formed record with weight ≥ 0, the score lies in [0, 100 × weight], and a zero weight sum gives 0 |
| `Retention.SraScoreMonotone` | pkg/scheduler/plugins/resource-strategy-fit/retention.go:127-146 | giving the node positive capacity for one more scarce resource never increases the score |
| `Retention.SraScoreExtremes` | pkg/scheduler/plugins/resource-strategy-fit/retention.go:127-131 | with positive weight sum, no scarce capacity gives the full 100 × weight, and capacity for all of them gives 0 when the sum equals the map's sum |
| `Plugin.ResolvePolicy` | pkg/scheduler/plugins/resource-strategy-fit/resource_strategy_fit.go:168-182 | the policy is "retention" or "proportional" exactly when the lower-cased name is that word, and "" otherwise |
| `Plugin.ResourceStrategyFitPlugin.New` | pkg/scheduler/plugins/resource-strategy-fit/resource_strategy_fit.go:86-92 | the new plugin holds the resolved primary configuration and the resolved secondary policy |
| `Plugin.ResourceStrategyFitPlugin.ApplySraPolicy` | pkg/scheduler/plugins/resource-strategy-fit/resource_strategy_fit.go:155-185 | stores the policy chosen by the lower-cased name; it reads the retention parameters (over the comma-split list) only for retention, and leaves the primary configuration untouched |
| `Plugin.ResolveSraShape` | pkg/scheduler/plugins/resource-strategy-fit/resource_strategy_fit.go:155-185 | the resolved policy is one of "", "retention", "proportional"; the retention record is the zero record unless the policy is retention; the record is always well formed |
| `Plugin.ResourceStrategyFitPlugin.Name` | pkg/scheduler/plugins/resource-strategy-fit/resource_strategy_fit.go:187-189 | the plugin's name is "resource-strategy-fit" |
| `Plugin.ResourceStrategyFitPlugin.OnSessionOpen` | pkg/scheduler/plugins/resource-strategy-fit/resource_strategy_fit.go:253-263 | the predicate is registered iff the policy is proportional; the order function is registered iff overall weight > 0 or (policy is retention and its weight > 0) |
| `Plugin.ResourceStrategyFitPlugin.NodeOrder` | pkg/scheduler/plugins/resource-strategy-fit/resource_strategy_fit.go:213-251 | the order score is `Score` when overall weight > 0, plus the retention score when the policy is retention with weight > 0 |
| `Plugin.UnregisteredOrderScoresZero` | pkg/scheduler/plugins/resource-strategy-fit/resource_strategy_fit.go:259-263 | when the order function is not registered, it would have scored every node 0 |
| `Plugin.OrderScoreBounds` | pkg/scheduler/plugins/resource-strategy-fit/resource_strategy_fit.go:213-251 | for any argument bag and non-negative vectors, the order score lies in [0, 100 × (overall weight + active retention weight)] |
| `Plugin.EmptyArgumentsDefaults` | pkg/scheduler/plugins/resource-strategy-fit/resource_strategy_fit.go:120-185 | an empty argument bag gives the default rules, overall weight 10 and no secondary policy, so no predicate is registered and the order function is |
| `Plugin.AllZeroConfigurationUnregistered` | pkg/scheduler/plugins/resource-strategy-fit/resource_strategy_fit.go:259-261 | overall weight 0 and no retention policy: the order function is not registered |
| `Scenarios.DefaultConfigPrefersHeadroom` | pkg/scheduler/plugins/resource-strategy-fit/resource_strategy_fit.go:266-343 | under the defaults, a cpu 2 / memory 4 task scores 500 on a 10/10 node with 2/2 used, and 0 on one with 8/8 used (memory insufficient) |
| `Scenarios.GpuRetentionResolved` | pkg/scheduler/plugins/resource-strategy-fit/retention.go:67-95 | the list "gpu" with a supplied weight 10 resolves to {gpu: 10}, sum 10, overall weight 1 |
| `Scenarios.RetentionAvoidsScarceNode` | pkg/scheduler/plugins/resource-strategy-fit/retention.go:101-134 | for a cpu-only task, a node without gpu gets 100 and a node with gpu gets 0 |
| `Scenarios.RepeatedListSplits` | pkg/scheduler/plugins/resource-strategy-fit/resource_strategy_fit.go:166 | "gpu, gpu" splits into "gpu" and " gpu" |
| `Scenarios.RepeatedNameCountsTwice` | pkg/scheduler/plugins/resource-strategy-fit/retention.go:77-92 | a name repeated in the list is stored once with weight 1 but adds 2 to the sum |
| `Scenarios.RepeatedNameHalvesAvoidance` | pkg/scheduler/plugins/resource-strategy-fit/retention.go:126-133 | with that record, a node holding gpu still gets 50 |
| `Text.Split` | pkg/scheduler/plugins/resource-strategy-fit/resource_strategy_fit.go:166 | there is always at least one piece, the empty string included |
| `Text.SplitPieces` | pkg/scheduler/plugins/resource-strategy-fit/resource_strategy_fit.go:166 | no piece holds a comma, and joining the pieces with commas gives the input back |
| `Text.SplitJoin` | pkg/scheduler/plugins/resource-strategy-fit/resource_strategy_fit.go:166 | comma-free pieces survive joining then splitting |
| `Text.TrimSpace` | pkg/scheduler/plugins/resource-strategy-fit/retention.go:78 | the result is no longer than the input and has no space at either end |
| `Text.TrimSpaceStripsEnds` | pkg/scheduler/plugins/resource-strategy-fit/retention.go:78 | the result is the input with its leading and trailing spaces removed: a slice `s[i..j]` of it, with only spaces before `i` and after `j` |
| `Text.TrimSpaceEmpty` | pkg/scheduler/plugins/resource-strategy-fit/retention.go:78-81 | an entry is skipped as empty exactly when it consists of spaces only |
| `Text.ToLower` | pkg/scheduler/plugins/resource-strategy-fit/resource_strategy_fit.go:168 | lower-casing keeps the length and maps each rune by `LowerChar` |

## Left out

- Logging (`klog`) is not modelled. That includes the V(4) diagnostic loop
  over `ssn.Nodes` that looks for scarce resources found on no node
  (resource_strategy_fit.go:223-242). It has no effect on the score.
- `ResourceStrategyFit.String` and `retentionWeight.String` are presentation
  only, and the latter depends on map iteration order.
- The proportional filter is not modelled: `predicateFn`,
  `checkNodeResourceIsProportional`, `calculateProportionalResources`,
  `baseResource`, `util.ShouldAbort` and `api.NewFitErrWithStatus`. They
  are defined elsewhere in the package and the framework. The `Sra.Proportional` field is
  dropped with them. Only the policy tag "proportional" and the condition
  for registering the predicate are modelled.
- Session plumbing is not modelled: `AddPredicateFn`, `AddNodeOrderFn` and
  `OnSessionClose` (which is empty). Registration is returned as two booleans.
- Argument-bag decoding (`framework.Get`, `Arguments.GetInt`) is replaced by
  optional values and a lookup function. A value of the wrong type reads as
  absent.
- `Resource.ResourceNames` is not part of this model. A task carries the list
  of names that call would return, in its iteration order.
- float64 rounding is not modelled. `weightSum += resourceWeight` and
  `MaxNodeScore * int64(weight)` use unbounded integers, so Go's wrap-around
  is not modelled.
- `Text.ToLower`: only ASCII capitals and the two non-ASCII runes whose lower
  case is ASCII (U+0130 and U+212A) are mapped; every other rune is left
  unchanged. This does not change which policy is chosen, because the policy
  names are ASCII.
- `Retention.ResourceSraScore`: the Go function also returns an error, which
  is always nil. The model returns only the score and drops `sraScore`'s
  branch on that error.
- `Retention.SraScoreMonotone`: requires that the node already has non-zero
  capacity for every requested resource. Without this the property is false:
  if the extra resource is one the task requests, the node goes from the
  pre-check's 0 to a possibly positive score.
- `Retention.SraScoreExtremes`: the zero case requires `ResourcesWeightSum`
  to equal the sum of the map's values, which holds when the listed names are
  distinct. With a repeated name the source does not reach 0.
