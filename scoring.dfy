/**
 * Primary scoring: the two per-resource scorers and `Score`, which combines
 * them over the resources a task requests.
 */
module Scoring {
  import opened Api
  import opened Strategy

  /** A per-resource score, or the "node resources are not enough" error. */
  datatype Fit = Fit(score: real) | NotEnough

  /** `mostRequestedScore`: rewards a node that ends up more utilised. */
  function MostRequestedScore(requested: real, used: real, capacity: real, weight: int): (r: Fit)
    ensures capacity == 0.0 || weight == 0 ==> r == Fit(0.0)
    ensures r.NotEnough? <==> capacity != 0.0 && weight != 0 && requested + used > capacity
  {
    if capacity == 0.0 || weight == 0 then Fit(0.0)
    else
      var usedFinally := requested + used;
      if usedFinally > capacity then NotEnough
      else Fit(usedFinally * weight as real / capacity)
  }

  /** `leastRequestedScore`: rewards a node that stays less utilised. */
  function LeastRequestedScore(requested: real, used: real, capacity: real, weight: int): (r: Fit)
    ensures capacity == 0.0 || weight == 0 ==> r == Fit(0.0)
    ensures r.NotEnough? <==> capacity != 0.0 && weight != 0 && requested + used > capacity
  {
    if capacity == 0.0 || weight == 0 then Fit(0.0)
    else
      var usedFinally := requested + used;
      if usedFinally > capacity then NotEnough
      else Fit((capacity - usedFinally) * weight as real / capacity)
  }

  /** `a * w / c` lies in `[0, w]` when `0 <= a <= c` and `w >= 0`. */
  lemma RatioBounds(a: real, c: real, w: real)
    requires 0.0 <= a <= c && c > 0.0 && w >= 0.0
    ensures 0.0 <= a * w / c <= w
  {
    assert a * w <= c * w;
    assert c * w / c == w;
  }

  /**
   * With non-negative request and usage and a non-negative weight, a score
   * that is not an error lies in `[0, weight]` (a negative capacity always errors).
   */
  lemma MostRequestedBounds(requested: real, used: real, capacity: real, weight: int)
    requires requested >= 0.0 && used >= 0.0 && weight >= 0
    ensures MostRequestedScore(requested, used, capacity, weight).Fit? ==>
      0.0 <= MostRequestedScore(requested, used, capacity, weight).score <= weight as real
  {
    if capacity != 0.0 && weight != 0 && requested + used <= capacity {
      RatioBounds(requested + used, capacity, weight as real);
    }
  }

  lemma LeastRequestedBounds(requested: real, used: real, capacity: real, weight: int)
    requires requested >= 0.0 && used >= 0.0 && weight >= 0
    ensures LeastRequestedScore(requested, used, capacity, weight).Fit? ==>
      0.0 <= LeastRequestedScore(requested, used, capacity, weight).score <= weight as real
  {
    if capacity != 0.0 && weight != 0 && requested + used <= capacity {
      RatioBounds(capacity - (requested + used), capacity, weight as real);
    }
  }

  /** The two strategies are complementary: at equal weight their scores add up to the weight. */
  lemma Complementary(requested: real, used: real, capacity: real, weight: int)
    requires capacity > 0.0 && weight > 0 && requested + used <= capacity
    ensures MostRequestedScore(requested, used, capacity, weight).Fit?
    ensures LeastRequestedScore(requested, used, capacity, weight).Fit?
    ensures MostRequestedScore(requested, used, capacity, weight).score
          + LeastRequestedScore(requested, used, capacity, weight).score == weight as real
  {
  }

  /**
   * The score of one requested resource under its rule. A strategy other
   * than the two supported ones scores 0 without an error (the `switch` in
   * `Score` has no default case).
   */
  function ResourceFit(rule: ResourcesType, request: real, used: real, allocatable: real): (r: Fit)
    ensures !SupportedKind(rule.kind) ==> r == Fit(0.0)
  {
    if rule.kind == MostAllocated then MostRequestedScore(request, used, allocatable, rule.weight)
    else if rule.kind == LeastAllocated then LeastRequestedScore(request, used, allocatable, rule.weight)
    else Fit(0.0)
  }

  /** The fit of resource `name` of `task` on `node` under `rules`; `name` must have a rule. */
  function FitOf(name: string, requested: ResourceVector, node: Node, rules: map<string, ResourcesType>): Fit
    requires name in rules
  {
    ResourceFit(rules[name], Get(requested, name), Get(node.used, name), Get(node.allocatable, name))
  }

  /** The two accumulators of `Score`'s loop, or the early `return 0`. */
  datatype Acc = Acc(score: real, weightSum: int) | Failed

  /** One iteration of `Score`'s loop. */
  function Step(acc: Acc, name: string, requested: ResourceVector, node: Node, rules: map<string, ResourcesType>): Acc {
    if acc.Failed? || name !in rules then acc
    else
      match FitOf(name, requested, node, rules)
      case NotEnough => Failed
      case Fit(s) => Acc(acc.score + s, acc.weightSum + rules[name].weight)
  }

  /** The accumulators after visiting `names` from left to right. */
  function Accumulate(names: seq<string>, requested: ResourceVector, node: Node, rules: map<string, ResourcesType>): Acc {
    if names == [] then Acc(0.0, 0)
    else Step(Accumulate(names[..|names| - 1], requested, node, rules), names[|names| - 1], requested, node, rules)
  }

  /** The final mapping: divide by the weight sum when positive, then scale. */
  function Finish(acc: Acc, overallWeight: int): real {
    match acc
    case Failed => 0.0
    case Acc(s, ws) => (if ws > 0 then s / ws as real else s) * (MaxNodeScore * overallWeight) as real
  }

  /** What `Score` returns. */
  function ScoreOf(task: Task, node: Node, cfg: ResourceStrategyFit): real {
    Finish(Accumulate(task.resourceNames, task.resreq, node, cfg.resources), cfg.overallWeight)
  }

  /** A failure stays a failure whatever is visited next. */
  lemma {:induction false} FailedStaysFailed(names: seq<string>, i: nat, requested: ResourceVector, node: Node, rules: map<string, ResourcesType>)
    requires i <= |names|
    requires Accumulate(names[..i], requested, node, rules).Failed?
    ensures Accumulate(names, requested, node, rules).Failed?
    decreases |names| - i
  {
    if i < |names| {
      assert names[..i + 1][..i] == names[..i];
      FailedStaysFailed(names, i + 1, requested, node, rules);
    } else {
      assert names[..i] == names;
    }
  }

  /**
   * `Score`: visits the requested resources in order, skips those without a
   * rule, returns 0 on the first insufficient one, and otherwise normalises
   * by the weight sum and scales by `MaxNodeScore * overallWeight`.
   */
  method Score(task: Task, node: Node, weight: ResourceStrategyFit) returns (score: real)
    ensures score == ScoreOf(task, node, weight)
  {
    var names := task.resourceNames;
    score := 0.0;
    var weightSum := 0;
    for i := 0 to |names|
      invariant Accumulate(names[..i], task.resreq, node, weight.resources) == Acc(score, weightSum)
    {
      assert names[..i + 1][..i] == names[..i];
      var resource := names[i];
      var request := Get(task.resreq, resource);
      var allocate := Get(node.allocatable, resource);
      var nodeUsed := Get(node.used, resource);
      if resource !in weight.resources {
        continue;
      }
      var resourceWeight := weight.resources[resource].weight;
      var resourceScore := ResourceFit(weight.resources[resource], request, nodeUsed, allocate);
      if resourceScore.NotEnough? {
        FailedStaysFailed(names, i + 1, task.resreq, node, weight.resources);
        assert Accumulate(task.resourceNames, task.resreq, node, weight.resources).Failed?;
        assert ScoreOf(task, node, weight) == 0.0;
        return 0.0;
      }
      score := score + resourceScore.score;
      weightSum := weightSum + resourceWeight;
    }
    assert names[..|names|] == names;
    score := MapToNodeScore(score, weightSum, weight.overallWeight);
  }

  /**
   * The tail of `Score`: maps the sum from `[0, weightSum]` to `[0, 1]` when
   * the weight sum is positive, then scales by `MaxNodeScore * overallWeight`.
   */
  method MapToNodeScore(sum: real, weightSum: int, overallWeight: int) returns (score: real)
    ensures score == Finish(Acc(sum, weightSum), overallWeight)
  {
    score := sum;
    if weightSum > 0 {
      score := score / weightSum as real;
    }
    score := score * (MaxNodeScore * overallWeight) as real;
  }

  /** The resource at position `i` has a rule and is insufficient on the node. */
  predicate InsufficientAt(names: seq<string>, i: int, requested: ResourceVector, node: Node, rules: map<string, ResourcesType>)
    requires 0 <= i < |names|
  {
    names[i] in rules && FitOf(names[i], requested, node, rules).NotEnough?
  }

  /** All or nothing: the loop fails exactly when some requested resource with a rule is insufficient. */
  lemma {:induction false} FailedIffInsufficient(names: seq<string>, requested: ResourceVector, node: Node, rules: map<string, ResourcesType>)
    ensures Accumulate(names, requested, node, rules).Failed?
        <==> exists i :: 0 <= i < |names| && InsufficientAt(names, i, requested, node, rules)
  {
    if names != [] {
      var init, x := names[..|names| - 1], names[|names| - 1];
      FailedIffInsufficient(init, requested, node, rules);
      assert forall i :: 0 <= i < |init| ==>
        (InsufficientAt(init, i, requested, node, rules) <==> InsufficientAt(names, i, requested, node, rules));
      var last := |names| - 1;
      assert InsufficientAt(names, last, requested, node, rules) <==> x in rules && FitOf(x, requested, node, rules).NotEnough?;
      if exists i :: 0 <= i < |names| && InsufficientAt(names, i, requested, node, rules) {
        var i :| 0 <= i < |names| && InsufficientAt(names, i, requested, node, rules);
        if i < |init| {
          assert InsufficientAt(init, i, requested, node, rules);
        }
      }
    }
  }

  /** One insufficient resource with a rule zeroes the whole node, whatever the others contribute. */
  lemma InsufficientZeroesScore(task: Task, node: Node, cfg: ResourceStrategyFit, i: int)
    requires 0 <= i < |task.resourceNames|
    requires task.resourceNames[i] in cfg.resources
    requires FitOf(task.resourceNames[i], task.resreq, node, cfg.resources).NotEnough?
    ensures ScoreOf(task, node, cfg) == 0.0
  {
    FailedIffInsufficient(task.resourceNames, task.resreq, node, cfg.resources);
    assert InsufficientAt(task.resourceNames, i, task.resreq, node, cfg.resources);
  }

  /** The order of two consecutive visits does not matter. */
  lemma StepCommutes(acc: Acc, x: string, y: string, requested: ResourceVector, node: Node, rules: map<string, ResourcesType>)
    ensures Step(Step(acc, x, requested, node, rules), y, requested, node, rules)
         == Step(Step(acc, y, requested, node, rules), x, requested, node, rules)
  {
  }

  /** Visiting `t[j]` last instead of in its place gives the same accumulators. */
  lemma {:induction false} AccumulateExtract(t: seq<string>, j: int, requested: ResourceVector, node: Node, rules: map<string, ResourcesType>)
    requires 0 <= j < |t|
    ensures Accumulate(t, requested, node, rules)
         == Step(Accumulate(t[..j] + t[j + 1..], requested, node, rules), t[j], requested, node, rules)
  {
    var u := t[..|t| - 1];
    if j == |t| - 1 {
      assert t[..j] + t[j + 1..] == u;
    } else {
      var y := t[|t| - 1];
      var r := u[..j] + u[j + 1..];
      AccumulateExtract(u, j, requested, node, rules);
      assert u[j] == t[j];
      var rest := t[..j] + t[j + 1..];
      assert rest == r + [y];
      assert rest[..|rest| - 1] == r;
      StepCommutes(Accumulate(r, requested, node, rules), t[j], y, requested, node, rules);
    }
  }

  /** Removing the element at `j` removes one occurrence of it from the multiset. */
  lemma {:induction false} MultisetRemoveAt(t: seq<string>, j: int)
    requires 0 <= j < |t|
    ensures multiset(t[..j] + t[j + 1..]) == multiset(t) - multiset{t[j]}
  {
    assert t == t[..j] + [t[j]] + t[j + 1..];
    assert multiset(t) == multiset(t[..j]) + multiset{t[j]} + multiset(t[j + 1..]);
  }

  /** The accumulators depend only on the multiset of visited names. */
  lemma {:induction false} AccumulatePermutation(s: seq<string>, t: seq<string>, requested: ResourceVector, node: Node, rules: map<string, ResourcesType>)
    requires multiset(s) == multiset(t)
    ensures Accumulate(s, requested, node, rules) == Accumulate(t, requested, node, rules)
    decreases |s|
  {
    if s == [] {
      assert |t| == 0;
    } else {
      var x := s[|s| - 1];
      var init := s[..|s| - 1];
      MultisetRemoveAt(s, |s| - 1);
      assert s[..|s| - 1] + s[|s|..] == init;
      assert x in multiset(t);
      var j :| 0 <= j < |t| && t[j] == x;
      var rest := t[..j] + t[j + 1..];
      MultisetRemoveAt(t, j);
      AccumulatePermutation(init, rest, requested, node, rules);
      AccumulateExtract(t, j, requested, node, rules);
    }
  }

  /** `Score` does not depend on the order in which the requested resources are visited. */
  lemma {:induction false} ScoreOrderIndependent(task: Task, other: seq<string>, node: Node, cfg: ResourceStrategyFit)
    requires multiset(other) == multiset(task.resourceNames)
    ensures ScoreOf(task.(resourceNames := other), node, cfg) == ScoreOf(task, node, cfg)
  {
    AccumulatePermutation(other, task.resourceNames, task.resreq, node, cfg.resources);
  }

  /** A requested resource without a rule is ignored, wherever it is visited. */
  lemma {:induction false} UntrackedIgnored(a: seq<string>, x: string, b: seq<string>, requested: ResourceVector, node: Node, cfg: ResourceStrategyFit)
    requires x !in cfg.resources
    ensures ScoreOf(Task(requested, a + [x] + b), node, cfg) == ScoreOf(Task(requested, a + b), node, cfg)
  {
    var s := a + [x] + b;
    assert multiset(s) == multiset((a + b) + [x]);
    AccumulatePermutation(s, (a + b) + [x], requested, node, cfg.resources);
    assert ((a + b) + [x])[..|a + b|] == a + b;
  }

  /** The loop keeps `0 <= score <= weightSum` when quantities and weights are non-negative. */
  lemma {:induction false} AccumulateBounds(names: seq<string>, requested: ResourceVector, node: Node, rules: map<string, ResourcesType>)
    requires NonNegative(requested) && NonNegative(node.used)
    requires forall k :: k in rules ==> rules[k].weight >= 0
    ensures Accumulate(names, requested, node, rules).Acc? ==>
      0.0 <= Accumulate(names, requested, node, rules).score <= Accumulate(names, requested, node, rules).weightSum as real
  {
    if names != [] {
      var init, x := names[..|names| - 1], names[|names| - 1];
      AccumulateBounds(init, requested, node, rules);
      if x in rules {
        var rule := rules[x];
        MostRequestedBounds(Get(requested, x), Get(node.used, x), Get(node.allocatable, x), rule.weight);
        LeastRequestedBounds(Get(requested, x), Get(node.used, x), Get(node.allocatable, x), rule.weight);
      }
    }
  }

  /** Under a normal configuration and non-negative vectors, `Score` lies in `[0, MaxNodeScore * overallWeight]`. */
  lemma ScoreBounds(task: Task, node: Node, cfg: ResourceStrategyFit)
    requires NormalConfig(cfg)
    requires NonNegative(task.resreq) && NonNegative(node.used)
    ensures 0.0 <= ScoreOf(task, node, cfg) <= (MaxNodeScore * cfg.overallWeight) as real
  {
    var acc := Accumulate(task.resourceNames, task.resreq, node, cfg.resources);
    AccumulateBounds(task.resourceNames, task.resreq, node, cfg.resources);
    var scale := (MaxNodeScore * cfg.overallWeight) as real;
    if acc.Acc? {
      var n := if acc.weightSum > 0 then acc.score / acc.weightSum as real else acc.score;
      assert 0.0 <= n <= 1.0 by {
        if acc.weightSum > 0 {
          RatioBounds(acc.score, acc.weightSum as real, 1.0);
          assert acc.score * 1.0 / acc.weightSum as real == n;
        }
      }
      RatioBounds(n, 1.0, scale);
      assert n * scale / 1.0 == n * scale;
    }
  }

  /** A task none of whose requested resources has a rule scores 0. */
  lemma {:induction false} NoTrackedResourceScoresZero(names: seq<string>, requested: ResourceVector, node: Node, rules: map<string, ResourcesType>)
    requires forall i :: 0 <= i < |names| ==> names[i] !in rules
    ensures Accumulate(names, requested, node, rules) == Acc(0.0, 0)
  {
    if names != [] {
      NoTrackedResourceScoresZero(names[..|names| - 1], requested, node, rules);
    }
  }
}
