/**
 * The retention ("scarce resource avoidance") policy: its configuration
 * (`retentionWeight`, `calculateRetentionWeight`) and its score
 * (`ResourceSraScore`, `sraScore`).
 */
module Retention {
  import opened Wrappers
  import opened Api
  import opened Text
  import opened Sums

  /** `RetentionPolicy`. */
  const RetentionPolicy: string := "retention"

  /**
   * `retentionWeight`: the policy's overall weight, the weight of each scarce
   * resource, and the sum of the weights as they were read.
   */
  datatype RetentionWeight = RetentionWeight(weight: int, resources: map<string, int>, resourcesWeightSum: int)

  /** The zero value Go gives the field when the policy is not retention. */
  const NoRetention: RetentionWeight := RetentionWeight(0, map[], 0)

  /**
   * The weight of one scarce resource from its optional configured integer:
   * 1 when absent, a negative value becomes 1, anything else (0 included) is kept.
   */
  function EntryWeight(arg: Option<int>): (w: int)
    ensures w >= 0
    ensures arg.Some? && arg.value >= 0 ==> w == arg.value
    ensures arg.None? || arg.value < 0 ==> w == 1
  {
    var retentionWeight := arg.GetOr(1);
    if retentionWeight < 0 then 1 else retentionWeight
  }

  /** Piece `i` of the list names the scarce resource `n`: trimmed, it is `n`, and `n` is not empty. */
  predicate KeptAt(pieces: seq<string>, i: int, n: string)
    requires 0 <= i < |pieces|
  {
    TrimSpace(pieces[i]) == n && n != ""
  }

  /** The names the loop keeps, in order: each piece trimmed, empty ones skipped. */
  function Kept(pieces: seq<string>): seq<string> {
    if pieces == [] then []
    else
      var name := TrimSpace(pieces[|pieces| - 1]);
      Kept(pieces[..|pieces| - 1]) + (if name == "" then [] else [name])
  }

  /** Every kept name is non-empty and carries no space at either end. */
  lemma {:induction false} KeptNamesTrimmed(pieces: seq<string>)
    ensures forall j :: 0 <= j < |Kept(pieces)| ==> Kept(pieces)[j] != "" && IsTrimmed(Kept(pieces)[j])
  {
    if pieces != [] {
      KeptNamesTrimmed(pieces[..|pieces| - 1]);
    }
  }

  /** A name is kept exactly when some piece, trimmed, is that name and it is not empty. */
  lemma {:induction false} KeptMembers(pieces: seq<string>, n: string)
    ensures n in Kept(pieces) <==> exists i :: 0 <= i < |pieces| && KeptAt(pieces, i, n)
  {
    if pieces != [] {
      var init := pieces[..|pieces| - 1];
      KeptMembers(init, n);
      if n in Kept(pieces) {
        KeptFromInit(pieces, init, n);
      } else {
        NotKeptAnywhere(pieces, init, n);
      }
    }
  }

  /** `Kept` of a non-empty list: the kept names of all pieces but the last, then the last piece if kept. */
  lemma {:induction false} KeptLast(pieces: seq<string>)
    requires pieces != []
    ensures Kept(pieces) == Kept(pieces[..|pieces| - 1])
      + (if TrimSpace(pieces[|pieces| - 1]) == "" then [] else [TrimSpace(pieces[|pieces| - 1])])
  {
  }

  /** A name that the pieces do not keep is kept neither from the pieces before the last nor from the last one. */
  lemma {:induction false} NotKeptLast(pieces: seq<string>, n: string)
    requires pieces != [] && n !in Kept(pieces)
    ensures n !in Kept(pieces[..|pieces| - 1]) && !KeptAt(pieces, |pieces| - 1, n)
  {
    KeptLast(pieces);
  }

  /** The "only if" step of `KeptMembers`, given the statement for the pieces before the last. */
  lemma {:induction false} KeptFromInit(pieces: seq<string>, init: seq<string>, n: string)
    requires pieces != [] && init == pieces[..|pieces| - 1]
    requires n in Kept(pieces)
    requires n in Kept(init) ==> exists i :: 0 <= i < |init| && KeptAt(init, i, n)
    ensures exists i :: 0 <= i < |pieces| && KeptAt(pieces, i, n)
  {
    var last := |pieces| - 1;
    var name := TrimSpace(pieces[last]);
    KeptLast(pieces);
    if n in Kept(init) {
      var i :| 0 <= i < |init| && KeptAt(init, i, n);
      assert init[i] == pieces[i];
      assert KeptAt(pieces, i, n);
    } else {
      assert KeptAt(pieces, last, n);
    }
  }

  /** The "if" step of `KeptMembers`, given the statement for the pieces before the last. */
  lemma {:induction false} NotKeptAnywhere(pieces: seq<string>, init: seq<string>, n: string)
    requires pieces != [] && init == pieces[..|pieces| - 1]
    requires n !in Kept(pieces)
    requires (exists i :: 0 <= i < |init| && KeptAt(init, i, n)) ==> n in Kept(init)
    ensures forall i :: 0 <= i < |pieces| ==> !KeptAt(pieces, i, n)
  {
    var last := |pieces| - 1;
    NotKeptLast(pieces, n);
    assert !exists i :: 0 <= i < |init| && KeptAt(init, i, n);
    forall i | 0 <= i < |pieces|
      ensures !KeptAt(pieces, i, n)
    {
      if i < last {
        assert pieces[i] == init[i];
        assert !KeptAt(init, i, n);
      } else {
        assert i == last;
      }
    }
  }

  /** The `Resources` map after storing `names` from left to right. */
  function RetentionMap(names: seq<string>, lookup: string -> Option<int>): map<string, int> {
    if names == [] then map[]
    else RetentionMap(names[..|names| - 1], lookup)[names[|names| - 1] := EntryWeight(lookup(names[|names| - 1]))]
  }

  /** `ResourcesWeightSum` after adding up the weights of `names`. */
  function WeightSumOf(names: seq<string>, lookup: string -> Option<int>): int {
    if names == [] then 0
    else WeightSumOf(names[..|names| - 1], lookup) + EntryWeight(lookup(names[|names| - 1]))
  }

  /** What `calculateRetentionWeight` returns. */
  function RetentionOf(pieces: seq<string>, weightArg: Option<int>, lookup: string -> Option<int>): RetentionWeight {
    RetentionWeight(weightArg.GetOr(1), RetentionMap(Kept(pieces), lookup), WeightSumOf(Kept(pieces), lookup))
  }

  /**
   * `calculateRetentionWeight`: the overall weight defaults to 1 unless an
   * integer is supplied; each piece is trimmed, empty pieces are skipped,
   * and each kept name is stored with its weight and added to the sum.
   * `lookup` stands for the per-resource integers of the argument bag.
   */
  method CalculateRetentionWeight(resources: seq<string>, weightArg: Option<int>, lookup: string -> Option<int>)
    returns (weight: RetentionWeight)
    ensures weight == RetentionOf(resources, weightArg, lookup)
  {
    weight := RetentionWeight(1, map[], 0);
    if weightArg.Some? {
      weight := weight.(weight := weightArg.value);
    }
    ghost var kept: seq<string> := [];
    for i := 0 to |resources|
      invariant kept == Kept(resources[..i])
      invariant weight.weight == weightArg.GetOr(1)
      invariant weight.resources == RetentionMap(kept, lookup)
      invariant weight.resourcesWeightSum == WeightSumOf(kept, lookup)
    {
      KeptStep(resources, i);
      var resource := TrimSpace(resources[i]);
      if resource == "" {
        continue;
      }
      var retentionWeight := 1;
      var supplied := lookup(resource);
      if supplied.Some? {
        retentionWeight := supplied.value;
      }
      if retentionWeight < 0 {
        retentionWeight := 1;
      }
      RetentionAppend(kept, resource, lookup);
      kept := kept + [resource];
      weight := weight.(resources := weight.resources[resource := retentionWeight],
                        resourcesWeightSum := weight.resourcesWeightSum + retentionWeight);
    }
    assert resources[..|resources|] == resources;
  }

  /** One more piece: `Kept` grows by the trimmed piece unless it is empty. */
  lemma {:induction false} KeptStep(pieces: seq<string>, i: int)
    requires 0 <= i < |pieces|
    ensures Kept(pieces[..i + 1]) == Kept(pieces[..i]) + (if TrimSpace(pieces[i]) == "" then [] else [TrimSpace(pieces[i])])
  {
    assert pieces[..i + 1][..i] == pieces[..i];
  }

  /** Storing one more name: the map gains its entry and the sum its weight. */
  lemma {:induction false} RetentionAppend(kept: seq<string>, n: string, lookup: string -> Option<int>)
    ensures RetentionMap(kept + [n], lookup) == RetentionMap(kept, lookup)[n := EntryWeight(lookup(n))]
    ensures WeightSumOf(kept + [n], lookup) == WeightSumOf(kept, lookup) + EntryWeight(lookup(n))
  {
    assert (kept + [n])[..|kept|] == kept;
  }

  /** The stored names are exactly `names`, each with its own entry weight, which is non-negative. */
  lemma {:induction false} RetentionMapContents(names: seq<string>, lookup: string -> Option<int>)
    ensures forall n :: n in RetentionMap(names, lookup) <==> n in names
    ensures forall n :: n in RetentionMap(names, lookup) ==> RetentionMap(names, lookup)[n] == EntryWeight(lookup(n))
    ensures NonNegativeValues(RetentionMap(names, lookup))
  {
    if names != [] {
      var init := names[..|names| - 1];
      RetentionMapContents(init, lookup);
      assert names == init + [names[|names| - 1]];
    }
  }

  /** No name occurs twice. */
  predicate DistinctNames(names: seq<string>) {
    forall i, j :: 0 <= i < j < |names| ==> names[i] != names[j]
  }

  /**
   * A repeated name overwrites its map entry but is added to the sum again,
   * so the sum is at least the sum of the map's values, and equal to it when
   * the names are distinct.
   */
  lemma {:induction false} WeightSumCoversMap(names: seq<string>, lookup: string -> Option<int>)
    ensures WeightSumOf(names, lookup) >= MapSum(RetentionMap(names, lookup))
    ensures DistinctNames(names) ==> WeightSumOf(names, lookup) == MapSum(RetentionMap(names, lookup))
  {
    if names != [] {
      var init := names[..|names| - 1];
      var name := names[|names| - 1];
      var m := RetentionMap(init, lookup);
      WeightSumCoversMap(init, lookup);
      RetentionMapContents(init, lookup);
      assert DistinctNames(names) ==> DistinctNames(init) by {
        if DistinctNames(names) {
          forall i, j | 0 <= i < j < |init| ensures init[i] != init[j] {
            assert init[i] == names[i] && init[j] == names[j];
          }
        }
      }
      var w := EntryWeight(lookup(name));
      if name in m {
        MapSumUpdate(m, name, w);
        assert !DistinctNames(names) by {
          var i :| 0 <= i < |init| && init[i] == name;
          assert names[i] == names[|names| - 1];
        }
      } else {
        MapSumInsert(m, name, w);
      }
    }
  }

  /**
   * A retention record as resolution produces it: every stored weight is
   * non-negative and the recorded sum covers them.
   */
  ghost predicate WellFormed(sra: RetentionWeight) {
    NonNegativeValues(sra.resources) && sra.resourcesWeightSum >= MapSum(sra.resources)
  }

  /** `calculateRetentionWeight` always produces a well-formed record. */
  lemma RetentionOfWellFormed(pieces: seq<string>, weightArg: Option<int>, lookup: string -> Option<int>)
    ensures WellFormed(RetentionOf(pieces, weightArg, lookup))
    ensures RetentionOf(pieces, weightArg, lookup).weight == weightArg.GetOr(1)
  {
    RetentionMapContents(Kept(pieces), lookup);
    WeightSumCoversMap(Kept(pieces), lookup);
  }

  /** The scarce resources of `m` that the node has capacity for, with their weights. */
  function Present(m: map<string, int>, capacity: ResourceVector): map<string, int> {
    map k | k in m && Get(capacity, k) > 0.0 :: m[k]
  }

  /** The raw retention score: the summed weight of the scarce resources the node has. */
  ghost function RawScore(m: map<string, int>, capacity: ResourceVector): int {
    MapSum(Present(m, capacity))
  }

  /**
   * `ResourceSraScore`: visits the map in whatever order and adds the weight
   * of every resource with positive capacity. Its error result is always nil.
   */
  method ResourceSraScore(sraResources: map<string, int>, capacity: ResourceVector) returns (score: real)
    ensures score == RawScore(sraResources, capacity) as real
  {
    score := 0.0;
    var todo := sraResources.Keys;
    while todo != {}
      invariant todo <= sraResources.Keys
      invariant score == RawScore(sraResources - todo, capacity) as real
      decreases todo
    {
      var resource :| resource in todo;
      var weight := sraResources[resource];
      ghost var done := sraResources - todo;
      assert sraResources - (todo - {resource}) == done[resource := weight];
      if Get(capacity, resource) > 0.0 {
        score := score + weight as real;
        assert Present(done[resource := weight], capacity) == Present(done, capacity)[resource := weight];
        MapSumInsert(Present(done, capacity), resource, weight);
      } else {
        assert Present(done[resource := weight], capacity) == Present(done, capacity);
      }
      todo := todo - {resource};
    }
    assert sraResources - todo == sraResources;
  }

  /** With non-negative weights the raw score lies in `[0, sum of the map's weights]`. */
  lemma RawScoreBounds(m: map<string, int>, capacity: ResourceVector)
    requires NonNegativeValues(m)
    ensures 0 <= RawScore(m, capacity) <= MapSum(m)
  {
    var keys := set k | k in m && Get(capacity, k) > 0.0;
    assert Present(m, capacity) == Restrict(m, keys);
    MapSumRestrictBounds(m, keys);
  }

  /** The node has non-zero capacity for every resource the task requests. */
  predicate CapacityForRequests(task: Task, node: Node) {
    forall i :: 0 <= i < |task.resourceNames| ==> Get(node.capacity, task.resourceNames[i]) != 0.0
  }

  /** What `sraScore` returns. */
  ghost function SraScoreOf(task: Task, node: Node, sra: RetentionWeight): real {
    if !CapacityForRequests(task, node) then 0.0
    else
      var raw := RawScore(sra.resources, node.capacity) as real;
      (if sra.resourcesWeightSum > 0 then 1.0 - raw / sra.resourcesWeightSum as real else raw)
        * (MaxNodeScore * sra.weight) as real
  }

  /**
   * `sraScore` (called `retentionScore` by the plugin): 0 when the node has
   * no capacity for some requested resource; otherwise the raw score is
   * inverted and normalised by the weight sum when positive, then scaled by
   * `MaxNodeScore * weight`.
   */
  method SraScore(task: Task, node: Node, sra: RetentionWeight) returns (score: real)
    ensures score == SraScoreOf(task, node, sra)
  {
    var capacity := node.capacity;
    var names := task.resourceNames;
    for i := 0 to |names|
      invariant forall j :: 0 <= j < i ==> Get(capacity, names[j]) != 0.0
    {
      var resourceCapacity := Get(capacity, names[i]);
      if resourceCapacity == 0.0 {
        return 0.0;
      }
    }
    score := ResourceSraScore(sra.resources, capacity);
    if sra.resourcesWeightSum > 0 {
      score := score / sra.resourcesWeightSum as real;
      score := 1.0 - score;
    }
    score := score * (MaxNodeScore * sra.weight) as real;
  }

  /** A node without capacity for some requested resource gets 0. */
  lemma SraZeroWithoutCapacity(task: Task, node: Node, sra: RetentionWeight, i: int)
    requires 0 <= i < |task.resourceNames| && Get(node.capacity, task.resourceNames[i]) == 0.0
    ensures SraScoreOf(task, node, sra) == 0.0
  {
  }

  /** `0 <= 1 - raw/sum <= 1` scaled by a non-negative factor stays in `[0, factor]`. */
  lemma InvertedRatioBounds(raw: real, sum: real, scale: real)
    requires 0.0 <= raw <= sum && sum > 0.0 && scale >= 0.0
    ensures 0.0 <= (1.0 - raw / sum) * scale <= scale
  {
    assert raw / sum <= 1.0 by {
      assert raw / sum * sum == raw;
    }
    assert 0.0 <= raw / sum;
  }

  /**
   * For a well-formed record with `weight >= 0` the score lies in
   * `[0, MaxNodeScore * weight]`; a zero weight sum forces 0.
   */
  lemma SraScoreBounds(task: Task, node: Node, sra: RetentionWeight)
    requires WellFormed(sra) && sra.weight >= 0
    ensures 0.0 <= SraScoreOf(task, node, sra) <= (MaxNodeScore * sra.weight) as real
    ensures sra.resourcesWeightSum == 0 ==> SraScoreOf(task, node, sra) == 0.0
  {
    RawScoreBounds(sra.resources, node.capacity);
    MapSumNonNegative(sra.resources);
    if CapacityForRequests(task, node) && sra.resourcesWeightSum > 0 {
      InvertedRatioBounds(RawScore(sra.resources, node.capacity) as real, sra.resourcesWeightSum as real,
        (MaxNodeScore * sra.weight) as real);
    }
  }

  /** A larger raw sum never gives a larger inverted, scaled ratio. */
  lemma InvertedRatioMonotone(raw: real, raw': real, sum: real, scale: real)
    requires raw <= raw' && sum > 0.0 && scale >= 0.0
    ensures (1.0 - raw' / sum) * scale <= (1.0 - raw / sum) * scale
  {
    var d := (raw' - raw) / sum;
    assert d >= 0.0;
    assert raw' / sum == raw / sum + d;
    assert (1.0 - raw / sum) * scale - (1.0 - raw' / sum) * scale == d * scale;
  }

  /**
   * Giving the node positive capacity for one more scarce resource never
   * raises the score, when the weights are fixed, the record is well formed,
   * `weight >= 0`, and the node already passes the capacity pre-check.
   */
  lemma SraScoreMonotone(task: Task, node: Node, sra: RetentionWeight, k: string, c: real)
    requires WellFormed(sra) && sra.weight >= 0
    requires CapacityForRequests(task, node)
    requires Get(node.capacity, k) <= 0.0 && c > 0.0
    ensures SraScoreOf(task, node.(capacity := node.capacity[k := c]), sra) <= SraScoreOf(task, node, sra)
  {
    var m := sra.resources;
    var cap' := node.capacity[k := c];
    var node' := node.(capacity := cap');
    assert CapacityForRequests(task, node') by {
      forall i | 0 <= i < |task.resourceNames|
        ensures Get(cap', task.resourceNames[i]) != 0.0
      {
        assert Get(node.capacity, task.resourceNames[i]) != 0.0;
      }
    }
    var raw, raw' := RawScore(m, node.capacity), RawScore(m, cap');
    RawScoreGrows(m, node.capacity, k, c);
    var scale := (MaxNodeScore * sra.weight) as real;
    var s := sra.resourcesWeightSum;
    if s > 0 {
      InvertedRatioMonotone(raw as real, raw' as real, s as real, scale);
      assert SraScoreOf(task, node, sra) == (1.0 - raw as real / s as real) * scale;
      assert SraScoreOf(task, node', sra) == (1.0 - raw' as real / s as real) * scale;
    } else {
      MapSumNonNegative(m);
      RawScoreBounds(m, node.capacity);
      RawScoreBounds(m, cap');
      assert raw == 0 && raw' == 0;
      assert SraScoreOf(task, node, sra) == 0.0 * scale;
      assert SraScoreOf(task, node', sra) == 0.0 * scale;
    }
  }

  /** Positive capacity for one more resource can only add to the raw score, when weights are non-negative. */
  lemma {:induction false} RawScoreGrows(m: map<string, int>, capacity: ResourceVector, k: string, c: real)
    requires NonNegativeValues(m)
    requires Get(capacity, k) <= 0.0 && c > 0.0
    ensures RawScore(m, capacity) <= RawScore(m, capacity[k := c])
  {
    var cap' := capacity[k := c];
    if k in m {
      assert Present(m, cap') == Present(m, capacity)[k := m[k]];
      MapSumInsert(Present(m, capacity), k, m[k]);
    } else {
      assert Present(m, cap') == Present(m, capacity);
    }
  }

  /**
   * The extremes, for a node that passes the pre-check and a positive sum:
   * no capacity for any scarce resource gives the full `MaxNodeScore * weight`;
   * capacity for all of them gives 0 when the sum is exactly the map's sum.
   */
  lemma SraScoreExtremes(task: Task, node: Node, sra: RetentionWeight)
    requires CapacityForRequests(task, node) && sra.resourcesWeightSum > 0
    ensures (forall k :: k in sra.resources ==> Get(node.capacity, k) <= 0.0) ==>
      SraScoreOf(task, node, sra) == (MaxNodeScore * sra.weight) as real
    ensures (forall k :: k in sra.resources ==> Get(node.capacity, k) > 0.0) && sra.resourcesWeightSum == MapSum(sra.resources) ==>
      SraScoreOf(task, node, sra) == 0.0
  {
    if forall k :: k in sra.resources ==> Get(node.capacity, k) <= 0.0 {
      assert Present(sra.resources, node.capacity) == map[];
    }
    if forall k :: k in sra.resources ==> Get(node.capacity, k) > 0.0 {
      assert Present(sra.resources, node.capacity) == sra.resources;
    }
  }
}
