/** Worked scenarios of the plugin's behaviour, on concrete tasks and nodes. */
module Scenarios {
  import opened Wrappers
  import opened Api
  import opened Text
  import opened Sums
  import opened Strategy
  import opened Scoring
  import opened Retention
  import opened Plugin

  /**
   * Default rules and overall weight: a task asking for 2 cpu and 4 memory
   * scores 500 on a node with 10/10 allocatable and 2/2 used, and 0 on a node
   * with 8/8 used, where memory is insufficient.
   */
  lemma DefaultConfigPrefersHeadroom()
    ensures var cfg := ResolvedConfig(None, None);
      var task := Task(map["cpu" := 2.0, "memory" := 4.0], ["cpu", "memory"]);
      var ten := map["cpu" := 10.0, "memory" := 10.0];
      && ScoreOf(task, Node(ten, ten, map["cpu" := 2.0, "memory" := 2.0]), cfg) == 500.0
      && ScoreOf(task, Node(ten, ten, map["cpu" := 8.0, "memory" := 8.0]), cfg) == 0.0
  {
    DefaultRulesResolved(None, None);
    var cfg := ResolvedConfig(None, None);
    var requested := map["cpu" := 2.0, "memory" := 4.0];
    var ten := map["cpu" := 10.0, "memory" := 10.0];
    var a := Node(ten, ten, map["cpu" := 2.0, "memory" := 2.0]);
    var b := Node(ten, ten, map["cpu" := 8.0, "memory" := 8.0]);
    var names := ["cpu", "memory"];
    assert names[..1] == ["cpu"] && names[..1][..0] == [];
    assert FitOf("cpu", requested, a, cfg.resources) == Fit(0.6);
    assert FitOf("memory", requested, a, cfg.resources) == Fit(0.4);
    assert Accumulate(names, requested, a, cfg.resources) == Acc(1.0, 2);
    assert FitOf("memory", requested, b, cfg.resources) == NotEnough;
    assert Accumulate(names, requested, b, cfg.resources) == Failed;
  }

  /** The list "gpu" with a configured weight of 10 resolves to one scarce resource of weight 10. */
  lemma GpuRetentionResolved(lookup: string -> Option<int>)
    requires lookup("gpu") == Some(10)
    ensures RetentionOf(Split("gpu"), None, lookup) == RetentionWeight(1, map["gpu" := 10], 10)
  {
    SplitNoComma("gpu");
    assert TrimLeft("gpu") == "gpu";
    assert TrimRight("gpu") == "gpu";
    assert Kept(["gpu"]) == ["gpu"] by {
      assert ["gpu"][..0] == [];
    }
    assert ["gpu"][..0] == [];
  }

  /**
   * Retention on "gpu" with weight 10: a task asking only for cpu gets the
   * full 100 on a node without gpu and 0 on a node that has gpu.
   */
  lemma RetentionAvoidsScarceNode()
    ensures var sra := RetentionWeight(1, map["gpu" := 10], 10);
      var task := Task(map["cpu" := 1.0], ["cpu"]);
      && SraScoreOf(task, Node(map["cpu" := 10.0], map[], map[]), sra) == 100.0
      && SraScoreOf(task, Node(map["cpu" := 10.0, "gpu" := 1.0], map[], map[]), sra) == 0.0
  {
    var sra := RetentionWeight(1, map["gpu" := 10], 10);
    MapSumInsert(map[], "gpu", 10);
    assert map[]["gpu" := 10] == sra.resources;
    assert Present(sra.resources, map["cpu" := 10.0, "gpu" := 1.0]) == sra.resources;
    assert Present(sra.resources, map["cpu" := 10.0]) == map[];
  }

  /** "gpu, gpu" splits into a name and the same name after a space. */
  lemma RepeatedListSplits()
    ensures Split("gpu, gpu") == ["gpu", " gpu"]
  {
    var parts := ["gpu", " gpu"];
    assert parts[1..] == [" gpu"];
    assert Join(parts) == "gpu, gpu";
    SplitJoin(parts);
  }

  /** A name listed twice is stored once but weighed twice. */
  lemma RepeatedNameCountsTwice(lookup: string -> Option<int>)
    requires lookup("gpu") == None
    ensures RetentionOf(["gpu", " gpu"], None, lookup) == RetentionWeight(1, map["gpu" := 1], 2)
  {
    var pieces := ["gpu", " gpu"];
    assert TrimLeft("gpu") == "gpu" && TrimRight("gpu") == "gpu";
    assert TrimLeft(" gpu") == "gpu";
    assert pieces[..1] == ["gpu"] && pieces[..1][..0] == [];
    assert Kept(pieces) == ["gpu", "gpu"];
    var names := ["gpu", "gpu"];
    assert names[..1] == ["gpu"] && names[..1][..0] == [];
    assert EntryWeight(lookup("gpu")) == 1;
    assert RetentionMap(["gpu"], lookup) == map["gpu" := 1];
    assert RetentionMap(names, lookup) == map["gpu" := 1];
    assert WeightSumOf(names, lookup) == 2;
  }

  /** So a node that holds the only listed resource still gets half of the retention score. */
  lemma RepeatedNameHalvesAvoidance()
    ensures SraScoreOf(Task(map[], []), Node(map["gpu" := 1.0], map[], map[]), RetentionWeight(1, map["gpu" := 1], 2)) == 50.0
  {
    MapSumInsert(map[], "gpu", 1);
    assert map[]["gpu" := 1] == map["gpu" := 1];
    assert Present(map["gpu" := 1], map["gpu" := 1.0]) == map["gpu" := 1];
  }
}
