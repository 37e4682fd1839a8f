/** A plan from its dependency graph to its reports: the grouping of a level by batch
    family (`Executor::run_level`), and the theorems about whole runs for plans made
    of the built-in resources. */
module WholePlan {
  import opened HostModel
  import opened TopoLevels
  import opened Run
  import opened RunReport
  import opened RunSchedule
  import opened RunFailures
  import opened RunModes
  import opened RunOrder
  import opened RunViews
  import opened Backends
  import opened BackendRuns

  // ---------- grouping a level ----------

  /** The batch families for which a batcher is registered. */
  datatype Family = AptFamily | AbsentAptFamily

  function FamilyOf(r: Resource): Option<Family> {
    if r.AptPackage? then Some(AptFamily) else if r.AbsentAptPackage? then Some(AbsentAptFamily) else None
  }

  /** `Skip::evaluate` */
  predicate Skips(node: Node, env: Env) { node.skip.InContainer? && env.container }

  predicate Known(plan: Plan, ids: seq<nat>) {
    forall k :: 0 <= k < |ids| ==> ids[k] < |plan|
  }

  function SkippedOf(plan: Plan, env: Env, ids: seq<nat>): seq<nat>
    requires Known(plan, ids)
  {
    if ids == [] then [] else
      var rest := SkippedOf(plan, env, ids[..|ids| - 1]);
      var last := ids[|ids| - 1];
      if Skips(plan[last], env) then rest + [last] else rest
  }

  /** The members of one family, in level order. */
  function Members(plan: Plan, env: Env, ids: seq<nat>, f: Option<Family>): seq<nat>
    requires Known(plan, ids)
    ensures Known(plan, Members(plan, env, ids, f))
    ensures forall i :: i in Members(plan, env, ids, f) ==>
              i in ids && i < |plan| && !Skips(plan[i], env) && FamilyOf(plan[i].resource) == f
  {
    if ids == [] then [] else
      var rest := Members(plan, env, ids[..|ids| - 1], f);
      var last := ids[|ids| - 1];
      if !Skips(plan[last], env) && FamilyOf(plan[last].resource) == f then rest + [last] else rest
  }

  lemma MembersStep(plan: Plan, env: Env, ids: seq<nat>, f: Option<Family>)
    requires Known(plan, ids) && ids != []
    ensures var last := ids[|ids| - 1];
            multiset(Members(plan, env, ids, f)) == multiset(Members(plan, env, ids[..|ids| - 1], f))
              + if !Skips(plan[last], env) && FamilyOf(plan[last].resource) == f then multiset{last} else multiset{}
  {
    hide Skips, FamilyOf;
  }

  lemma SkippedStep(plan: Plan, env: Env, ids: seq<nat>)
    requires Known(plan, ids) && ids != []
    ensures var last := ids[|ids| - 1];
            multiset(SkippedOf(plan, env, ids)) == multiset(SkippedOf(plan, env, ids[..|ids| - 1]))
              + if Skips(plan[last], env) then multiset{last} else multiset{}
  {
    hide Skips;
  }

  lemma NothingToSplit(plan: Plan, env: Env, f: Option<Family>)
    ensures Members(plan, env, [], f) == [] && SkippedOf(plan, env, []) == []
  {
  }

  /** Skipped resources and the members of the families make up the level. */
  lemma {:induction false} LevelIsSplit(plan: Plan, env: Env, ids: seq<nat>)
    requires Known(plan, ids)
    ensures multiset(ids) == multiset(SkippedOf(plan, env, ids)) + multiset(Members(plan, env, ids, None))
                             + multiset(Members(plan, env, ids, Some(AptFamily)))
                             + multiset(Members(plan, env, ids, Some(AbsentAptFamily)))
    decreases |ids|
  {
    hide Skips, Members, SkippedOf, FamilyOf;
    if ids == [] {
      NothingToSplit(plan, env, None);
      NothingToSplit(plan, env, Some(AptFamily));
      NothingToSplit(plan, env, Some(AbsentAptFamily));
    } else {
      var init, last := ids[..|ids| - 1], ids[|ids| - 1];
      LevelIsSplit(plan, env, init);
      assert ids == init + [last];
      SkippedStep(plan, env, ids);
      MembersStep(plan, env, ids, None);
      MembersStep(plan, env, ids, Some(AptFamily));
      MembersStep(plan, env, ids, Some(AbsentAptFamily));
      EachFamily(FamilyOf(plan[last].resource));
    }
  }

  lemma EachFamily(f: Option<Family>)
    ensures f == None || f == Some(AptFamily) || f == Some(AbsentAptFamily)
  {
    match f
    case None =>
    case Some(AptFamily) =>
    case Some(AbsentAptFamily) =>
  }

  lemma {:induction false} SkippedAreSkipped(plan: Plan, env: Env, ids: seq<nat>)
    requires Known(plan, ids)
    ensures forall i :: i in SkippedOf(plan, env, ids) ==> i in ids && i < |plan| && Skips(plan[i], env)
    decreases |ids|
  {
    hide Skips;
    if ids != [] { SkippedAreSkipped(plan, env, ids[..|ids| - 1]); }
  }

  lemma {:induction false} SkippedAreThose(plan: Plan, env: Env, ids: seq<nat>)
    requires Known(plan, ids)
    ensures forall i :: i in SkippedOf(plan, env, ids) <==>
                        i in ids && i < |plan| && plan[i].skip == InContainer && env.container
    decreases |ids|
  {
    if ids != [] {
      SkippedAreThose(plan, env, ids[..|ids| - 1]);
      assert ids == ids[..|ids| - 1] + [ids[|ids| - 1]];
    }
  }

  lemma {:induction false} FlattenConcat(a: seq<Task>, b: seq<Task>)
    ensures Flatten(a + b) == Flatten(a) + Flatten(b)
  {
    if a == [] {
      assert a + b == b;
    } else {
      assert (a + b)[1..] == a[1..] + b;
      FlattenConcat(a[1..], b);
    }
  }

  /** A task converges one resource without a batcher, or the whole of a family's
      share of the level. */
  ghost predicate ProperTask(plan: Plan, env: Env, level: seq<nat>, t: Task)
    requires Known(plan, level)
  {
    && t.ids != []
    && Known(plan, t.ids)
    && (forall i :: i in t.ids ==> i in level && i < |plan| && !Skips(plan[i], env))
    && var f := FamilyOf(plan[t.ids[0]].resource);
       if f.None? then |t.ids| == 1 else t.ids == Members(plan, env, level, f)
  }

  /** What the task converges, resource by resource. */
  ghost predicate JobFits(plan: Plan, ids: seq<nat>, job: Job) {
    && Known(plan, ids)
    && match job
       case Malformed => false
       case Single(r) => |ids| == 1 && r == plan[ids[0]].resource && FamilyOf(r).None?
       case Install(names) =>
         |names| == |ids| && forall x :: 0 <= x < |ids| ==> plan[ids[x]].resource == AptPackage(names[x])
       case Remove(names) =>
         |names| == |ids| && forall x :: 0 <= x < |ids| ==> plan[ids[x]].resource == AbsentAptPackage(names[x])
  }

  /** A task converges resources of one family only. */
  lemma AllOfOneFamily(plan: Plan, env: Env, level: seq<nat>, t: Task)
    requires Known(plan, level) && ProperTask(plan, env, level, t)
    ensures t.ids != [] && Known(plan, t.ids)
    ensures var f := FamilyOf(plan[t.ids[0]].resource);
            (f.None? ==> |t.ids| == 1) && forall k :: 0 <= k < |t.ids| ==> FamilyOf(plan[t.ids[k]].resource) == f
  {
    hide Skips, FamilyOf;
    var f := FamilyOf(plan[t.ids[0]].resource);
    forall k | 0 <= k < |t.ids| ensures FamilyOf(plan[t.ids[k]].resource) == f {
      assert t.ids[k] in t.ids;
    }
  }

  lemma ProperTaskFits(plan: Plan, env: Env, level: seq<nat>, t: Task)
    requires Known(plan, level) && ProperTask(plan, env, level, t)
    ensures JobFits(plan, t.ids, JobOf(plan, t))
  {
    hide Skips, ProperTask, Members;
    AllOfOneFamily(plan, env, level, t);
  }

  ghost predicate Grouping(plan: Plan, env: Env, level: seq<nat>, lv: Level)
    requires Known(plan, level)
  {
    && lv.skipped == SkippedOf(plan, env, level)
    && multiset(LevelIds(lv)) == multiset(level)
    && forall t :: t in lv.tasks ==> ProperTask(plan, env, level, t)
  }

  /** One task per resource of the family without a batcher. */
  method SpawnEach(ids: seq<nat>) returns (tasks: seq<Task>)
    ensures Flatten(tasks) == ids
    ensures forall t :: t in tasks ==> exists i :: i in ids && t == Task([i])
  {
    tasks := [];
    for x := 0 to |ids|
      invariant Flatten(tasks) == ids[..x]
      invariant forall t :: t in tasks ==> exists i :: i in ids && t == Task([i])
    {
      FlattenConcat(tasks, [Task([ids[x]])]);
      assert Flatten([Task([ids[x]])]) == [ids[x]];
      assert ids[x] in ids;
      tasks := tasks + [Task([ids[x]])];
    }
  }

  /** Collect the level's resources by family, skipping where `skip_when` matches. */
  method CollectFamilies(plan: Plan, env: Env, level: seq<nat>)
    returns (skipped: seq<nat>, byFamily: map<Option<Family>, seq<nat>>)
    requires Known(plan, level)
    ensures skipped == SkippedOf(plan, env, level)
    ensures forall i :: i in skipped <==>
                        i in level && i < |plan| && plan[i].skip == InContainer && env.container
    ensures forall f :: f in byFamily <==> Members(plan, env, level, f) != []
    ensures forall f :: f in byFamily ==> byFamily[f] == Members(plan, env, level, f)
  {
    skipped, byFamily := [], map[];
    for x := 0 to |level|
      invariant skipped == SkippedOf(plan, env, level[..x])
      invariant forall f :: f in byFamily <==> Members(plan, env, level[..x], f) != []
      invariant forall f :: f in byFamily ==> byFamily[f] == Members(plan, env, level[..x], f)
    {
      var i := level[x];
      assert level[..x + 1][..x] == level[..x] && level[..x + 1][x] == i;
      if Skips(plan[i], env) {
        skipped := skipped + [i];
      } else {
        var f := FamilyOf(plan[i].resource);
        byFamily := byFamily[f := (if f in byFamily then byFamily[f] else []) + [i]];
      }
    }
    assert level[..|level|] == level;
    SkippedAreThose(plan, env, level);
  }

  ghost function Share(plan: Plan, env: Env, level: seq<nat>, f: Option<Family>,
                       left: set<Option<Family>>): multiset<nat>
    requires Known(plan, level)
  {
    if f in left then multiset{} else multiset(Members(plan, env, level, f))
  }

  /** The members of the families already dispatched. */
  ghost function Dispatched(plan: Plan, env: Env, level: seq<nat>, left: set<Option<Family>>): multiset<nat>
    requires Known(plan, level)
  {
    Share(plan, env, level, None, left) + Share(plan, env, level, Some(AptFamily), left)
    + Share(plan, env, level, Some(AbsentAptFamily), left)
  }

  lemma ShareOne(plan: Plan, env: Env, level: seq<nat>, left: set<Option<Family>>, f: Option<Family>, g: Option<Family>)
    requires Known(plan, level) && f in left
    ensures Share(plan, env, level, g, left - {f})
            == if g == f then Share(plan, env, level, g, left) + multiset(Members(plan, env, level, f))
               else Share(plan, env, level, g, left)
  {
    hide Members;
  }

  lemma DispatchOne(plan: Plan, env: Env, level: seq<nat>, left: set<Option<Family>>, f: Option<Family>)
    requires Known(plan, level) && f in left
    ensures Dispatched(plan, env, level, left - {f}) == Dispatched(plan, env, level, left)
            + multiset(Members(plan, env, level, f))
  {
    hide Members, Share, Known;
    ShareOne(plan, env, level, left, f, None);
    ShareOne(plan, env, level, left, f, Some(AptFamily));
    ShareOne(plan, env, level, left, f, Some(AbsentAptFamily));
    match f
    case None =>
    case Some(AptFamily) =>
    case Some(AbsentAptFamily) =>
  }

  lemma DispatchAll(plan: Plan, env: Env, level: seq<nat>, families: set<Option<Family>>)
    requires Known(plan, level)
    requires forall f :: f in families <==> Members(plan, env, level, f) != []
    ensures Dispatched(plan, env, level, families) == multiset{}
    ensures multiset(level) == multiset(SkippedOf(plan, env, level)) + Dispatched(plan, env, level, {})
  {
    hide Members, SkippedOf;
    LevelIsSplit(plan, env, level);
  }

  /** The tasks of one family: a batch, or one per resource where there is no batcher. */
  method SpawnFamily(plan: Plan, env: Env, level: seq<nat>, f: Option<Family>, members: seq<nat>)
    returns (tasks: seq<Task>)
    requires Known(plan, level) && members == Members(plan, env, level, f) && members != []
    ensures Flatten(tasks) == members
    ensures forall t :: t in tasks ==> ProperTask(plan, env, level, t)
  {
    if f.None? {
      tasks := SpawnEach(members);
    } else {
      tasks := [Task(members)];
      assert members[0] in members;
    }
  }

  /** The map of families is walked in an arbitrary order. */
  method GroupLevel(plan: Plan, env: Env, level: seq<nat>) returns (lv: Level)
    requires Known(plan, level)
    ensures Grouping(plan, env, level, lv)
  {
    hide Members, SkippedOf, Dispatched, ProperTask;
    var skipped, byFamily := CollectFamilies(plan, env, level);
    DispatchAll(plan, env, level, byFamily.Keys);
    var tasks: seq<Task> := [];
    var left := byFamily.Keys;
    while left != {}
      invariant left <= byFamily.Keys
      invariant multiset(Flatten(tasks)) == Dispatched(plan, env, level, left)
      invariant forall t :: t in tasks ==> ProperTask(plan, env, level, t)
      decreases |left|
    {
      var f :| f in left;
      var more := SpawnFamily(plan, env, level, f, byFamily[f]);
      FlattenConcat(tasks, more);
      DispatchOne(plan, env, level, left, f);
      tasks := tasks + more;
      left := left - {f};
    }
    lv := Level(skipped, tasks);
  }

  // ---------- a plan made ready to run ----------

  function DepsOf(plan: Plan): (g: Graph)
    ensures |g| == |plan| && forall i :: 0 <= i < |plan| ==> g[i] == plan[i].deps
  {
    seq(|plan|, i requires 0 <= i < |plan| => plan[i].deps)
  }

  /** `levels` is what a run of the plan goes through, `topo` the levels it comes from. */
  ghost predicate Prepared(plan: Plan, env: Env, topo: seq<seq<nat>>, levels: seq<Level>) {
    && Partition(topo, |plan|) && Layered(DepsOf(plan), topo) && |levels| == |topo|
    && forall j :: 0 <= j < |topo| ==> Known(plan, topo[j]) && Grouping(plan, env, topo[j], levels[j])
  }

  /** From a plan to its levels: it is refused exactly when a dep is unknown or the
      deps are cyclic. */
  method Prepare(plan: Plan, env: Env) returns (r: LevelsResult, levels: seq<Level>)
    ensures r.Levels? <==> InRange(DepsOf(plan)) && Acyclic(DepsOf(plan))
    ensures r.Levels? ==> Prepared(plan, env, r.levels, levels)
    ensures r.Levels? ==> Leveled(plan, r.levels)
  {
    levels := [];
    r := ComputeTopoLevels(DepsOf(plan));
    if r.Levels? {
      LevelsAreLayered(DepsOf(plan), r.levels);
      forall j, k | 0 <= j < |r.levels| && 0 <= k < |r.levels[j]| ensures r.levels[j][k] < |plan| {
        assert InSomeLevel(r.levels, r.levels[j][k]);
      }
      for j := 0 to |r.levels|
        invariant |levels| == j
        invariant forall a :: 0 <= a < j ==> Grouping(plan, env, r.levels[a], levels[a])
      {
        var lv := GroupLevel(plan, env, r.levels[j]);
        levels := levels + [lv];
      }
    }
  }

  /** Each node is in the level of its longest chain of deps, as the topological sort has it. */
  ghost predicate Leveled(plan: Plan, topo: seq<seq<nat>>) {
    && InRange(DepsOf(plan)) && Partition(topo, |plan|)
    && (forall a, i :: 0 <= a < |topo| && i in topo[a] ==> LongestChain(DepsOf(plan), i, a))
    && forall a :: 0 <= a < |topo| ==> topo[a] != []
  }

  lemma OneLongest(g: Graph, i: nat, a: nat, b: nat)
    requires LongestChain(g, i, a) && LongestChain(g, i, b)
    ensures a == b
  {
    var p :| ChainFrom(g, i, a, p);
    var q :| ChainFrom(g, i, b, q);
  }

  lemma PreparedIsGrouped(plan: Plan, env: Env, topo: seq<seq<nat>>, levels: seq<Level>)
    requires Prepared(plan, env, topo, levels)
    ensures Grouped(levels, topo) && |levels| == |topo| && Partition(topo, |plan|) && Layered(DepsOf(plan), topo)
  {
  }

  // ---------- any two groupings of a level ----------

  lemma {:induction false} TwiceInFlatten(tasks: seq<Task>, k: nat, m: nat, i: nat)
    requires Distinct(Flatten(tasks)) && k < |tasks| && m < |tasks| && i in tasks[k].ids && i in tasks[m].ids
    ensures k == m
    decreases |tasks|
  {
    DistinctSplit(tasks[0].ids, Flatten(tasks[1..]));
    if k == 0 && m > 0 {
      InFlatten(tasks[1..], m - 1, i);
    } else if m == 0 && k > 0 {
      InFlatten(tasks[1..], k - 1, i);
    } else if k > 0 {
      TwiceInFlatten(tasks[1..], k - 1, m - 1, i);
    }
  }

  lemma {:induction false} FlattenHas(tasks: seq<Task>, i: nat) returns (k: nat)
    requires i in Flatten(tasks)
    ensures k < |tasks| && i in tasks[k].ids
  {
    if i in tasks[0].ids {
      k := 0;
    } else {
      k := FlattenHas(tasks[1..], i);
      k := k + 1;
    }
  }

  /** Two tasks of groupings of the same level that share an id are the same task. */
  lemma SameTask(plan: Plan, env: Env, level: seq<nat>, t: Task, u: Task, i: nat)
    requires Known(plan, level) && ProperTask(plan, env, level, t) && ProperTask(plan, env, level, u) && i in t.ids
    requires i in u.ids
    ensures t == u
  {
    OneFamily(plan, env, level, t, i);
    OneFamily(plan, env, level, u, i);
  }

  lemma OneFamily(plan: Plan, env: Env, level: seq<nat>, t: Task, i: nat)
    requires Known(plan, level) && ProperTask(plan, env, level, t) && i in t.ids
    ensures i < |plan| && t.ids == if FamilyOf(plan[i].resource).None? then [i]
                                   else Members(plan, env, level, FamilyOf(plan[i].resource))
  {
    if FamilyOf(plan[t.ids[0]].resource).None? { assert t.ids == [t.ids[0]]; }
  }

  /** No two tasks of a level share a resource. */
  lemma TasksHaveTheirIds(plan: Plan, env: Env, topo: seq<seq<nat>>, levels: seq<Level>, j: nat, k: nat, m: nat, i: nat)
    requires Prepared(plan, env, topo, levels) && j < |levels| && k < |levels[j].tasks| && m < |levels[j].tasks|
    requires i in levels[j].tasks[k].ids && i in levels[j].tasks[m].ids
    ensures k == m
  {
    hide Layered;
    assert Grouping(plan, env, topo[j], levels[j]);
    DistinctBag(topo[j], LevelIds(levels[j]));
    DistinctSplit(levels[j].skipped, Flatten(levels[j].tasks));
    TwiceInFlatten(levels[j].tasks, k, m, i);
  }

  /** The task of a grouping that converges a resource of the level. */
  lemma TaskOf(plan: Plan, env: Env, level: seq<nat>, lv: Level, i: nat) returns (m: nat)
    requires Known(plan, level) && Grouping(plan, env, level, lv) && i in level && i < |plan| && !Skips(plan[i], env)
    ensures m < |lv.tasks| && i in lv.tasks[m].ids
  {
    hide Members, Skips;
    InBag(LevelIds(lv), level, i);
    SkippedAreSkipped(plan, env, level);
    m := FlattenHas(lv.tasks, i);
  }

  lemma TasksAreDistinct(plan: Plan, env: Env, level: seq<nat>, lv: Level)
    requires Known(plan, level) && Grouping(plan, env, level, lv) && Distinct(level)
    ensures Distinct(Flatten(lv.tasks))
  {
    DistinctBag(level, LevelIds(lv));
    DistinctSplit(lv.skipped, Flatten(lv.tasks));
  }

  /** For each task of one grouping its place in the other. */
  lemma {:induction false} PlacesIn(plan: Plan, env: Env, level: seq<nat>, tasks: seq<Task>, lv: Level)
    returns (places: seq<nat>)
    requires Known(plan, level) && Grouping(plan, env, level, lv)
    requires forall t :: t in tasks ==> ProperTask(plan, env, level, t)
    ensures |places| == |tasks| && forall k :: 0 <= k < |tasks| ==>
              places[k] < |lv.tasks| && lv.tasks[places[k]] == tasks[k]
    decreases |tasks|
  {
    hide Members, Skips, FamilyOf, SkippedOf;
    if tasks == [] {
      places := [];
    } else {
      var t := tasks[|tasks| - 1];
      assert ProperTask(plan, env, level, t) && t.ids[0] in t.ids;
      var init := PlacesIn(plan, env, level, tasks[..|tasks| - 1], lv);
      var m := TaskOf(plan, env, level, lv, t.ids[0]);
      SameTask(plan, env, level, lv.tasks[m], t, t.ids[0]);
      places := init + [m];
    }
  }

  /** Any two groupings of a level hold the same tasks; only their order can differ. */
  lemma GroupingsReorder(plan: Plan, env: Env, level: seq<nat>, lv1: Level, lv2: Level) returns (r: Renaming)
    requires Known(plan, level) && Distinct(level) && Grouping(plan, env, level, lv1) && Grouping(plan, env, level, lv2)
    ensures lv1.skipped == lv2.skipped && Renames(r, lv1.tasks, lv2.tasks)
  {
    hide Members, Skips, FamilyOf, SkippedOf;
    TasksAreDistinct(plan, env, level, lv1);
    TasksAreDistinct(plan, env, level, lv2);
    var to := PlacesIn(plan, env, level, lv2.tasks, lv1);
    var back := PlacesIn(plan, env, level, lv1.tasks, lv2);
    forall k | 0 <= k < |lv2.tasks| ensures back[to[k]] == k {
      assert ProperTask(plan, env, level, lv2.tasks[k]) && lv2.tasks[k].ids[0] in lv2.tasks[k].ids;
      TwiceInFlatten(lv2.tasks, back[to[k]], k, lv2.tasks[k].ids[0]);
    }
    forall m | 0 <= m < |lv1.tasks| ensures to[back[m]] == m {
      assert ProperTask(plan, env, level, lv1.tasks[m]) && lv1.tasks[m].ids[0] in lv1.tasks[m].ids;
      TwiceInFlatten(lv1.tasks, to[back[m]], m, lv1.tasks[m].ids[0]);
    }
    Pigeonhole(to, |lv1.tasks|);
    Pigeonhole(back, |lv2.tasks|);
    r := Renaming(to, back);
  }

  lemma {:induction false} LevelsReorder(plan: Plan, env: Env, topo: seq<seq<nat>>, levels1: seq<Level>,
                                         levels2: seq<Level>) returns (rs: seq<Renaming>)
    requires |levels1| == |levels2| == |topo|
    requires forall j :: 0 <= j < |topo| ==>
               Known(plan, topo[j]) && Distinct(topo[j]) && Grouping(plan, env, topo[j], levels1[j])
                 && Grouping(plan, env, topo[j], levels2[j])
    ensures |rs| == |topo|
    ensures forall j :: 0 <= j < |topo| ==> levels1[j].skipped == levels2[j].skipped
                                            && Renames(rs[j], levels1[j].tasks, levels2[j].tasks)
    decreases |topo|
  {
    hide Grouping, Renames;
    rs := [];
    if topo != [] {
      var last := |topo| - 1;
      rs := LevelsReorder(plan, env, topo[..last], levels1[..last], levels2[..last]);
      var r := GroupingsReorder(plan, env, topo[last], levels1[last], levels2[last]);
      rs := rs + [r];
    }
  }

  /** Two runs of a plan, which may group each level in different orders, run the same
      systems but for the order. */
  lemma PreparedReorder(plan: Plan, env: Env, topo: seq<seq<nat>>, levels1: seq<Level>, levels2: seq<Level>)
    returns (rs: seq<Renaming>)
    requires Prepared(plan, env, topo, levels1) && Prepared(plan, env, topo, levels2)
    ensures Reordered(SystemOf(plan, levels1, env), SystemOf(plan, levels2, env), rs)
  {
    hide Grouping, Renames, JobOf, JobStep, JobShadow, JobSenses, JobWrites, JobMakes, Hints;
    rs := LevelsReorder(plan, env, topo, levels1, levels2);
  }

  // ---------- whole runs of a plan ----------

  /** The ids whose change makes a resource act again, if it has such a list. */
  function Triggers(r: Resource): seq<nat> {
    if r.Command? && r.triggerOn.Some? then r.triggerOn.value
    else if r.Service? && r.started then r.restartOn
    else []
  }

  /** A completed run of a plan reports each of its resources exactly once, with its own
      hint; Yes, No and Skipped add up to the length of the plan. */
  lemma PlanReportConserved(plan: Plan, env: Env, topo: seq<seq<nat>>, levels: seq<Level>, host: Host, manager: Manager,
                            acts: seq<Action>, c: Config<Local, Manager>)
    requires Prepared(plan, env, topo, levels)
    requires RunTo(SystemOf(plan, levels, env), host, manager, acts) == Some(c) && c.phase == Completed
    ensures Distinct(Ids(c.report)) && forall i: nat :: i in Ids(c.report) <==> i < |plan|
    ensures forall o :: o in c.report ==> o.id < |plan| && o.hint == plan[o.id].hint
    ensures Count(c.report, Yes) + Count(c.report, No) + Count(c.report, Skipped) == |plan|
  {
    hide Prepared, RunTo, Ids, Count, JobOf, JobStep, JobShadow, JobSenses, JobWrites, JobMakes;
    PreparedIsGrouped(plan, env, topo, levels);
    ReportConserved(SystemOf(plan, levels, env), host, manager, acts, topo, |plan|, c);
    forall o | o in c.report ensures o.id < |plan| { IdIsListed(c.report, o); }
  }

  /** In every reachable configuration of a run, also after errors and cuts, a resource
      whose task has started has all its transitive deps in the report. */
  lemma PlanDepsFinishFirst(plan: Plan, env: Env, topo: seq<seq<nat>>, levels: seq<Level>, host: Host, manager: Manager,
                            acts: seq<Action>, c: Config<Local, Manager>, p: seq<nat>)
    requires Prepared(plan, env, topo, levels)
    requires RunTo(SystemOf(plan, levels, env), host, manager, acts) == Some(c)
    requires Chain(DepsOf(plan), p) && |p| > 1 && Started(SystemOf(plan, levels, env), c, p[0])
    ensures exists o :: o in c.report && o.id == p[|p| - 1]
  {
    hide Prepared, RunTo, Chain, SystemOf, Started;
    PreparedIsGrouped(plan, env, topo, levels);
    LevelsOfSystem(plan, env, levels);
    DepsFinishFirst(SystemOf(plan, levels, env), host, manager, acts, DepsOf(plan), topo, c, p);
  }

  lemma LevelsOfSystem(plan: Plan, env: Env, levels: seq<Level>)
    ensures SystemOf(plan, levels, env).levels == levels
  {
  }

  /** Where all its trigger ids are transitive deps, what a resource is told in its level is
      what the final report says. */
  lemma PlanTriggersMatchFinalReport(plan: Plan, env: Env, topo: seq<seq<nat>>, levels: seq<Level>, host: Host,
                                     manager: Manager, acts: seq<Action>, more: seq<Action>, c: Config<Local, Manager>,
                                     last: Config<Local, Manager>, i: nat)
    requires Prepared(plan, env, topo, levels)
    requires RunTo(SystemOf(plan, levels, env), host, manager, acts) == Some(c)
    requires RunTo(SystemOf(plan, levels, env), host, manager, acts + more) == Some(last) && last.phase == Completed
    requires c.level < |topo| && i in topo[c.level] && i < |plan|
    requires forall t :: t in Triggers(plan[i].resource) ==>
               exists p :: Chain(DepsOf(plan), p) && |p| > 1 && p[0] == i && p[|p| - 1] == t
    ensures AnyChanged(c.changed, Triggers(plan[i].resource)) <==> ReportedYes(last.report, Triggers(plan[i].resource))
  {
    hide Prepared, RunTo, Chain, SystemOf, Triggers, AnyChanged, ReportedYes;
    PreparedIsGrouped(plan, env, topo, levels);
    LevelsOfSystem(plan, env, levels);
    TriggersMatchFinalReport(SystemOf(plan, levels, env), host, manager, acts, more, DepsOf(plan), topo, c, last, i,
                             Triggers(plan[i].resource));
  }

  /** Two completed runs of a plan from the same host, whatever the schedules and however
      the families were walked, end in the same host and report the same, level by level. */
  lemma PlanRunsAgree(plan: Plan, env: Env, topo: seq<seq<nat>>, levels1: seq<Level>, levels2: seq<Level>, host: Host,
                      manager: Manager, acts1: seq<Action>, acts2: seq<Action>, c1: Config<Local, Manager>,
                      c2: Config<Local, Manager>)
    requires Prepared(plan, env, topo, levels1) && Prepared(plan, env, topo, levels2)
    requires LevelsIndependent(SystemOf(plan, levels1, env))
    requires RunTo(SystemOf(plan, levels1, env), host, manager, acts1) == Some(c1) && c1.phase == Completed
    requires RunTo(SystemOf(plan, levels2, env), host, manager, acts2) == Some(c2) && c2.phase == Completed
    ensures c1.host == c2.host && c1.changed == c2.changed && |c1.report| == |c2.report|
    ensures forall j: nat :: j < |topo| ==> SameSegment(c1, c2, j)
  {
    hide Prepared, LevelsIndependent, Framed, RunTo, SystemOf, SameSegment, Reordered;
    SystemIsFramed(plan, levels1, env);
    LevelsOfSystem(plan, env, levels1);
    PreparedIsGrouped(plan, env, topo, levels1);
    var rs := PreparedReorder(plan, env, topo, levels1, levels2);
    ScheduleIndependence(SystemOf(plan, levels1, env), SystemOf(plan, levels2, env), rs, host, manager, acts1, acts2,
                         c1, c2);
  }

  // ---------- dry-run fidelity ----------

  lemma SameFootprints(plan: Plan, levels: seq<Level>, live: Env)
    ensures LevelsApart(SystemOf(plan, levels, live)) ==> LevelsApart(SystemOf(plan, levels, live.(dryRun := true)))
  {
    hide JobOf, JobSenses, JobWrites, JobMakes, JobStep, JobShadow, Hints;
    var d, l := SystemOf(plan, levels, live.(dryRun := true)), SystemOf(plan, levels, live);
    forall t, u ensures Undisturbed(l, t, l.senses(u)) ==> Undisturbed(d, t, d.senses(u)) {}
    if LevelsApart(l) {
      forall j, k, m | 0 <= j < |levels| && 0 <= k < |levels[j].tasks| && 0 <= m < |levels[j].tasks| && m != k
        ensures Undisturbed(d, levels[j].tasks[m], d.senses(levels[j].tasks[k]))
      {
        assert AllPrivate(l, l.levels[j].tasks) && Private(l, l.levels[j].tasks, k);
      }
    }
  }

  /** A dry run of a plan leaves the host alone, and foretells the apply run: if what a
      task senses is not touched by other tasks of its level or of earlier ones, every level
      of both reports holds the same outcomes and the same ids changed. The two runs are
      two processes, and may have walked the families in different orders. */
  lemma DryRunForetells(plan: Plan, topo: seq<seq<nat>>, levels1: seq<Level>, levels2: seq<Level>, live: Env,
                        host: Host, manager: Manager, acts1: seq<Action>, acts2: seq<Action>,
                        c1: Config<Local, Manager>, c2: Config<Local, Manager>)
    requires !live.dryRun && Prepared(plan, live, topo, levels1) && Prepared(plan, live, topo, levels2)
    requires LevelsApart(SystemOf(plan, levels1, live)) && Upstream(SystemOf(plan, levels1, live))
    requires RunTo(SystemOf(plan, levels1, live.(dryRun := true)), host, manager, acts1) == Some(c1)
    requires c1.phase == Completed
    requires RunTo(SystemOf(plan, levels2, live), host, manager, acts2) == Some(c2) && c2.phase == Completed
    ensures c1.host == host && c1.manager == manager
    ensures c1.changed == c2.changed
    ensures forall j: nat :: j < |topo| ==>
              multiset(Segment(c1.records, c1.report, j)) == multiset(Segment(c2.records, c2.report, j))
  {
    hide LevelsApart, Upstream, Framed, Pure, Predicts, RunTo, Segment, SystemOf, Prepared, Reordered;
    var dry := live.(dryRun := true);
    SystemIsFramed(plan, levels1, live);
    SystemIsFramed(plan, levels1, dry);
    DryRunIsPure(plan, levels1, dry);
    DryRunPredicts(plan, levels1, live);
    SameFootprints(plan, levels1, live);
    SamePlanInBothModes(plan, levels1, live);
    PreparedIsGrouped(plan, live, topo, levels1);
    var rs := PreparedReorder(plan, live, topo, levels1, levels2);
    DryRunChangesNothing(SystemOf(plan, levels1, dry), Sensing, host, manager, acts1, c1);
    DryRunFidelity(SystemOf(plan, levels1, dry), SystemOf(plan, levels1, live), SystemOf(plan, levels2, live), rs,
                   Sensing, host, manager, acts1, acts2, c1, c2);
  }

  lemma SamePlanInBothModes(plan: Plan, levels: seq<Level>, live: Env)
    ensures SamePlan(SystemOf(plan, levels, live.(dryRun := true)), SystemOf(plan, levels, live))
    ensures SystemOf(plan, levels, live.(dryRun := true)).levels == levels
  {
  }

  /** If a plan can be applied from this host at all, no dry run of it from here fails,
      unless something outside makes it fail. */
  lemma DryRunOfAppliedPlanNeverFails(plan: Plan, topo: seq<seq<nat>>, levels1: seq<Level>, levels2: seq<Level>,
                                      live: Env, host: Host, manager: Manager, acts1: seq<Action>, acts2: seq<Action>,
                                      c1: Config<Local, Manager>, c2: Config<Local, Manager>)
    requires !live.dryRun && Prepared(plan, live, topo, levels1) && Prepared(plan, live, topo, levels2)
    requires LevelsApart(SystemOf(plan, levels1, live)) && Upstream(SystemOf(plan, levels1, live))
    requires RunTo(SystemOf(plan, levels1, live.(dryRun := true)), host, manager, acts1) == Some(c1) && CrashFree(acts1)
    requires RunTo(SystemOf(plan, levels2, live), host, manager, acts2) == Some(c2) && c2.phase == Completed
    ensures c1.phase != Aborted
  {
    hide LevelsApart, Upstream, Framed, Pure, Predicts, RunTo, SystemOf, Prepared, Reordered;
    var dry := live.(dryRun := true);
    SystemIsFramed(plan, levels1, live);
    SystemIsFramed(plan, levels1, dry);
    DryRunIsPure(plan, levels1, dry);
    DryRunPredicts(plan, levels1, live);
    SameFootprints(plan, levels1, live);
    SamePlanInBothModes(plan, levels1, live);
    var rs := PreparedReorder(plan, live, topo, levels1, levels2);
    DryRunDoesNotFail(SystemOf(plan, levels1, dry), SystemOf(plan, levels1, live), SystemOf(plan, levels2, live), rs,
                      Sensing, host, manager, acts1, acts2, c1, c2);
  }

  // ---------- what later tasks may do ----------

  /** A directory task sees to it that its directory is there. */
  lemma DirectoryIsEstablished(plan: Plan, levels: seq<Level>, env: Env, task: Task, path: string)
    requires !env.dryRun && Reflexive(env.apt)
    requires JobOf(plan, task).Single? && JobOf(plan, task).resource.Directory?
    requires JobOf(plan, task).resource.path == path
    ensures Establishes(SystemOf(plan, levels, env), task, DirAt(path))
  {
    hide SystemOf, Alone, JobOf, Reflexive;
    forall host: Host, changed, n: nat | Alone(SystemOf(plan, levels, env), task, host, changed, n).0.Finished?
      ensures DirAt(path) in Alone(SystemOf(plan, levels, env), task, host, changed, n).1
    {
      FinishedMeansGoal(plan, levels, env, task, host, changed, n);
    }
  }

  /** So a file may be put below a managed directory later on: mkdir of the parents leaves
      alone what the directory task senses, unless the file stands where a directory should. */
  lemma FilesFitBelowDirectories(plan: Plan, levels: seq<Level>, env: Env, file: Task, dir: Task)
    requires !env.dryRun && Reflexive(env.apt)
    requires JobOf(plan, file).Single? && IsFileLike(JobOf(plan, file).resource)
    requires JobOf(plan, dir).Single? && JobOf(plan, dir).resource.Directory?
    requires var (f, path) := (Spec(JobOf(plan, file).resource), JobOf(plan, dir).resource.path);
             f.path !in Ancestors(path) + {path} && TmpPath(f.path) !in Ancestors(path) + {path}
    ensures LeavesBe(SystemOf(plan, levels, env), file, dir)
  {
    hide JobOf, JobStep, JobShadow, Hints, Ancestors, TmpPath, Reflexive, Establishes;
    DirectoryIsEstablished(plan, levels, env, dir, JobOf(plan, dir).resource.path);
  }
}
