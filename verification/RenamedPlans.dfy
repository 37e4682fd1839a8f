/** Plans that differ in their ids only: their levels and tasks correspond, so do their footprints,
    and runs of the two over the same host report the same and leave the same host. */
module RenamedPlans {
  import opened HostModel
  import opened TopoLevels
  import opened Run
  import opened RunReport
  import opened RunSchedule
  import opened RunViews
  import opened RunModes
  import opened Backends
  import opened BackendRuns
  import opened WholePlan
  import opened PlanReport

  // ---------- plans that differ in their ids ----------

  function To(to: seq<nat>, i: nat): nat { if i < |to| then to[i] else i }

  function Mapped(to: seq<nat>, ids: seq<nat>): (r: seq<nat>)
    ensures |r| == |ids| && forall x :: 0 <= x < |r| ==> r[x] == To(to, ids[x])
  {
    seq(|ids|, x requires 0 <= x < |ids| => To(to, ids[x]))
  }

  /** The resource with its trigger list renamed. */
  function RenamedResource(to: seq<nat>, r: Resource): Resource {
    match r
    case Service(_, _, _, restartOn) => r.(restartOn := Mapped(to, restartOn))
    case Command(_, Some(ids), _) => r.(triggerOn := Some(Mapped(to, ids)))
    case _ => r
  }

  function RenamedNode(to: seq<nat>, n: Node): Node {
    n.(resource := RenamedResource(to, n.resource), deps := Mapped(to, n.deps))
  }

  /** The second plan is the first with node `i` at place `to[i]`. */
  ghost predicate Renames(to: seq<nat>, plan1: Plan, plan2: Plan) {
    && |to| == |plan1| == |plan2|
    && (forall i, j :: 0 <= i < j < |to| ==> to[i] != to[j])
    && (forall i :: 0 <= i < |to| ==> to[i] < |plan2| && plan2[to[i]] == RenamedNode(to, plan1[i]))
  }

  lemma {:induction false} DeepRenamed(to: seq<nat>, plan1: Plan, plan2: Plan, i: nat, k: nat)
    requires Renames(to, plan1, plan2) && InRange(DepsOf(plan1)) && InRange(DepsOf(plan2)) && i < |plan1|
    ensures Deep(DepsOf(plan1), i, k) <==> Deep(DepsOf(plan2), to[i], k)
    decreases k
  {
    hide InRange, RenamedResource;
    var g1, g2 := DepsOf(plan1), DepsOf(plan2);
    if k > 0 {
      assert plan2[to[i]] == RenamedNode(to, plan1[i]);
      assert g2[to[i]] == Mapped(to, g1[i]);
      DepsInRange(g1, i);
      forall d | d in g1[i] ensures d < |plan1| && (Deep(g1, d, k - 1) <==> Deep(g2, to[d], k - 1))
        && to[d] in g2[to[i]] {
        DeepRenamed(to, plan1, plan2, d, k - 1);
        var x :| 0 <= x < |g1[i]| && g1[i][x] == d;
        assert g2[to[i]][x] == to[d];
      }
      forall e | e in g2[to[i]] ensures exists d :: d in g1[i] && d < |plan1| && e == to[d] {
        var x :| 0 <= x < |g2[to[i]]| && g2[to[i]][x] == e;
        assert g1[i][x] in g1[i];
      }
    }
  }

  lemma DepsInRange(g: Graph, i: nat)
    requires InRange(g) && i < |g|
    ensures forall d :: d in g[i] ==> d < |g|
  {
  }

  /** A node keeps its level. */
  lemma LevelRenamed(to: seq<nat>, plan1: Plan, plan2: Plan, topo1: seq<seq<nat>>, topo2: seq<seq<nat>>, i: nat,
                     a: nat, b: nat)
    requires Renames(to, plan1, plan2) && Leveled(plan1, topo1) && Leveled(plan2, topo2) && i < |plan1|
    requires a < |topo1| && i in topo1[a] && b < |topo2| && to[i] in topo2[b]
    ensures a == b
  {
    hide Renames, InRange, Partition, Deep;
    var g1, g2 := DepsOf(plan1), DepsOf(plan2);
    assert to[i] < |plan2| by { Places(to, plan1, plan2, i); }
    LevelIsLongestChain(g1, i, a);
    LevelIsLongestChain(g2, to[i], b);
    DeepRenamed(to, plan1, plan2, i, a);
    DeepRenamed(to, plan1, plan2, i, a + 1);
    LevelIsLongestChain(g2, to[i], a);
    OneLongest(g2, to[i], a, b);
  }

  lemma Places(to: seq<nat>, plan1: Plan, plan2: Plan, i: nat)
    requires Renames(to, plan1, plan2) && (i < |plan1| || i < |to|)
    ensures |to| == |plan1| == |plan2| && to[i] < |plan2|
  {
  }

  lemma SameLevelRenamed(to: seq<nat>, plan1: Plan, plan2: Plan, topo1: seq<seq<nat>>, topo2: seq<seq<nat>>, i: nat,
                         a: nat)
    requires Renames(to, plan1, plan2) && Leveled(plan1, topo1) && Leveled(plan2, topo2) && i < |plan1|
    ensures a < |topo1| && i in topo1[a] <==> a < |topo2| && to[i] in topo2[a]
  {
    hide Renames, LongestChain;
    Places(to, plan1, plan2, i);
    assert InSomeLevel(topo1, i) && InSomeLevel(topo2, to[i]);
    var x :| 0 <= x < |topo1| && i in topo1[x];
    var y :| 0 <= y < |topo2| && to[i] in topo2[y];
    LevelRenamed(to, plan1, plan2, topo1, topo2, i, x, y);
    OnlyLevel(topo1, |plan1|, i, x);
    OnlyLevel(topo2, |plan2|, to[i], y);
  }

  lemma OnlyLevel(topo: seq<seq<nat>>, n: nat, i: nat, x: nat)
    requires Partition(topo, n) && x < |topo| && i in topo[x]
    ensures forall a :: 0 <= a < |topo| && i in topo[a] ==> a == x
  {
  }

  // ---------- what acts ----------

  lemma NodeRenamed(to: seq<nat>, plan1: Plan, plan2: Plan, env: Env, host: Host, i: nat)
    requires Renames(to, plan1, plan2) && i < |plan1|
    ensures var (n1, n2) := (plan1[i], plan2[to[i]]);
            && (Skips(n1, env) <==> Skips(n2, env)) && n1.hint == n2.hint
            && (NeedsWork(n1.resource, host) <==> NeedsWork(n2.resource, host))
            && Triggers(n2.resource) == Mapped(to, Triggers(n1.resource))
            && (n1.resource.Command? && n1.resource.triggerOn.None? <==>
                n2.resource.Command? && n2.resource.triggerOn.None?)
  {
    assert plan2[to[i]] == RenamedNode(to, plan1[i]);
  }

  lemma {:induction false} ActsRenamed(to: seq<nat>, plan1: Plan, plan2: Plan, env: Env, host: Host,
                                       topo1: seq<seq<nat>>, topo2: seq<seq<nat>>, j: nat, i: nat)
    requires Renames(to, plan1, plan2) && Leveled(plan1, topo1) && Leveled(plan2, topo2) && i < |plan1|
    ensures Acts(plan1, env, Due(plan1, env, host), topo1, j, i) <==>
            Acts(plan2, env, Due(plan2, env, host), topo2, j, to[i])
    decreases j
  {
    hide Renames, Leveled, NeedsWork, Triggers, Skips;
    Places(to, plan1, plan2, i);
    NodeRenamed(to, plan1, plan2, env, host, i);
    TriggersRenamed(to, plan1, plan2, env, host, topo1, topo2, j, i);
    ActsUnfolds(plan1, env, host, topo1, j, i);
    ActsUnfolds(plan2, env, host, topo2, j, to[i]);
  }

  lemma ActsUnfolds(plan: Plan, env: Env, host: Host, topo: seq<seq<nat>>, j: nat, i: nat)
    requires i < |plan|
    ensures Acts(plan, env, Due(plan, env, host), topo, j, i) <==>
            (!Skips(plan[i], env)
             && ((plan[i].resource.Command? && plan[i].resource.triggerOn.None?) || NeedsWork(plan[i].resource, host)
                 || SomeActs(plan, env, Due(plan, env, host), topo, j, Triggers(plan[i].resource))))
  {
    hide NeedsWork, Triggers, Skips;
  }

  lemma {:induction false} TriggersRenamed(to: seq<nat>, plan1: Plan, plan2: Plan, env: Env, host: Host,
                                           topo1: seq<seq<nat>>, topo2: seq<seq<nat>>, j: nat, i: nat)
    requires Renames(to, plan1, plan2) && Leveled(plan1, topo1) && Leveled(plan2, topo2) && i < |to| == |plan1|
    requires to[i] < |plan2|
    requires Triggers(plan2[to[i]].resource) == Mapped(to, Triggers(plan1[i].resource))
    ensures SomeActs(plan1, env, Due(plan1, env, host), topo1, j, Triggers(plan1[i].resource)) <==>
            SomeActs(plan2, env, Due(plan2, env, host), topo2, j, Triggers(plan2[to[i]].resource))
    decreases j, 0
  {
    hide Renames, Leveled, Acts, Triggers, Due;
    var due1, due2 := Due(plan1, env, host), Due(plan2, env, host);
    var ids1, ids2 := Triggers(plan1[i].resource), Triggers(plan2[to[i]].resource);
    if SomeActs(plan1, env, due1, topo1, j, ids1) {
      var t, a: nat :| a < j && a < |topo1| && t in topo1[a] && t in ids1 && Acts(plan1, env, due1, topo1, a, t);
      InPlan(plan1, topo1, a, t);
      Places(to, plan1, plan2, t);
      ActsRenamed(to, plan1, plan2, env, host, topo1, topo2, a, t);
      SameLevelRenamed(to, plan1, plan2, topo1, topo2, t, a);
      var x :| 0 <= x < |ids1| && ids1[x] == t;
      assert ids2[x] == to[t];
      assert to[t] in ids2 && to[t] in topo2[a] && Acts(plan2, env, due2, topo2, a, to[t]);
    }
    if SomeActs(plan2, env, due2, topo2, j, ids2) {
      var e, a: nat :| a < j && a < |topo2| && e in topo2[a] && e in ids2 && Acts(plan2, env, due2, topo2, a, e);
      var x :| 0 <= x < |ids2| && ids2[x] == e;
      var t := ids1[x];
      InPlan(plan2, topo2, a, e);
      Places(to, plan1, plan2, i);
      assert e == To(to, t) && t < |plan1|;
      ActsRenamed(to, plan1, plan2, env, host, topo1, topo2, a, t);
      SameLevelRenamed(to, plan1, plan2, topo1, topo2, t, a);
      assert t in ids1 && t in topo1[a] && Acts(plan1, env, due1, topo1, a, t);
    }
  }

  lemma InPlan(plan: Plan, topo: seq<seq<nat>>, a: nat, t: nat)
    requires Leveled(plan, topo) && a < |topo| && t in topo[a]
    ensures t < |plan|
  {
    hide LongestChain;
    assert InSomeLevel(topo, t);
  }

  // ---------- what is reported ----------

  /** Runs of the two plans over the same host, dry or not, report the same for a resource and
      its renamed twin, in the same level. */
  lemma RenamedPlansReportAlike(to: seq<nat>, plan1: Plan, plan2: Plan, env: Env,
                                topo1: seq<seq<nat>>, topo2: seq<seq<nat>>, levels1: seq<Level>, levels2: seq<Level>,
                                host: Host, manager1: Manager, manager2: Manager, acts1: seq<Action>,
                                acts2: seq<Action>, c1: Config<Local, Manager>, c2: Config<Local, Manager>, j1: nat,
                                j2: nat, o1: Outcome, o2: Outcome)
    requires PlansAlike(to, plan1, plan2, env, topo1, topo2, levels1, levels2)
    requires LevelsApart(SystemOf(plan1, levels1, env)) && Upstream(SystemOf(plan1, levels1, env))
    requires RunTo(SystemOf(plan1, levels1, env), host, manager1, acts1) == Some(c1)
    requires RunTo(SystemOf(plan2, levels2, env), host, manager2, acts2) == Some(c2)
    requires j1 + 1 < |c1.records| && o1 in Segment(c1.records, c1.report, j1)
    requires j2 + 1 < |c2.records| && o2 in Segment(c2.records, c2.report, j2)
    requires o2.id == To(to, o1.id)
    ensures j1 == j2 && o1.changed == o2.changed
  {
    hide Renames, Leveled, Prepared, LevelsApart, Upstream, RunTo, SystemOf, Segment, Acts, Due, Skips;
    RenamedFootprints(to, plan1, plan2, env, topo1, topo2, levels1, levels2);
    RunReports(plan1, env, topo1, levels1, host, manager1, acts1, c1, j1, o1);
    RunReports(plan2, env, topo2, levels2, host, manager2, acts2, c2, j2, o2);
    Places(to, plan1, plan2, o1.id);
    LevelRenamed(to, plan1, plan2, topo1, topo2, o1.id, j1, j2);
    NodeRenamed(to, plan1, plan2, env, host, o1.id);
    ActsRenamed(to, plan1, plan2, env, host, topo1, topo2, j1, o1.id);
  }

  // ---------- the tasks of the two plans ----------

  ghost predicate SameNames(m: seq<string>, n: seq<string>) { forall x :: x in m <==> x in n }

  /** Two tasks that converge the same resources under different ids; a batch may list them in
      another order. */
  ghost predicate JobsAlike(to: seq<nat>, job1: Job, job2: Job) {
    match (job1, job2)
    case (Single(r), Single(s)) => s == RenamedResource(to, r)
    case (Install(m), Install(n)) => SameNames(m, n)
    case (Remove(m), Remove(n)) => SameNames(m, n)
    case _ => false
  }

  lemma FootprintsAlike(to: seq<nat>, job1: Job, job2: Job, apt: Apt)
    requires JobsAlike(to, job1, job2)
    ensures JobSenses(job1) == JobSenses(job2) && JobWrites(job1, apt) == JobWrites(job2, apt)
    ensures JobMakes(job1) == JobMakes(job2)
  {
    hide Ancestors, TmpPath, AncestorDirs;
  }

  function Below(n: nat): (r: set<nat>)
    ensures forall x: nat :: x in r <==> x < n
  {
    if n == 0 then {} else Below(n - 1) + {n - 1}
  }

  lemma {:induction false} BelowSize(n: nat)
    ensures |Below(n)| == n
  {
    if n > 0 { BelowSize(n - 1); }
  }

  lemma {:induction false} DistinctSize(s: seq<nat>)
    requires forall i, j :: 0 <= i < j < |s| ==> s[i] != s[j]
    ensures |Elements(s)| == |s|
    decreases |s|
  {
    if s != [] {
      var init, last := s[..|s| - 1], s[|s| - 1];
      DistinctSize(init);
      assert last !in Elements(init);
      assert Elements(s) == Elements(init) + {last};
    }
  }

  lemma SubsetSize(a: set<nat>, b: set<nat>)
    requires a <= b
    ensures |a| <= |b|
  {
    assert b == a + (b - a);
  }

  /** Every place is taken. */
  lemma Onto(to: seq<nat>, plan1: Plan, plan2: Plan, e: nat) returns (i: nat)
    requires Renames(to, plan1, plan2) && e < |plan2|
    ensures i < |to| && to[i] == e
  {
    var taken := Elements(to);
    DistinctSize(to);
    BelowSize(|to|);
    if e !in taken { SubsetSize(taken, Below(|to|) - {e}); }
    assert |Below(|to|) - {e}| < |to|;
    assert e in taken;
    i :| 0 <= i < |to| && to[i] == e;
  }

  lemma {:induction false} MembersHas(plan: Plan, env: Env, ids: seq<nat>, f: Option<Family>, i: nat)
    requires Known(plan, ids)
    ensures i in Members(plan, env, ids, f) <==>
            i in ids && i < |plan| && !Skips(plan[i], env) && FamilyOf(plan[i].resource) == f
    decreases |ids|
  {
    hide Skips, FamilyOf;
    if ids != [] {
      MembersHas(plan, env, ids[..|ids| - 1], f, i);
      assert ids == ids[..|ids| - 1] + [ids[|ids| - 1]];
    }
  }

  /** A resource of the one task is the renamed resource of the other. */
  ghost predicate Twins(to: seq<nat>, t1: Task, t2: Task) {
    exists i :: i in t1.ids && i < |to| && to[i] in t2.ids
  }

  /** The two plans, and a level of each. */
  ghost predicate PlansAlike(to: seq<nat>, plan1: Plan, plan2: Plan, env: Env, topo1: seq<seq<nat>>,
                             topo2: seq<seq<nat>>, levels1: seq<Level>, levels2: seq<Level>) {
    && Renames(to, plan1, plan2) && Leveled(plan1, topo1) && Leveled(plan2, topo2)
    && Prepared(plan1, env, topo1, levels1) && Prepared(plan2, env, topo2, levels2)
  }

  lemma FamilyRenamed(to: seq<nat>, plan1: Plan, plan2: Plan, env: Env, i: nat)
    requires Renames(to, plan1, plan2) && i < |plan1|
    ensures to[i] < |plan2| && plan2[to[i]].resource == RenamedResource(to, plan1[i].resource)
    ensures Skips(plan2[to[i]], env) <==> Skips(plan1[i], env)
    ensures FamilyOf(plan2[to[i]].resource) == FamilyOf(plan1[i].resource)
    ensures plan1[i].resource.AptPackage? || plan1[i].resource.AbsentAptPackage? ==>
              plan2[to[i]].resource == plan1[i].resource
  {
    assert plan2[to[i]] == RenamedNode(to, plan1[i]);
  }

  /** The share of a family in a level, renamed. */
  lemma MembersRenamed(to: seq<nat>, plan1: Plan, plan2: Plan, env: Env, topo1: seq<seq<nat>>, topo2: seq<seq<nat>>,
                       j: nat, f: Option<Family>, i: nat)
    requires Renames(to, plan1, plan2) && Leveled(plan1, topo1) && Leveled(plan2, topo2) && i < |to|
    requires j < |topo1| && j < |topo2| && Known(plan1, topo1[j]) && Known(plan2, topo2[j])
    ensures to[i] < |plan2|
    ensures i in Members(plan1, env, topo1[j], f) <==> to[i] in Members(plan2, env, topo2[j], f)
  {
    hide Renames, Leveled, Skips, FamilyOf, Members;
    Places(to, plan1, plan2, i);
    FamilyRenamed(to, plan1, plan2, env, i);
    SameLevelRenamed(to, plan1, plan2, topo1, topo2, i, j);
    MembersHas(plan1, env, topo1[j], f, i);
    MembersHas(plan2, env, topo2[j], f, to[i]);
  }

  lemma ProperInLevel(plan: Plan, env: Env, topo: seq<seq<nat>>, levels: seq<Level>, j: nat, k: nat)
    requires Prepared(plan, env, topo, levels) && j < |levels| && k < |levels[j].tasks|
    ensures |topo| == |levels| && Known(plan, topo[j]) && ProperTask(plan, env, topo[j], levels[j].tasks[k])
  {
    hide Layered, Partition;
    assert Grouping(plan, env, topo[j], levels[j]);
  }

  /** Twins converge the same. */
  lemma TwinJobs(to: seq<nat>, plan1: Plan, plan2: Plan, env: Env, topo1: seq<seq<nat>>, topo2: seq<seq<nat>>,
                 levels1: seq<Level>, levels2: seq<Level>, j: nat, m: nat, k: nat)
    requires PlansAlike(to, plan1, plan2, env, topo1, topo2, levels1, levels2)
    requires j < |levels1| && m < |levels1[j].tasks| && j < |levels2| && k < |levels2[j].tasks|
    requires Twins(to, levels1[j].tasks[m], levels2[j].tasks[k])
    ensures JobsAlike(to, JobOf(plan1, levels1[j].tasks[m]), JobOf(plan2, levels2[j].tasks[k]))
  {
    hide Renames, Leveled, Prepared, JobOf, Skips, ProperTask, Members, FamilyOf, JobFits, JobsAlike;
    var t1, t2 := levels1[j].tasks[m], levels2[j].tasks[k];
    var i :| i in t1.ids && i < |to| && to[i] in t2.ids;
    ProperInLevel(plan1, env, topo1, levels1, j, m);
    ProperInLevel(plan2, env, topo2, levels2, j, k);
    OneFamily(plan1, env, topo1[j], t1, i);
    OneFamily(plan2, env, topo2[j], t2, to[i]);
    Places(to, plan1, plan2, i);
    FamilyRenamed(to, plan1, plan2, env, i);
    ProperTaskFits(plan1, env, topo1[j], t1);
    ProperTaskFits(plan2, env, topo2[j], t2);
    var f := FamilyOf(plan1[i].resource);
    if f.None? {
      SinglesAlike(to, plan1, plan2, i, JobOf(plan1, t1), JobOf(plan2, t2));
    } else {
      forall x: nat | x < |to| ensures x in t1.ids <==> to[x] in t2.ids {
        MembersRenamed(to, plan1, plan2, env, topo1, topo2, j, f, x);
      }
      BatchesAlike(to, plan1, plan2, env, t1.ids, t2.ids, i, JobOf(plan1, t1), JobOf(plan2, t2));
    }
  }

  lemma SinglesAlike(to: seq<nat>, plan1: Plan, plan2: Plan, i: nat, job1: Job, job2: Job)
    requires i < |to| == |plan1| && to[i] < |plan2| && FamilyOf(plan1[i].resource).None?
    requires FamilyOf(plan2[to[i]].resource).None?
    requires JobFits(plan1, [i], job1) && JobFits(plan2, [to[i]], job2)
    requires plan2[to[i]].resource == RenamedResource(to, plan1[i].resource)
    ensures JobsAlike(to, job1, job2)
  {
    NoBatch(plan1, i, job1);
    NoBatch(plan2, to[i], job2);
  }

  lemma NoBatch(plan: Plan, i: nat, job: Job)
    requires i < |plan| && FamilyOf(plan[i].resource).None? && JobFits(plan, [i], job)
    ensures job == Single(plan[i].resource)
  {
    assert [i][0] == i;
  }

  lemma BatchesAlike(to: seq<nat>, plan1: Plan, plan2: Plan, env: Env, ids1: seq<nat>, ids2: seq<nat>, i: nat,
                     job1: Job, job2: Job)
    requires Renames(to, plan1, plan2) && i < |to| && i in ids1 && FamilyOf(plan1[i].resource).Some?
    requires JobFits(plan1, ids1, job1) && JobFits(plan2, ids2, job2)
    requires forall x :: 0 <= x < |to| ==> (x in ids1 <==> to[x] in ids2)
    ensures JobsAlike(to, job1, job2)
  {
    hide Renames, FamilyOf;
    Places(to, plan1, plan2, i);
    FamilyRenamed(to, plan1, plan2, env, i);
    SameKindOfBatch(plan1, ids1, i, job1);
    SameKindOfBatch(plan2, ids2, to[i], job2);
    NamesRenamed(to, plan1, plan2, env, ids1, ids2, job1, job2);
  }

  lemma SameKindOfBatch(plan: Plan, ids: seq<nat>, i: nat, job: Job)
    requires JobFits(plan, ids, job) && i in ids && i < |plan| && FamilyOf(plan[i].resource).Some?
    ensures if plan[i].resource.AptPackage? then job.Install? else plan[i].resource.AbsentAptPackage? && job.Remove?
  {
  }

  /** The names of the two batches. */
  lemma NamesRenamed(to: seq<nat>, plan1: Plan, plan2: Plan, env: Env, ids1: seq<nat>, ids2: seq<nat>, job1: Job,
                     job2: Job)
    requires Renames(to, plan1, plan2) && JobFits(plan1, ids1, job1) && JobFits(plan2, ids2, job2)
    requires (job1.Install? && job2.Install?) || (job1.Remove? && job2.Remove?)
    requires forall x :: 0 <= x < |to| ==> (x in ids1 <==> to[x] in ids2)
    ensures SameNames(job1.names, job2.names)
  {
    hide Renames;
    forall n ensures n in job1.names <==> n in job2.names {
      if n in job1.names {
        var x :| 0 <= x < |job1.names| && job1.names[x] == n;
        Places(to, plan1, plan2, ids1[x]);
        FamilyRenamed(to, plan1, plan2, env, ids1[x]);
        assert ids1[x] in ids1;
        var y :| 0 <= y < |ids2| && ids2[y] == to[ids1[x]];
        assert job2.names[y] == n;
      }
      if n in job2.names {
        var y :| 0 <= y < |job2.names| && job2.names[y] == n;
        var i := Onto(to, plan1, plan2, ids2[y]);
        assert ids2[y] in ids2;
        Places(to, plan1, plan2, i);
        FamilyRenamed(to, plan1, plan2, env, i);
        var x :| 0 <= x < |ids1| && ids1[x] == i;
        assert job1.names[x] == n;
      }
    }
  }

  /** Every task has a twin. */
  lemma TwinOf(to: seq<nat>, plan1: Plan, plan2: Plan, env: Env, topo1: seq<seq<nat>>, topo2: seq<seq<nat>>,
               levels1: seq<Level>, levels2: seq<Level>, j: nat, k: nat) returns (m: nat)
    requires PlansAlike(to, plan1, plan2, env, topo1, topo2, levels1, levels2)
    requires j < |levels2| && k < |levels2[j].tasks|
    ensures j < |levels1| && m < |levels1[j].tasks| && Twins(to, levels1[j].tasks[m], levels2[j].tasks[k])
  {
    hide Renames, Leveled, Skips, ProperTask, Members, Layered, Partition;
    ProperInLevel(plan2, env, topo2, levels2, j, k);
    var e := FirstId(plan2, env, topo2[j], levels2[j].tasks[k]);
    var i := Onto(to, plan1, plan2, e);
    Places(to, plan1, plan2, i);
    SameLevelRenamed(to, plan1, plan2, topo1, topo2, i, j);
    FamilyRenamed(to, plan1, plan2, env, i);
    assert Grouping(plan1, env, topo1[j], levels1[j]);
    m := TaskOf(plan1, env, topo1[j], levels1[j], i);
  }

  lemma FirstId(plan: Plan, env: Env, level: seq<nat>, t: Task) returns (e: nat)
    requires Known(plan, level) && ProperTask(plan, env, level, t)
    ensures e in t.ids && e in level && e < |plan| && !Skips(plan[e], env)
  {
    e := t.ids[0];
    assert e in t.ids;
  }

  /** And the other way. */
  lemma TwinFor(to: seq<nat>, plan1: Plan, plan2: Plan, env: Env, topo1: seq<seq<nat>>, topo2: seq<seq<nat>>,
                levels1: seq<Level>, levels2: seq<Level>, j: nat, m: nat) returns (k: nat)
    requires PlansAlike(to, plan1, plan2, env, topo1, topo2, levels1, levels2)
    requires j < |levels1| && m < |levels1[j].tasks|
    ensures j < |levels2| && k < |levels2[j].tasks| && Twins(to, levels1[j].tasks[m], levels2[j].tasks[k])
  {
    hide Renames, Leveled, Skips, ProperTask, Members, Layered, Partition;
    ProperInLevel(plan1, env, topo1, levels1, j, m);
    var i := FirstId(plan1, env, topo1[j], levels1[j].tasks[m]);
    Places(to, plan1, plan2, i);
    SameLevelRenamed(to, plan1, plan2, topo1, topo2, i, j);
    FamilyRenamed(to, plan1, plan2, env, i);
    assert Grouping(plan2, env, topo2[j], levels2[j]);
    k := TaskOf(plan2, env, topo2[j], levels2[j], to[i]);
  }

  /** No task has two twins. */
  lemma TwinUnique(to: seq<nat>, plan1: Plan, plan2: Plan, env: Env, topo1: seq<seq<nat>>, topo2: seq<seq<nat>>,
                   levels1: seq<Level>, levels2: seq<Level>, j: nat, m: nat, k1: nat, k2: nat)
    requires PlansAlike(to, plan1, plan2, env, topo1, topo2, levels1, levels2)
    requires j < |levels1| && m < |levels1[j].tasks| && j < |levels2| && k1 < |levels2[j].tasks|
    requires k2 < |levels2[j].tasks|
    requires Twins(to, levels1[j].tasks[m], levels2[j].tasks[k1])
    requires Twins(to, levels1[j].tasks[m], levels2[j].tasks[k2])
    ensures k1 == k2
  {
    hide Renames, Leveled, Prepared, Skips, ProperTask, Members, FamilyOf;
    var t := levels1[j].tasks[m];
    var a :| a in t.ids && a < |to| && to[a] in levels2[j].tasks[k1].ids;
    var b :| b in t.ids && b < |to| && to[b] in levels2[j].tasks[k2].ids;
    ProperInLevel(plan1, env, topo1, levels1, j, m);
    ProperInLevel(plan2, env, topo2, levels2, j, k1);
    ProperInLevel(plan2, env, topo2, levels2, j, k2);
    OneFamily(plan1, env, topo1[j], t, a);
    OneFamily(plan1, env, topo1[j], t, b);
    OneFamily(plan2, env, topo2[j], levels2[j].tasks[k1], to[a]);
    OneFamily(plan2, env, topo2[j], levels2[j].tasks[k2], to[b]);
    Places(to, plan1, plan2, a);
    FamilyRenamed(to, plan1, plan2, env, a);
    FamilyRenamed(to, plan1, plan2, env, b);
    SameFamilyInTask(plan1, env, topo1[j], t, a, b);
    assert to[a] in levels2[j].tasks[k2].ids;
    TasksHaveTheirIds(plan2, env, topo2, levels2, j, k1, k2, to[a]);
  }

  lemma SameFamilyInTask(plan: Plan, env: Env, level: seq<nat>, t: Task, a: nat, b: nat)
    requires Known(plan, level) && ProperTask(plan, env, level, t) && a in t.ids && b in t.ids && a < |plan|
    requires b < |plan|
    ensures FamilyOf(plan[a].resource) == FamilyOf(plan[b].resource)
    ensures FamilyOf(plan[a].resource).None? ==> a == b
  {
    hide FamilyOf, Skips;
    AllOfOneFamily(plan, env, level, t);
    var x :| 0 <= x < |t.ids| && t.ids[x] == a;
    var y :| 0 <= y < |t.ids| && t.ids[y] == b;
  }

  /** So the footprint conditions hold of the one plan exactly as they hold of the other. */
  lemma RenamedFootprints(to: seq<nat>, plan1: Plan, plan2: Plan, env: Env, topo1: seq<seq<nat>>, topo2: seq<seq<nat>>,
                          levels1: seq<Level>, levels2: seq<Level>)
    requires PlansAlike(to, plan1, plan2, env, topo1, topo2, levels1, levels2)
    ensures var (sys1, sys2) := (SystemOf(plan1, levels1, env), SystemOf(plan2, levels2, env));
            && (LevelsApart(sys1) ==> LevelsApart(sys2)) && (Upstream(sys1) ==> Upstream(sys2))
            && (LevelsIndependent(sys1) ==> LevelsIndependent(sys2))
  {
    hide PlansAlike, JobOf, JobStep, JobShadow, JobSenses, JobWrites, JobMakes, Hints, Twins;
    var sys1, sys2 := SystemOf(plan1, levels1, env), SystemOf(plan2, levels2, env);
    forall j: nat, k: nat, m: nat | j < |levels2| && k < |levels2[j].tasks| && m < |levels2[j].tasks| && m != k
      ensures LevelsApart(sys1) ==> Undisturbed(sys2, levels2[j].tasks[m], sys2.senses(levels2[j].tasks[k]))
      ensures LevelsIndependent(sys1) ==> Independent(sys2, levels2[j].tasks[k], levels2[j].tasks[m])
    {
      var x, y := TwoTwins(to, plan1, plan2, env, topo1, topo2, levels1, levels2, j, k, j, m);
      if x == y { TwinUnique(to, plan1, plan2, env, topo1, topo2, levels1, levels2, j, x, k, m); }
      if LevelsApart(sys1) {
        assert AllPrivate(sys1, sys1.levels[j].tasks) && Private(sys1, sys1.levels[j].tasks, x);
        assert Undisturbed(sys1, sys1.levels[j].tasks[y], sys1.senses(sys1.levels[j].tasks[x]));
      }
      if LevelsIndependent(sys1) {
        assert Independent(sys1, sys1.levels[j].tasks[x], sys1.levels[j].tasks[y]);
        IndependentAlike(plan1, plan2, env, levels1, levels2, levels1[j].tasks[x], levels1[j].tasks[y],
                         levels2[j].tasks[k], levels2[j].tasks[m]);
      }
    }
    forall i: nat, k: nat, j: nat, m: nat | Position(sys2, i, k) && Position(sys2, j, m) && i < j
      ensures Upstream(sys1) ==> Undisturbed(sys2, levels2[i].tasks[k], sys2.senses(levels2[j].tasks[m]))
    {
      var x, y := TwoTwins(to, plan1, plan2, env, topo1, topo2, levels1, levels2, i, k, j, m);
      if Upstream(sys1) {
        assert Position(sys1, i, x) && Position(sys1, j, y);
        assert Undisturbed(sys1, levels1[i].tasks[x], sys1.senses(levels1[j].tasks[y]));
      }
    }
  }

  lemma IndependentAlike(plan1: Plan, plan2: Plan, env: Env, levels1: seq<Level>, levels2: seq<Level>,
                         t1: Task, u1: Task, t2: Task, u2: Task)
    requires SameFootprint(plan1, plan2, env, t1, t2) && SameFootprint(plan1, plan2, env, u1, u2)
    requires Independent(SystemOf(plan1, levels1, env), t1, u1)
    ensures Independent(SystemOf(plan2, levels2, env), t2, u2)
  {
    hide JobOf, JobStep, JobShadow, JobSenses, JobWrites, JobMakes, Hints;
    var sys1, sys2 := SystemOf(plan1, levels1, env), SystemOf(plan2, levels2, env);
    assert sys1.writes(t1) == sys2.writes(t2) && sys1.writes(u1) == sys2.writes(u2);
    assert sys1.makes(t1) == sys2.makes(t2) && sys1.makes(u1) == sys2.makes(u2);
    assert sys1.senses(u1) == sys2.senses(u2);
  }

  lemma TwoTwins(to: seq<nat>, plan1: Plan, plan2: Plan, env: Env, topo1: seq<seq<nat>>, topo2: seq<seq<nat>>,
                 levels1: seq<Level>, levels2: seq<Level>, i: nat, k: nat, j: nat, m: nat) returns (x: nat, y: nat)
    requires PlansAlike(to, plan1, plan2, env, topo1, topo2, levels1, levels2)
    requires i < |levels2| && k < |levels2[i].tasks| && j < |levels2| && m < |levels2[j].tasks|
    ensures i < |levels1| && x < |levels1[i].tasks| && j < |levels1| && y < |levels1[j].tasks|
    ensures Twins(to, levels1[i].tasks[x], levels2[i].tasks[k]) && Twins(to, levels1[j].tasks[y], levels2[j].tasks[m])
    ensures SameFootprint(plan1, plan2, env, levels1[i].tasks[x], levels2[i].tasks[k])
    ensures SameFootprint(plan1, plan2, env, levels1[j].tasks[y], levels2[j].tasks[m])
  {
    hide PlansAlike, JobOf, JobSenses, JobWrites, JobMakes, Twins, JobsAlike;
    x := TwinOf(to, plan1, plan2, env, topo1, topo2, levels1, levels2, i, k);
    y := TwinOf(to, plan1, plan2, env, topo1, topo2, levels1, levels2, j, m);
    TwinJobs(to, plan1, plan2, env, topo1, topo2, levels1, levels2, i, x, k);
    TwinJobs(to, plan1, plan2, env, topo1, topo2, levels1, levels2, j, y, m);
    FootprintsAlike(to, JobOf(plan1, levels1[i].tasks[x]), JobOf(plan2, levels2[i].tasks[k]), env.apt);
    FootprintsAlike(to, JobOf(plan1, levels1[j].tasks[y]), JobOf(plan2, levels2[j].tasks[m]), env.apt);
  }

  ghost predicate SameFootprint(plan1: Plan, plan2: Plan, env: Env, t1: Task, t2: Task) {
    var (job1, job2) := (JobOf(plan1, t1), JobOf(plan2, t2));
    JobSenses(job1) == JobSenses(job2) && JobWrites(job1, env.apt) == JobWrites(job2, env.apt)
      && JobMakes(job1) == JobMakes(job2)
  }

  // ---------- the hosts the two leave ----------

  /** The change sets of the two runs. */
  ghost predicate ChangesAlike(to: seq<nat>, changed1: set<nat>, changed2: set<nat>) {
    && (forall i :: 0 <= i < |to| ==> (i in changed1 <==> to[i] in changed2))
    && (forall i :: i in changed1 || i in changed2 ==> i < |to|)
  }

  lemma AnyChangedAlike(to: seq<nat>, ids: seq<nat>, changed1: set<nat>, changed2: set<nat>)
    requires ChangesAlike(to, changed1, changed2)
    ensures AnyChanged(changed1, ids) <==> AnyChanged(changed2, Mapped(to, ids))
  {
    if i :| i in ids && i in changed1 {
      var x :| 0 <= x < |ids| && ids[x] == i;
      assert Mapped(to, ids)[x] == to[i];
      assert Mapped(to, ids)[x] in Mapped(to, ids);
    }
    if e :| e in Mapped(to, ids) && e in changed2 {
      var x :| 0 <= x < |ids| && Mapped(to, ids)[x] == e;
      assert ids[x] in ids;
    }
  }

  /** How many verdicts a task owes. */
  function Owed(job: Job): nat {
    match job
    case Install(names) => |names|
    case Remove(names) => |names|
    case _ => 1
  }

  /** Local states of twins: batches may list their names in another order. */
  ghost predicate LocalsAlike(job1: Job, job2: Job, l1: Local, l2: Local) {
    match (l1, l2)
    case (AptUpdate(t1, v1), AptUpdate(t2, v2)) => SameNames(t1, t2) && |v1| == Owed(job1) && |v2| == Owed(job2)
    case (AptInstall(t1, v1), AptInstall(t2, v2)) => SameNames(t1, t2) && |v1| == Owed(job1) && |v2| == Owed(job2)
    case (AptRemove(t1, v1), AptRemove(t2, v2)) => SameNames(t1, t2) && |v1| == Owed(job1) && |v2| == Owed(job2)
    case _ => l1 == l2 && !l1.AptUpdate? && !l1.AptInstall? && !l1.AptRemove?
  }

  ghost predicate MovesAlike(job1: Job, job2: Job, m1: Move<Local>, m2: Move<Local>) {
    match (m1, m2)
    case (Next(n1, p1), Next(n2, p2)) => LocalsAlike(job1, job2, n1, n2) && p1 == p2
    case (Finish(v1, p1), Finish(v2, p2)) => |v1| == Owed(job1) && |v2| == Owed(job2) && p1 == p2
    case (Fail, Fail) => true
    case _ => false
  }

  lemma FilterAlike(m: seq<string>, n: seq<string>, h: Host, installed: bool)
    requires SameNames(m, n)
    ensures SameNames(Filter(m, h, installed), Filter(n, h, installed))
    ensures Filter(m, h, installed) == [] <==> Filter(n, h, installed) == []
  {
    FilterHas(m, h, installed);
    FilterHas(n, h, installed);
    NonemptyHasMember(Filter(m, h, installed));
    NonemptyHasMember(Filter(n, h, installed));
  }

  lemma PackagesAlike(m: seq<string>, n: seq<string>, closure: string -> set<string>)
    requires SameNames(m, n)
    ensures Packages(m, closure) == Packages(n, closure)
  {
  }

  lemma InstallsAlike(m: seq<string>, n: seq<string>, env: Env, l1: Local, l2: Local, h: Host)
    requires SameNames(m, n) && LocalsAlike(Install(m), Install(n), l1, l2)
    ensures MovesAlike(Install(m), Install(n), AptStep(m, env, l1, h), AptStep(n, env, l2, h))
  {
    hide Filter, BatchVerdicts, Packages, SameNames;
    FilterAlike(m, n, h, false);
    PackagesAlike(m, n, env.apt.installs);
    if l1.AptInstall? { PackagesAlike(l1.todo, l2.todo, env.apt.installs); }
  }

  lemma RemovesAlike(m: seq<string>, n: seq<string>, env: Env, l1: Local, l2: Local, h: Host)
    requires SameNames(m, n) && LocalsAlike(Remove(m), Remove(n), l1, l2)
    ensures MovesAlike(Remove(m), Remove(n), AbsentStep(m, env, l1, h), AbsentStep(n, env, l2, h))
  {
    hide Filter, BatchVerdicts, Packages, SameNames;
    FilterAlike(m, n, h, true);
    PackagesAlike(m, n, env.apt.removes);
    if l1.AptRemove? { PackagesAlike(l1.todo, l2.todo, env.apt.removes); }
  }

  /** A single resource takes the same step. */
  lemma SinglesStepAlike(to: seq<nat>, r: Resource, env: Env, local: Local, h: Host, changed1: set<nat>,
                         changed2: set<nat>)
    requires ChangesAlike(to, changed1, changed2)
    requires LocalsAlike(Single(r), Single(RenamedResource(to, r)), local, local)
    ensures var (m1, m2) := (JobStep(Single(r), env, local, h, changed1),
                             JobStep(Single(RenamedResource(to, r)), env, local, h, changed2));
            MovesAlike(Single(r), Single(RenamedResource(to, r)), m1, m2)
  {
    hide FileStep, DirectoryStep, AnyChanged, ChangesAlike, Mapped;
    if r.Service? { AnyChangedAlike(to, r.restartOn, changed1, changed2); }
    if r.Command? && r.triggerOn.Some? { AnyChangedAlike(to, r.triggerOn.value, changed1, changed2); }
    if IsFileLike(r) { FileLocals(Spec(r), env.dryRun, local, h); }
    if r.Directory? { DirectoryLocals(r, env.dryRun, local, h); }
  }

  lemma FileLocals(f: FileSpec, dryRun: bool, local: Local, h: Host)
    ensures var move := FileStep(f, dryRun, local, h);
            && (move.Next? ==> !move.local.AptUpdate? && !move.local.AptInstall? && !move.local.AptRemove?)
            && (move.Finish? ==> |move.verdicts| == 1)
  {
    hide Ancestors, TmpPath, AncestorIsFile, ChownedMode, ParentAt;
  }

  lemma DirectoryLocals(r: Resource, dryRun: bool, local: Local, h: Host)
    requires r.Directory?
    ensures var move := DirectoryStep(r, dryRun, local, h);
            && (move.Next? ==> !move.local.AptUpdate? && !move.local.AptInstall? && !move.local.AptRemove?)
            && (move.Finish? ==> |move.verdicts| == 1)
  {
    hide Ancestors, AncestorIsFile, ParentAt;
  }

  lemma StepsAlike(to: seq<nat>, job1: Job, job2: Job, env: Env, l1: Local, l2: Local, h: Host, changed1: set<nat>,
                   changed2: set<nat>)
    requires JobsAlike(to, job1, job2) && LocalsAlike(job1, job2, l1, l2) && ChangesAlike(to, changed1, changed2)
    ensures MovesAlike(job1, job2, JobStep(job1, env, l1, h, changed1), JobStep(job2, env, l2, h, changed2))
  {
    hide FileStep, DirectoryStep, ServiceMove, CommandStep, AptStep, AbsentStep, ChangesAlike, RenamedResource,
         MovesAlike, SameNames;
    match (job1, job2)
    case (Single(r), Single(s)) =>
      SingleLocals(r, s, l1, l2);
      if l1.AptUpdate? || l1.AptInstall? || l1.AptRemove? { NoBatchLocals(to, r, env, l1, l2, h, changed1, changed2); }
      else { SinglesStepAlike(to, r, env, l1, h, changed1, changed2); }
    case (Install(m), Install(n)) => InstallsAlike(m, n, env, l1, l2, h);
    case (Remove(m), Remove(n)) => RemovesAlike(m, n, env, l1, l2, h);
    case _ =>
  }

  lemma SingleLocals(r: Resource, s: Resource, l1: Local, l2: Local)
    requires LocalsAlike(Single(r), Single(s), l1, l2)
    ensures !l1.AptUpdate? && !l1.AptInstall? && !l1.AptRemove? ==> l1 == l2
  {
  }

  /** A single resource has nothing to do in the states of a batch. */
  lemma NoBatchLocals(to: seq<nat>, r: Resource, env: Env, l1: Local, l2: Local, h: Host, changed1: set<nat>,
                      changed2: set<nat>)
    requires l1.AptUpdate? || l1.AptInstall? || l1.AptRemove?
    requires LocalsAlike(Single(r), Single(RenamedResource(to, r)), l1, l2)
    ensures MovesAlike(Single(r), Single(RenamedResource(to, r)), JobStep(Single(r), env, l1, h, changed1),
                       JobStep(Single(RenamedResource(to, r)), env, l2, h, changed2))
  {
  }

  // ---------- twins on their own ----------

  ghost predicate StatesAlike(job1: Job, job2: Job, s1: TaskState<Local>, s2: TaskState<Local>) {
    match (s1, s2)
    case (Running(l1), Running(l2)) => LocalsAlike(job1, job2, l1, l2)
    case (Finished(_), Finished(_)) => true
    case (Failed, Failed) => true
    case _ => false
  }

  lemma {:induction false} AloneAlike(to: seq<nat>, plan1: Plan, plan2: Plan, env: Env, levels1: seq<Level>,
                                      levels2: seq<Level>, t1: Task, t2: Task, host: Host, changed1: set<nat>,
                                      changed2: set<nat>, n: nat)
    requires JobsAlike(to, JobOf(plan1, t1), JobOf(plan2, t2)) && ChangesAlike(to, changed1, changed2)
    requires Owed(JobOf(plan1, t1)) == |t1.ids| && Owed(JobOf(plan2, t2)) == |t2.ids|
    ensures var (s1, h1) := Alone(SystemOf(plan1, levels1, env), t1, host, changed1, n);
            var (s2, h2) := Alone(SystemOf(plan2, levels2, env), t2, host, changed2, n);
            h1 == h2 && StatesAlike(JobOf(plan1, t1), JobOf(plan2, t2), s1, s2)
    decreases n
  {
    hide JobStep, JobShadow, JobSenses, JobWrites, JobMakes, JobOf, Hints, JobsAlike, ChangesAlike, LocalsAlike, Owed,
         Apply;
    if n == 0 {
      BeginsAlike(JobOf(plan1, t1), JobOf(plan2, t2));
    } else {
      AloneAlike(to, plan1, plan2, env, levels1, levels2, t1, t2, host, changed1, changed2, n - 1);
      var (s1, h1) := Alone(SystemOf(plan1, levels1, env), t1, host, changed1, n - 1);
      var (s2, h2) := Alone(SystemOf(plan2, levels2, env), t2, host, changed2, n - 1);
      if s1.Running? {
        StepsAlike(to, JobOf(plan1, t1), JobOf(plan2, t2), env, s1.local, s2.local, h1, changed1, changed2);
      }
    }
  }

  lemma BeginsAlike(job1: Job, job2: Job)
    ensures LocalsAlike(job1, job2, Begin, Begin)
  {
  }

  /** Twins that finish leave the same host. */
  lemma TwinsLeaveAlike(to: seq<nat>, plan1: Plan, plan2: Plan, env: Env, topo1: seq<seq<nat>>, topo2: seq<seq<nat>>,
                        levels1: seq<Level>, levels2: seq<Level>, j: nat, m: nat, k: nat,
                        host: Host, changed1: set<nat>, changed2: set<nat>, n1: nat, n2: nat)
    requires PlansAlike(to, plan1, plan2, env, topo1, topo2, levels1, levels2) && ChangesAlike(to, changed1, changed2)
    requires j < |levels1| && m < |levels1[j].tasks| && j < |levels2| && k < |levels2[j].tasks|
    requires Twins(to, levels1[j].tasks[m], levels2[j].tasks[k])
    requires Alone(SystemOf(plan1, levels1, env), levels1[j].tasks[m], host, changed1, n1).0.Finished?
    requires Alone(SystemOf(plan2, levels2, env), levels2[j].tasks[k], host, changed2, n2).0.Finished?
    ensures Alone(SystemOf(plan1, levels1, env), levels1[j].tasks[m], host, changed1, n1).1
            == Alone(SystemOf(plan2, levels2, env), levels2[j].tasks[k], host, changed2, n2).1
    ensures SameFootprint(plan1, plan2, env, levels1[j].tasks[m], levels2[j].tasks[k])
  {
    hide Renames, Leveled, Prepared, Alone, SystemOf, JobOf, ProperTask, JobsAlike, ChangesAlike, Twins, JobSenses,
         JobWrites, JobMakes, Owed, LocalsAlike;
    var t1, t2 := levels1[j].tasks[m], levels2[j].tasks[k];
    TwinJobs(to, plan1, plan2, env, topo1, topo2, levels1, levels2, j, m, k);
    FootprintsAlike(to, JobOf(plan1, t1), JobOf(plan2, t2), env.apt);
    OwesItsIds(plan1, env, topo1, levels1, j, m);
    OwesItsIds(plan2, env, topo2, levels2, j, k);
    AloneAlike(to, plan1, plan2, env, levels1, levels2, t1, t2, host, changed1, changed2, n1);
    AloneUnique(SystemOf(plan2, levels2, env), t2, host, changed2, n1, n2);
  }

  lemma OwesItsIds(plan: Plan, env: Env, topo: seq<seq<nat>>, levels: seq<Level>, j: nat, k: nat)
    requires Prepared(plan, env, topo, levels) && j < |levels| && k < |levels[j].tasks|
    ensures Owed(JobOf(plan, levels[j].tasks[k])) == |levels[j].tasks[k].ids|
  {
    hide Prepared, ProperTask, JobOf;
    ProperInLevel(plan, env, topo, levels, j, k);
    ProperTaskFits(plan, env, topo[j], levels[j].tasks[k]);
  }

  // ---------- level by level ----------

  /** For each of the first tasks one of the second that leaves the same host and writes the same. */
  ghost predicate Paired(sys1: System<Local, Manager>, sys2: System<Local, Manager>, tasks1: seq<Task>,
                         tasks2: seq<Task>, solo1: seq<Host>, solo2: seq<Host>, pairs: seq<nat>)
    requires |solo1| == |tasks1| && |solo2| == |tasks2|
  {
    && |pairs| <= |tasks1|
    && forall m :: 0 <= m < |pairs| ==>
         pairs[m] < |tasks2| && solo1[m] == solo2[pairs[m]] && sys1.writes(tasks1[m]) == sys2.writes(tasks2[pairs[m]])
  }

  /** What twins have left. */
  ghost predicate TwinsLeft(to: seq<nat>, plan1: Plan, plan2: Plan, env: Env, tasks1: seq<Task>, tasks2: seq<Task>,
                            solo1: seq<Host>, solo2: seq<Host>) {
    && |solo1| == |tasks1| && |solo2| == |tasks2|
    && forall m, k :: 0 <= m < |solo1| && 0 <= k < |solo2| && Twins(to, tasks1[m], tasks2[k]) ==>
         solo1[m] == solo2[k] && SameFootprint(plan1, plan2, env, tasks1[m], tasks2[k])
  }

  lemma SameWrites(plan1: Plan, plan2: Plan, env: Env, levels1: seq<Level>, levels2: seq<Level>, t1: Task, t2: Task)
    requires SameFootprint(plan1, plan2, env, t1, t2)
    ensures SystemOf(plan1, levels1, env).writes(t1) == SystemOf(plan2, levels2, env).writes(t2)
  {
    hide JobOf, JobStep, JobShadow, JobSenses, JobWrites, JobMakes, Hints;
  }

  lemma {:induction false} PairForth(to: seq<nat>, plan1: Plan, plan2: Plan, env: Env, topo1: seq<seq<nat>>,
                                     topo2: seq<seq<nat>>, levels1: seq<Level>, levels2: seq<Level>, j: nat,
                                     solo1: seq<Host>, solo2: seq<Host>, n: nat)
    returns (pairs: seq<nat>)
    requires PlansAlike(to, plan1, plan2, env, topo1, topo2, levels1, levels2) && j < |levels1| && j < |levels2|
    requires TwinsLeft(to, plan1, plan2, env, levels1[j].tasks, levels2[j].tasks, solo1, solo2) && n <= |solo1|
    ensures Paired(SystemOf(plan1, levels1, env), SystemOf(plan2, levels2, env), levels1[j].tasks, levels2[j].tasks,
                   solo1, solo2, pairs)
    ensures |pairs| == n
    decreases n
  {
    hide PlansAlike, SystemOf, Twins, SameFootprint;
    pairs := [];
    if n > 0 {
      pairs := PairForth(to, plan1, plan2, env, topo1, topo2, levels1, levels2, j, solo1, solo2, n - 1);
      var k := TwinFor(to, plan1, plan2, env, topo1, topo2, levels1, levels2, j, n - 1);
      SameWrites(plan1, plan2, env, levels1, levels2, levels1[j].tasks[n - 1], levels2[j].tasks[k]);
      pairs := pairs + [k];
    }
  }

  lemma {:induction false} PairBack(to: seq<nat>, plan1: Plan, plan2: Plan, env: Env, topo1: seq<seq<nat>>,
                                    topo2: seq<seq<nat>>, levels1: seq<Level>, levels2: seq<Level>, j: nat,
                                    solo1: seq<Host>, solo2: seq<Host>, n: nat)
    returns (pairs: seq<nat>)
    requires PlansAlike(to, plan1, plan2, env, topo1, topo2, levels1, levels2) && j < |levels1| && j < |levels2|
    requires TwinsLeft(to, plan1, plan2, env, levels1[j].tasks, levels2[j].tasks, solo1, solo2) && n <= |solo2|
    ensures Paired(SystemOf(plan2, levels2, env), SystemOf(plan1, levels1, env), levels2[j].tasks, levels1[j].tasks,
                   solo2, solo1, pairs)
    ensures |pairs| == n
    decreases n
  {
    hide PlansAlike, SystemOf, Twins, SameFootprint;
    pairs := [];
    if n > 0 {
      pairs := PairBack(to, plan1, plan2, env, topo1, topo2, levels1, levels2, j, solo1, solo2, n - 1);
      var m := TwinOf(to, plan1, plan2, env, topo1, topo2, levels1, levels2, j, n - 1);
      SameWrites(plan1, plan2, env, levels1, levels2, levels1[j].tasks[m], levels2[j].tasks[n - 1]);
      pairs := pairs + [m];
    }
  }

  /** Merging what twins leave gives the same host. */
  lemma MergedAlike(to: seq<nat>, plan1: Plan, plan2: Plan, env: Env, topo1: seq<seq<nat>>, topo2: seq<seq<nat>>,
                    levels1: seq<Level>, levels2: seq<Level>, j: nat, start: Host, solo1: seq<Host>, solo2: seq<Host>,
                    h1: Host, h2: Host)
    requires PlansAlike(to, plan1, plan2, env, topo1, topo2, levels1, levels2) && j < |levels1| && j < |levels2|
    requires TwinsLeft(to, plan1, plan2, env, levels1[j].tasks, levels2[j].tasks, solo1, solo2)
    requires Merged(SystemOf(plan1, levels1, env), levels1[j].tasks, start, solo1, h1)
    requires Merged(SystemOf(plan2, levels2, env), levels2[j].tasks, start, solo2, h2)
    ensures h1 == h2
  {
    hide PlansAlike, SystemOf, Twins, SameFootprint, MergedAt, Paired;
    var sys1, sys2 := SystemOf(plan1, levels1, env), SystemOf(plan2, levels2, env);
    var forth := PairForth(to, plan1, plan2, env, topo1, topo2, levels1, levels2, j, solo1, solo2, |solo1|);
    var back := PairBack(to, plan1, plan2, env, topo1, topo2, levels1, levels2, j, solo1, solo2, |solo2|);
    forall c ensures Same(h1, h2, c) {
      CellAlike(sys1, sys2, levels1[j].tasks, levels2[j].tasks, start, solo1, solo2, h1, h2, forth, back, c);
    }
    AgreeEverywhere(h1, h2);
  }

  ghost predicate WrittenIn(sys: System<Local, Manager>, tasks: seq<Task>, c: Cell) {
    exists m :: 0 <= m < |tasks| && c in sys.writes(tasks[m])
  }

  lemma WrittenAlike(sys1: System<Local, Manager>, sys2: System<Local, Manager>, tasks1: seq<Task>, tasks2: seq<Task>,
                     solo1: seq<Host>, solo2: seq<Host>, forth: seq<nat>, c: Cell)
    requires |solo1| == |tasks1| == |forth| && |solo2| == |tasks2|
    requires Paired(sys1, sys2, tasks1, tasks2, solo1, solo2, forth) && WrittenIn(sys1, tasks1, c)
    ensures WrittenIn(sys2, tasks2, c)
    ensures exists m, k :: 0 <= m < |tasks1| && 0 <= k < |tasks2| && c in sys1.writes(tasks1[m])
                           && c in sys2.writes(tasks2[k])
                           && solo1[m] == solo2[k]
  {
    var m :| 0 <= m < |tasks1| && c in sys1.writes(tasks1[m]);
    assert c in sys2.writes(tasks2[forth[m]]);
  }

  lemma FoundAlike(sys1: System<Local, Manager>, sys2: System<Local, Manager>, tasks1: seq<Task>, tasks2: seq<Task>,
                   solo1: seq<Host>, solo2: seq<Host>, forth: seq<nat>, c: Cell)
    requires |solo1| == |tasks1| == |forth| && |solo2| == |tasks2|
    requires Paired(sys1, sys2, tasks1, tasks2, solo1, solo2, forth)
    ensures (exists m :: 0 <= m < |solo1| && c in solo1[m]) ==> exists k :: 0 <= k < |solo2| && c in solo2[k]
  {
    if m :| 0 <= m < |solo1| && c in solo1[m] { assert c in solo2[forth[m]]; }
  }

  lemma CellAlike(sys1: System<Local, Manager>, sys2: System<Local, Manager>, tasks1: seq<Task>, tasks2: seq<Task>,
                  start: Host, solo1: seq<Host>, solo2: seq<Host>, h1: Host, h2: Host, forth: seq<nat>, back: seq<nat>,
                  c: Cell)
    requires |solo1| == |tasks1| == |forth| && |solo2| == |tasks2| == |back|
    requires MergedAt(sys1, tasks1, start, solo1, h1, c) && MergedAt(sys2, tasks2, start, solo2, h2, c)
    requires Paired(sys1, sys2, tasks1, tasks2, solo1, solo2, forth)
    requires Paired(sys2, sys1, tasks2, tasks1, solo2, solo1, back)
    ensures Same(h1, h2, c)
  {
    hide Paired;
    if WrittenIn(sys1, tasks1, c) {
      WrittenAlike(sys1, sys2, tasks1, tasks2, solo1, solo2, forth, c);
    } else {
      if WrittenIn(sys2, tasks2, c) { WrittenAlike(sys2, sys1, tasks2, tasks1, solo2, solo1, back, c); }
      FoundAlike(sys1, sys2, tasks1, tasks2, solo1, solo2, forth, c);
      FoundAlike(sys2, sys1, tasks2, tasks1, solo2, solo1, back, c);
    }
  }

  /** The change sets correspond before every level. */
  lemma ChangesCorrespond(to: seq<nat>, plan1: Plan, plan2: Plan, env: Env, topo1: seq<seq<nat>>, topo2: seq<seq<nat>>,
                          host: Host, j: nat)
    requires Renames(to, plan1, plan2) && Leveled(plan1, topo1) && Leveled(plan2, topo2)
    ensures ChangesAlike(to, ActedBefore(plan1, env, Due(plan1, env, host), topo1, j),
                         ActedBefore(plan2, env, Due(plan2, env, host), topo2, j))
  {
    hide Renames, Leveled, Acts, Due;
    var due1, due2 := Due(plan1, env, host), Due(plan2, env, host);
    SameLengths(to, plan1, plan2);
    forall i: nat | i < |to|
      ensures to[i] < |plan2|
      ensures ActsEarlier(plan1, env, due1, topo1, j, i) <==> ActsEarlier(plan2, env, due2, topo2, j, to[i])
    {
      Places(to, plan1, plan2, i);
      forall a: nat | a < j
        ensures (a < |topo1| && i in topo1[a] && Acts(plan1, env, due1, topo1, a, i)) <==>
                (a < |topo2| && to[i] in topo2[a] && Acts(plan2, env, due2, topo2, a, to[i]))
      {
        SameLevelRenamed(to, plan1, plan2, topo1, topo2, i, a);
        ActsRenamed(to, plan1, plan2, env, host, topo1, topo2, a, i);
      }
    }
  }

  lemma SameLengths(to: seq<nat>, plan1: Plan, plan2: Plan)
    requires Renames(to, plan1, plan2)
    ensures |to| == |plan1| == |plan2|
  {
  }

  lemma LevelHostsAlike(to: seq<nat>, plan1: Plan, plan2: Plan, env: Env, topo1: seq<seq<nat>>, topo2: seq<seq<nat>>,
                        levels1: seq<Level>, levels2: seq<Level>, c1: Config<Local, Manager>,
                        c2: Config<Local, Manager>, j: nat)
    requires PlansAlike(to, plan1, plan2, env, topo1, topo2, levels1, levels2)
    requires PastResults(SystemOf(plan1, levels1, env), c1.records, c1.past, c1.report) && j < |c1.past|
    requires PastResults(SystemOf(plan2, levels2, env), c2.records, c2.past, c2.report) && j < |c2.past|
    requires c1.records[j].host == c2.records[j].host && ChangesAlike(to, c1.records[j].changed, c2.records[j].changed)
    ensures c1.records[j + 1].host == c2.records[j + 1].host
  {
    hide PlansAlike, JobStep, JobShadow, JobSenses, JobWrites, JobMakes, JobOf, Hints, Twins, SameFootprint,
         ChangesAlike, Alone, Merged, JoinedBag, Segment, AloneJoined;
    var sys1, sys2 := SystemOf(plan1, levels1, env), SystemOf(plan2, levels2, env);
    assert LevelResult(sys1, sys1.levels[j], c1.records[j], c1.past[j], c1.records[j + 1],
                       Segment(c1.records, c1.report, j));
    assert LevelResult(sys2, sys2.levels[j], c2.records[j], c2.past[j], c2.records[j + 1],
                       Segment(c2.records, c2.report, j));
    var r1, r2 := c1.records[j], c2.records[j];
    var solo1 := SoloHosts(sys1, levels1[j].tasks, r1.host, r1.changed, c1.past[j]);
    var solo2 := SoloHosts(sys2, levels2[j].tasks, r2.host, r2.changed, c2.past[j]);
    forall m: nat, k: nat | m < |solo1| && k < |solo2| && Twins(to, levels1[j].tasks[m], levels2[j].tasks[k])
      ensures solo1[m] == solo2[k] && SameFootprint(plan1, plan2, env, levels1[j].tasks[m], levels2[j].tasks[k])
    {
      TwinsLeaveAlike(to, plan1, plan2, env, topo1, topo2, levels1, levels2, j, m, k, r1.host, r1.changed, r2.changed,
                      c1.past[j][m], c2.past[j][k]);
    }
    MergedAlike(to, plan1, plan2, env, topo1, topo2, levels1, levels2, j, r1.host, solo1, solo2, c1.records[j + 1].host,
                c2.records[j + 1].host);
  }

  lemma {:induction false} HostsAlikeUpTo(to: seq<nat>, plan1: Plan, plan2: Plan, env: Env, topo1: seq<seq<nat>>,
                                          topo2: seq<seq<nat>>, levels1: seq<Level>, levels2: seq<Level>,
                                          c1: Config<Local, Manager>, c2: Config<Local, Manager>, j: nat)
    requires PlansAlike(to, plan1, plan2, env, topo1, topo2, levels1, levels2)
    requires PastResults(SystemOf(plan1, levels1, env), c1.records, c1.past, c1.report) && j <= |c1.past|
    requires PastResults(SystemOf(plan2, levels2, env), c2.records, c2.past, c2.report) && j <= |c2.past|
    requires c1.records[0].host == c2.records[0].host
    requires forall a :: 0 <= a < j ==> ChangesAlike(to, c1.records[a].changed, c2.records[a].changed)
    ensures c1.records[j].host == c2.records[j].host
    decreases j
  {
    hide PlansAlike, LevelResult, Segment, SystemOf, ChangesAlike;
    if j > 0 {
      HostsAlikeUpTo(to, plan1, plan2, env, topo1, topo2, levels1, levels2, c1, c2, j - 1);
      LevelHostsAlike(to, plan1, plan2, env, topo1, topo2, levels1, levels2, c1, c2, j - 1);
    }
  }

  /** The last level of the one has its counterpart in the other. */
  lemma SameHeight(to: seq<nat>, plan1: Plan, plan2: Plan, topo1: seq<seq<nat>>, topo2: seq<seq<nat>>)
    requires Renames(to, plan1, plan2) && Leveled(plan1, topo1) && Leveled(plan2, topo2)
    ensures |topo1| == |topo2|
  {
    hide Renames, LongestChain, InRange;
    if topo1 != [] {
      var a := |topo1| - 1;
      var i := topo1[a][0];
      InPlan(plan1, topo1, a, i);
      SameLevelRenamed(to, plan1, plan2, topo1, topo2, i, a);
    }
    if topo2 != [] {
      var b := |topo2| - 1;
      var e := topo2[b][0];
      InPlan(plan2, topo2, b, e);
      var i := Onto(to, plan1, plan2, e);
      SameLengths(to, plan1, plan2);
      SameLevelRenamed(to, plan1, plan2, topo1, topo2, i, b);
    }
  }

  /** Completed runs of the two plans from the same host end on the same host, if the levels of the
      one are independent. */
  lemma RenamedPlansLeaveAlike(to: seq<nat>, plan1: Plan, plan2: Plan, env: Env, topo1: seq<seq<nat>>,
                               topo2: seq<seq<nat>>, levels1: seq<Level>, levels2: seq<Level>, host: Host,
                               manager1: Manager, manager2: Manager, acts1: seq<Action>, acts2: seq<Action>,
                               c1: Config<Local, Manager>, c2: Config<Local, Manager>)
    requires PlansAlike(to, plan1, plan2, env, topo1, topo2, levels1, levels2)
    requires LevelsIndependent(SystemOf(plan1, levels1, env)) && Upstream(SystemOf(plan1, levels1, env))
    requires RunTo(SystemOf(plan1, levels1, env), host, manager1, acts1) == Some(c1) && c1.phase == Completed
    requires RunTo(SystemOf(plan2, levels2, env), host, manager2, acts2) == Some(c2) && c2.phase == Completed
    ensures c1.host == c2.host
  {
    hide Renames, Leveled, Prepared, LevelsIndependent, LevelsApart, Upstream, Framed, RunTo, SystemOf, PastResults,
         ChangesAlike, ActedBefore, Due;
    var sys1, sys2 := SystemOf(plan1, levels1, env), SystemOf(plan2, levels2, env);
    RenamedFootprints(to, plan1, plan2, env, topo1, topo2, levels1, levels2);
    IndependentMeansApart(sys1);
    IndependentMeansApart(sys2);
    EndsAfterAll(plan1, env, topo1, levels1, host, manager1, acts1, c1);
    EndsAfterAll(plan2, env, topo2, levels2, host, manager2, acts2, c2);
    SameHeight(to, plan1, plan2, topo1, topo2);
    forall a: nat | a < |topo1| ensures ChangesAlike(to, c1.records[a].changed, c2.records[a].changed) {
      ChangedIsForetold(plan1, env, topo1, levels1, host, manager1, acts1, c1, a);
      ChangedIsForetold(plan2, env, topo2, levels2, host, manager2, acts2, c2, a);
      ChangesCorrespond(to, plan1, plan2, env, topo1, topo2, host, a);
    }
    HostsAlikeUpTo(to, plan1, plan2, env, topo1, topo2, levels1, levels2, c1, c2, |topo1|);
  }

  lemma EndsAfterAll(plan: Plan, env: Env, topo: seq<seq<nat>>, levels: seq<Level>, host: Host, manager: Manager,
                     acts: seq<Action>, c: Config<Local, Manager>)
    requires Prepared(plan, env, topo, levels) && LevelsIndependent(SystemOf(plan, levels, env))
    requires RunTo(SystemOf(plan, levels, env), host, manager, acts) == Some(c) && c.phase == Completed
    ensures PastResults(SystemOf(plan, levels, env), c.records, c.past, c.report)
    ensures |c.past| == |topo| && |c.records| == |topo| + 1
    ensures c.records[0].host == host && c.records[|topo|].host == c.host
  {
    hide LevelsIndependent, Framed, RunTo, PastResults, Inv, Partition, Layered, Grouping;
    SystemIsFramed(plan, levels, env);
    LevelsOfSystem(plan, env, levels);
    MergeAlways(SystemOf(plan, levels, env), host, manager, acts);
    ShapeAlways(SystemOf(plan, levels, env), host, manager, acts);
    FirstRecord(SystemOf(plan, levels, env), host, manager, acts);
  }
}
