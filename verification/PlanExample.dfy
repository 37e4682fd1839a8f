/** The hypotheses of the whole-plan theorems can be met: a directory, and a file below it
    that depends on it, the shape of plan that most bundles register. */
module PlanExample {
  import opened HostModel
  import opened TopoLevels
  import opened Run
  import opened RunReport
  import opened RunSchedule
  import opened RunViews
  import opened RunModes
  import opened Backends
  import opened BackendRuns
  import opened WholePlan
  import opened PlanReport
  import opened PlanCompletes

  function TwoSteps(dir: Resource, file: Resource): Plan {
    [Node("directory", dir, [], Never), Node("file", file, [0], Never)]
  }

  const TOPO: seq<seq<nat>> := [[0], [1]]
  const LEVELS: seq<Level> := [Level([], [Task([0])]), Level([], [Task([1])])]

  ghost predicate Below(dir: Resource, file: Resource) {
    dir.Directory? && file.File? && |file.path| > |dir.path|
  }

  lemma OneMember(plan: Plan, env: Env, i: nat, f: Option<Family>)
    requires i < |plan| && plan[i].skip == Never
    ensures Members(plan, env, [i], f) == if FamilyOf(plan[i].resource) == f then [i] else []
    ensures SkippedOf(plan, env, [i]) == []
  {
    assert [i][..0] == [];
  }

  lemma TwoLevels(plan: Plan)
    requires |plan| == 2 && plan[0].deps == [] && plan[1].deps == [0]
    ensures Partition(TOPO, 2) && Layered(DepsOf(plan), TOPO)
  {
    assert 0 in TOPO[0] && 1 in TOPO[1];
    assert TOPO[..1][0] == [0] && 0 in TOPO[..1][0];
  }

  lemma OneTaskGrouping(plan: Plan, env: Env, j: nat)
    requires j < |plan| && plan[j].skip == Never && FamilyOf(plan[j].resource) == None
    ensures Grouping(plan, env, [j], Level([], [Task([j])]))
  {
    hide Members, SkippedOf;
    OneMember(plan, env, j, None);
    var lv := Level([], [Task([j])]);
    assert Flatten(lv.tasks) == [j];
    assert LevelIds(lv) == [j];
  }

  lemma TwoStepsArePrepared(dir: Resource, file: Resource, env: Env)
    requires Below(dir, file)
    ensures Prepared(TwoSteps(dir, file), env, TOPO, LEVELS)
  {
    hide Grouping, Partition, Layered;
    TwoLevels(TwoSteps(dir, file));
    OneTaskGrouping(TwoSteps(dir, file), env, 0);
    OneTaskGrouping(TwoSteps(dir, file), env, 1);
  }

  /** The footprint conditions hold: one task a level, nothing of the file is touched by the
      directory task, and the file's parents include only what that task establishes. */
  lemma TwoStepsAreSeparate(dir: Resource, file: Resource, env: Env)
    requires Below(dir, file) && !env.dryRun && Reflexive(env.apt)
    ensures var sys := SystemOf(TwoSteps(dir, file), LEVELS, env);
            LevelsIndependent(sys) && LevelsApart(sys) && Upstream(sys) && Downstream(sys)
  {
    var plan := TwoSteps(dir, file);
    var sys := SystemOf(plan, LEVELS, env);
    assert JobOf(plan, Task([0])) == Single(dir) && JobOf(plan, Task([1])) == Single(file);
    assert |TmpPath(file.path)| > |file.path|;
    FilesFitBelowDirectories(plan, LEVELS, env, Task([1]), Task([0]));
    hide JobStep, JobShadow, JobOf, Hints, Establishes, TmpPath;
    assert Undisturbed(sys, Task([0]), sys.senses(Task([1])));
    IndependentMeansApart(sys);
  }

  /** Nothing stands in the way of the two. */
  predicate Unobstructed(dir: Resource, file: Resource, h: Host)
    requires dir.Directory? && file.File?
  {
    && FileAt(dir.path) !in h && !AncestorIsFile(h, dir.path)
    && DirAt(file.path) !in h && DirAt(TmpPath(file.path)) !in h && !AncestorIsFile(h, file.path)
  }

  lemma TwoStepsAreReady(dir: Resource, file: Resource, env: Env, host: Host)
    requires Below(dir, file) && Unobstructed(dir, file, host)
    ensures PlanReady(TwoSteps(dir, file), env, TOPO, LEVELS, host)
  {
    hide TmpPath, Ancestors, AncestorIsFile, ActedBefore, Due;
    var plan := TwoSteps(dir, file);
    assert JobOf(plan, Task([0])) == Single(dir) && JobOf(plan, Task([1])) == Single(file);
  }

  /** Neither has triggers, so what acts is what is due. */
  lemma TwoStepsAct(dir: Resource, file: Resource, env: Env, due: set<nat>, j: nat, i: nat)
    requires Below(dir, file) && i < 2
    ensures Acts(TwoSteps(dir, file), env, due, TOPO, j, i) <==> i in due
  {
  }

  /** A run of the two from any host on which nothing stands in the way can be completed; every
      completed run reports Yes for exactly what was not as wanted. */
  lemma TwoStepsRun(dir: Resource, file: Resource, env: Env, host: Host, manager: Manager)
    returns (acts: seq<Action>, c: Config<Local, Manager>)
    requires Below(dir, file) && !env.dryRun && Reflexive(env.apt) && Unobstructed(dir, file, host)
    ensures RunTo(SystemOf(TwoSteps(dir, file), LEVELS, env), host, manager, acts) == Some(c) && c.phase == Completed
    ensures |c.report| == 2 && 0 in Ids(c.report) && 1 in Ids(c.report)
    ensures forall o :: o in c.report ==>
              o.id < 2 && o.changed == if NeedsWork(if o.id == 0 then dir else file, host) then Yes else No
  {
    hide SystemOf, RunTo, Prepared, LevelsIndependent, LevelsApart, Upstream, Downstream, PlanReady, NeedsWork,
         Reflexive, Segment, Acts;
    var plan := TwoSteps(dir, file);
    var sys := SystemOf(plan, LEVELS, env);
    TwoStepsArePrepared(dir, file, env);
    TwoStepsAreSeparate(dir, file, env);
    TwoStepsAreReady(dir, file, env, host);
    StartsCrashFree(sys, host, manager);
    acts, c := ReadyPlanCompletes(plan, env, TOPO, LEVELS, host, manager, [], Start(sys, host, manager));
    assert [] + acts == acts;
    PlanReportConserved(plan, env, TOPO, LEVELS, host, manager, acts, c);
    CountsAddUp(c.report);
    forall o | o in c.report ensures o.id < 2 && o.changed ==
      if NeedsWork(if o.id == 0 then dir else file, host) then Yes else No {
      var j := LevelOfOutcome(plan, env, TOPO, LEVELS, host, manager, acts, c, o);
      RunReports(plan, env, TOPO, LEVELS, host, manager, acts, c, j, o);
      TwoStepsAct(dir, file, env, Due(plan, env, host), j, o.id);
    }
  }

  /** Run again after any completed run, only a file whose mode could not be attained reports Yes. */
  lemma TwoStepsRunAgain(dir: Resource, file: Resource, env: Env, host: Host, manager: Manager, manager2: Manager,
                         acts1: seq<Action>, acts2: seq<Action>, c1: Config<Local, Manager>,
                         c2: Config<Local, Manager>, o: Outcome)
    requires Below(dir, file) && !env.dryRun && Reflexive(env.apt)
    requires RunTo(SystemOf(TwoSteps(dir, file), LEVELS, env), host, manager, acts1) == Some(c1)
    requires c1.phase == Completed
    requires RunTo(SystemOf(TwoSteps(dir, file), LEVELS, env), c1.host, manager2, acts2) == Some(c2)
    requires c2.phase == Completed
    requires o in c2.report
    ensures o.id < 2 && o.changed != Skipped
    ensures o.changed == Yes <==> (o.id == 1 && !Attainable(Spec(file)) && Outcome(1, "file", Yes) in c1.report)
  {
    hide SystemOf, RunTo, Prepared, LevelsIndependent, LevelsApart, Upstream, Downstream, Reflexive, Segment, Acts,
         Attainable;
    var plan := TwoSteps(dir, file);
    TwoStepsArePrepared(dir, file, env);
    TwoStepsAreSeparate(dir, file, env);
    PlanReportConserved(plan, env, TOPO, LEVELS, host, manager, acts1, c1);
    var j := LevelOfOutcome(plan, env, TOPO, LEVELS, c1.host, manager2, acts2, c2, o);
    SecondRunReports(plan, env, TOPO, LEVELS, LEVELS, host, manager, manager2, acts1, acts2, c1, c2, j, o);
    TwoStepsAct(dir, file, env, Undone(plan, env, c1.report), j, o.id);
    forall u | u in c1.report && u.id == 1 && u.changed == Yes ensures u == Outcome(1, "file", Yes) {}
  }
}
