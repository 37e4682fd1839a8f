/** Atomic file publication: whatever the schedule, and wherever a run is cut, the
    target of a File (or SystemdUnit) resource holds its full old content or its full
    new content, and the new content never without its owner and its mode, or what chown leaves
    of that mode. */
module FilePublish {
  import opened HostModel
  import opened TopoLevels
  import opened Run
  import opened RunReport
  import opened RunSchedule
  import opened Backends
  import opened BackendRuns
  import opened WholePlan
  import opened UnitReload

  /** No other resource writes the target of `i`, nor the temp file next to it. */
  ghost predicate OwnsFile(plan: Plan, env: Env, i: nat) {
    && i < |plan| && IsFileLike(plan[i].resource)
    && var path := Spec(plan[i].resource).path;
       forall v :: 0 <= v < |plan| && v != i ==>
         FileAt(path) !in JobWrites(Single(plan[v].resource), env.apt)
         && FileAt(TmpPath(path)) !in JobWrites(Single(plan[v].resource), env.apt)
  }

  /** Distinct files do not disturb each other unless one is named like the other's temp file. */
  lemma DistinctFilesDoNotCollide(a: Resource, b: Resource, apt: Apt)
    requires IsFileLike(a) && IsFileLike(b)
    ensures FileAt(Spec(a).path) !in JobWrites(Single(b), apt)
            && FileAt(TmpPath(Spec(a).path)) !in JobWrites(Single(b), apt)
            <==> Spec(a).path != Spec(b).path && Spec(a).path != TmpPath(Spec(b).path)
                 && TmpPath(Spec(a).path) != Spec(b).path
  {
    var p, q := Spec(a).path, Spec(b).path;
    if TmpPath(p) == TmpPath(q) {
      assert |p| == |q|;
      assert p == TmpPath(p)[..|p|] && q == TmpPath(q)[..|q|];
    }
  }

  /** The new content with the wanted owner, and the wanted mode or what chown leaves of it. */
  predicate Complete(f: FileSpec, h: Host) {
    var v := FileOf(h, f.path);
    && v.Some? && v.value.content == f.content
    && Wants(f.uid, v.value.uid) && Wants(f.gid, v.value.gid)
    && (Wants(f.mode, v.value.mode) || Wants(FinalMode(f), v.value.mode))
  }

  /** For an attainable mode there is nothing chown takes away. */
  lemma CompleteIsGoal(f: FileSpec, h: Host)
    requires Attainable(f)
    ensures Complete(f, h) <==> FileGoal(f, h)
  {
  }

  ghost predicate Published(f: FileSpec, before: Host, h: Host) {
    DiskDefinition(h, f.path) == DiskDefinition(before, f.path) || Complete(f, h)
  }

  /** Task `k` of the level under way converges resource `i`. */
  predicate OwnTask(levels: seq<Level>, i: nat, c: Config<Local, Manager>, k: int) {
    && c.level < |levels| && 0 <= k < |levels[c.level].tasks| && k < |c.states| && levels[c.level].tasks[k].ids == [i]
  }

  ghost predicate PublishInv(plan: Plan, levels: seq<Level>, i: nat, before: Host, c: Config<Local, Manager>)
    requires i < |plan| && IsFileLike(plan[i].resource)
  {
    && Published(Spec(plan[i].resource), before, c.host)
    && forall k :: OwnTask(levels, i, c, k) && c.states[k].Running? ==>
         FileProgress(Spec(plan[i].resource), c.states[k].local, c.host)
  }

  /** A step of the resource itself: the target changes content only by the final rename. */
  lemma OwnStepPublishes(f: FileSpec, dryRun: bool, local: Local, before: Host, h: Host)
    requires Published(f, before, h) && FileProgress(f, local, h) && !dryRun
    ensures Published(f, before, HostAfter(h, FileStep(f, dryRun, local, h)))
  {
    hide Ancestors, AncestorIsFile, ParentAt, TmpPath;
    TmpDiffers(f.path);
    assert Apply(h, NOTHING) == h;
  }

  lemma SameFiles(f: FileSpec, local: Local, before: Host, h1: Host, h2: Host)
    requires FileOf(h1, f.path) == FileOf(h2, f.path) && FileOf(h1, TmpPath(f.path)) == FileOf(h2, TmpPath(f.path))
    ensures Published(f, before, h1) ==> Published(f, before, h2)
    ensures FileProgress(f, local, h1) ==> FileProgress(f, local, h2)
  {
  }

  lemma OthersLeaveFileOf(job: Job, env: Env, local: Local, h: Host, changed: set<nat>, path: string)
    requires FileAt(path) !in JobWrites(job, env.apt)
    ensures FileOf(HostAfter(h, JobStep(job, env, local, h, changed)), path) == FileOf(h, path)
  {
    hide JobStep, JobWrites, JobSenses;
    JobFramed(job, env, local, h, h, changed);
    MakesAreDirs(job);
  }

  /** A task either is that of the resource, or keeps off its two files. */
  lemma TaskOfFile(plan: Plan, env: Env, level: seq<nat>, t: Task, i: nat)
    requires OwnsFile(plan, env, i) && Known(plan, level) && ProperTask(plan, env, level, t)
    ensures t.ids == [i] ==> JobOf(plan, t) == Single(plan[i].resource)
    ensures t.ids != [i] ==> FileAt(Spec(plan[i].resource).path) !in JobWrites(JobOf(plan, t), env.apt)
                             && FileAt(TmpPath(Spec(plan[i].resource).path)) !in JobWrites(JobOf(plan, t), env.apt)
  {
    assert t.ids[0] in t.ids;
    hide TmpPath, Ancestors;
  }

  /** In every level a resource is converged by at most one task. */
  lemma OneTaskPerResource(plan: Plan, env: Env, topo: seq<seq<nat>>, levels: seq<Level>, c: Config<Local, Manager>,
                           k: nat, m: nat, i: nat)
    requires Prepared(plan, env, topo, levels) && OwnTask(levels, i, c, k) && OwnTask(levels, i, c, m)
    ensures k == m
  {
    hide Layered;
    var lv := levels[c.level];
    assert Grouping(plan, env, topo[c.level], lv);
    DistinctBag(topo[c.level], LevelIds(lv));
    DistinctSplit(lv.skipped, Flatten(lv.tasks));
    TwiceInFlatten(lv.tasks, k, m, i);
  }

  lemma Owns(plan: Plan, env: Env, i: nat)
    requires OwnsFile(plan, env, i)
    ensures i < |plan| && IsFileLike(plan[i].resource)
  {
  }

  lemma OwnStep(plan: Plan, env: Env, topo: seq<seq<nat>>, levels: seq<Level>, i: nat, before: Host,
                c: Config<Local, Manager>, k: nat)
    requires Prepared(plan, env, topo, levels) && i < |plan| && IsFileLike(plan[i].resource) && !env.dryRun
    requires PublishInv(plan, levels, i, before, c) && OwnTask(levels, i, c, k)
    requires JobOf(plan, levels[c.level].tasks[k]) == Single(plan[i].resource)
    requires Allowed(SystemOf(plan, levels, env), c, Step(k))
    ensures PublishInv(plan, levels, i, before, Do(SystemOf(plan, levels, env), c, Step(k)))
  {
    hide JobStep, JobShadow, JobWrites, JobSenses, JobMakes, JobOf, Hints, Published, FileProgress, Prepared, Apply,
         FileOf, FileStep, TmpPath;
    var f, local := Spec(plan[i].resource), c.states[k].local;
    var c' := Do(SystemOf(plan, levels, env), c, Step(k));
    OwnJobSteps(plan[i].resource, env, local, c.host, c.changed);
    OwnStepPublishes(f, env.dryRun, local, before, c.host);
    FileProgresses(f, local, c.host);
    forall m | OwnTask(levels, i, c', m) ensures m == k { OneTaskPerResource(plan, env, topo, levels, c', k, m, i); }
  }

  lemma OtherStep(plan: Plan, env: Env, levels: seq<Level>, i: nat, before: Host, c: Config<Local, Manager>, k: nat)
    requires i < |plan| && IsFileLike(plan[i].resource)
    requires PublishInv(plan, levels, i, before, c)
    requires Allowed(SystemOf(plan, levels, env), c, Step(k)) && levels[c.level].tasks[k].ids != [i]
    requires FileAt(Spec(plan[i].resource).path) !in JobWrites(JobOf(plan, levels[c.level].tasks[k]), env.apt)
    requires FileAt(TmpPath(Spec(plan[i].resource).path)) !in JobWrites(JobOf(plan, levels[c.level].tasks[k]), env.apt)
    ensures PublishInv(plan, levels, i, before, Do(SystemOf(plan, levels, env), c, Step(k)))
  {
    hide JobStep, JobShadow, JobWrites, JobSenses, JobMakes, JobOf, Hints, Published, FileProgress, Apply, FileOf,
         TmpPath;
    var f := Spec(plan[i].resource);
    var job, local := JobOf(plan, levels[c.level].tasks[k]), c.states[k].local;
    var c' := Do(SystemOf(plan, levels, env), c, Step(k));
    OthersLeaveFileOf(job, env, local, c.host, c.changed, f.path);
    OthersLeaveFileOf(job, env, local, c.host, c.changed, TmpPath(f.path));
    SameFiles(f, Begin, before, c.host, c'.host);
    forall m | OwnTask(levels, i, c', m) && c'.states[m].Running?
      ensures FileProgress(f, c'.states[m].local, c'.host)
    {
      assert OwnTask(levels, i, c, m) && c'.states[m] == c.states[m];
      SameFiles(f, c.states[m].local, before, c.host, c'.host);
    }
  }

  lemma StepPublishes(plan: Plan, env: Env, topo: seq<seq<nat>>, levels: seq<Level>, i: nat, before: Host,
                      c: Config<Local, Manager>, k: nat)
    requires Prepared(plan, env, topo, levels) && OwnsFile(plan, env, i) && !env.dryRun
    requires i < |plan| && IsFileLike(plan[i].resource) && PublishInv(plan, levels, i, before, c)
    requires Allowed(SystemOf(plan, levels, env), c, Step(k))
    ensures PublishInv(plan, levels, i, before, Do(SystemOf(plan, levels, env), c, Step(k)))
  {
    hide JobStep, JobShadow, JobWrites, JobSenses, JobMakes, JobOf, PublishInv, OwnsFile, Partition, Layered, Do,
         TmpPath;
    assert Grouping(plan, env, topo[c.level], levels[c.level]);
    TaskOfFile(plan, env, topo[c.level], levels[c.level].tasks[k], i);
    if levels[c.level].tasks[k].ids == [i] {
      OwnStep(plan, env, topo, levels, i, before, c, k);
    } else {
      OtherStep(plan, env, levels, i, before, c, k);
    }
  }

  lemma OthersPublish(plan: Plan, env: Env, levels: seq<Level>, i: nat, before: Host, c: Config<Local, Manager>,
                      a: Action)
    requires i < |plan| && IsFileLike(plan[i].resource) && !a.Step?
    requires PublishInv(plan, levels, i, before, c) && Allowed(SystemOf(plan, levels, env), c, a)
    ensures PublishInv(plan, levels, i, before, Do(SystemOf(plan, levels, env), c, a))
  {
    hide JobStep, JobShadow, JobWrites, JobSenses, JobMakes, JobOf, Hints, Published, YesIds, Outcomes, SkippedOutcomes;
    var c' := Do(SystemOf(plan, levels, env), c, a);
    forall m | OwnTask(levels, i, c', m) && c'.states[m].Running?
      ensures FileProgress(Spec(plan[i].resource), c'.states[m].local, c'.host)
    {
      if c'.states[m].local != Begin { assert OwnTask(levels, i, c, m) && c'.states[m] == c.states[m]; }
    }
  }

  /** In every reachable configuration of an apply run, also after errors and cuts, the
      target holds the content it had before the run, or the wanted content with the
      wanted owner and the wanted mode, or what chown leaves of that mode. */
  lemma {:induction false} FilesArePublishedAtomically(plan: Plan, env: Env, topo: seq<seq<nat>>, levels: seq<Level>,
                                                       i: nat, host: Host, manager: Manager, acts: seq<Action>,
                                                       c: Config<Local, Manager>)
    requires Prepared(plan, env, topo, levels) && OwnsFile(plan, env, i) && !env.dryRun
    requires RunTo(SystemOf(plan, levels, env), host, manager, acts) == Some(c)
    ensures PublishInv(plan, levels, i, host, c)
    ensures DiskDefinition(c.host, Spec(plan[i].resource).path) == DiskDefinition(host, Spec(plan[i].resource).path)
            || Complete(Spec(plan[i].resource), c.host)
    decreases |acts|
  {
    hide Prepared, OwnsFile, Do, Allowed, Complete;
    Owns(plan, env, i);
    if acts == [] {
      StartHost(SystemOf(plan, levels, env), host, manager);
      NothingRunsAtStart(SystemOf(plan, levels, env), host, manager);
    } else {
      var before := RunTo(SystemOf(plan, levels, env), host, manager, acts[..|acts| - 1]).value;
      FilesArePublishedAtomically(plan, env, topo, levels, i, host, manager, acts[..|acts| - 1], before);
      var a := acts[|acts| - 1];
      if a.Step? { StepPublishes(plan, env, topo, levels, i, host, before, a.k); }
      else { OthersPublish(plan, env, levels, i, host, before, a); }
    }
  }

  /** For a mode that chown leaves alone: at every point of every run the target holds what it
      held before the run, or is fully as wanted. */
  lemma AttainableFilesAreWhole(plan: Plan, env: Env, topo: seq<seq<nat>>, levels: seq<Level>, i: nat,
                                host: Host, manager: Manager, acts: seq<Action>, c: Config<Local, Manager>)
    requires Prepared(plan, env, topo, levels) && OwnsFile(plan, env, i) && !env.dryRun
    requires RunTo(SystemOf(plan, levels, env), host, manager, acts) == Some(c)
    ensures var f := Spec(plan[i].resource);
            Attainable(f) ==> DiskDefinition(c.host, f.path) == DiskDefinition(host, f.path) || FileGoal(f, c.host)
  {
    hide Prepared, OwnsFile, RunTo, SystemOf, Complete, FileGoal, Attainable;
    Owns(plan, env, i);
    FilesArePublishedAtomically(plan, env, topo, levels, i, host, manager, acts, c);
    if Attainable(Spec(plan[i].resource)) { CompleteIsGoal(Spec(plan[i].resource), c.host); }
  }

  lemma NothingRunsAtStart<L, M>(sys: System<L, M>, host: Host, manager: M)
    ensures forall k :: 0 <= k < |Start(sys, host, manager).states| ==> !Start(sys, host, manager).states[k].Running?
  {
  }

  lemma OwnJobSteps(r: Resource, env: Env, local: Local, h: Host, changed: set<nat>)
    requires IsFileLike(r)
    ensures JobStep(Single(r), env, local, h, changed) == FileStep(Spec(r), env.dryRun, local, h)
  {
  }
}
