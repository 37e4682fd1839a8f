/** No stale units at service actions: `daemon-reload` lives inside the SystemdUnit
    backend, so whenever a service is started or restarted, every unit file it
    transitively depends on is loaded as it is on disk, in every interleaving. */
module UnitReload {
  import opened HostModel
  import opened TopoLevels
  import opened Run
  import opened RunReport
  import opened RunSchedule
  import opened Backends
  import opened BackendRuns
  import opened WholePlan

  function DiskDefinition(h: Host, path: string): Option<string> {
    var v := FileOf(h, path);
    if v.Some? then Some(v.value.content) else None
  }

  /** The service manager has loaded the unit file as it is on disk. */
  predicate Synced(h: Host, m: Manager, path: string) {
    LoadedDefinition(m, path) == DiskDefinition(h, path)
  }

  predicate ManagesUnit(job: Job, path: string) {
    job.Single? && job.resource.SystemdUnit? && UnitPath(job.resource.name) == path
  }

  /** The unit file is written by SystemdUnit resources for that path only. */
  ghost predicate UnitManaged(plan: Plan, levels: seq<Level>, env: Env, path: string) {
    && UNIT_DIR <= path
    && forall j, k :: 0 <= j < |levels| && 0 <= k < |levels[j].tasks|
                      && FileAt(path) in JobWrites(JobOf(plan, levels[j].tasks[k]), env.apt) ==>
         ManagesUnit(JobOf(plan, levels[j].tasks[k]), path)
  }

  /** A task that wrote the unit and has not reloaded yet, or never will. */
  ghost predicate Pending(plan: Plan, t: Task, state: TaskState<Local>, path: string) {
    ManagesUnit(JobOf(plan, t), path) && (state == Running(Reload) || state.Failed? || state.Cut?)
  }

  ghost predicate NotStale(plan: Plan, levels: seq<Level>, c: Config<Local, Manager>, path: string) {
    || Synced(c.host, c.manager, path)
    || (c.level < |levels| && |c.states| == |levels[c.level].tasks|
        && exists k :: 0 <= k < |c.states| && Pending(plan, levels[c.level].tasks[k], c.states[k], path))
  }

  lemma ReloadSyncs(h: Host, m: Manager, path: string)
    requires UNIT_DIR <= path
    ensures Synced(h, m.(loaded := UnitFiles(h)), path)
  {
    var c := FileAt(path);
    if FileOf(h, path).Some? {
      assert c in h && c.FileAt?;
      assert path in UnitFiles(h);
    }
  }

  /** One step of a job leaves the unit and its loaded definition alone, or syncs
      them, or is the rename of the unit file, which the job follows by a reload. */
  lemma JobStepSyncs(job: Job, env: Env, local: Local, h: Host, changed: set<nat>, m: Manager, path: string)
    requires UNIT_DIR <= path
    requires FileAt(path) in JobWrites(job, env.apt) ==> ManagesUnit(job, path)
    ensures var move := JobStep(job, env, local, h, changed);
            var m' := JobShadow(job, local, h, m);
            || (m'.loaded == m.loaded && DiskDefinition(HostAfter(h, move), path) == DiskDefinition(h, path))
            || Synced(HostAfter(h, move), m', path)
            || (ManagesUnit(job, path) && move.Next? && move.local.Reload?)
    ensures ManagesUnit(job, path) && local.Reload? ==>
              Synced(HostAfter(h, JobStep(job, env, local, h, changed)), JobShadow(job, local, h, m), path)
  {
    hide JobStep, JobShadow, JobWrites, UnitFiles, FileOf, LoadedDefinition;
    if ManagesUnit(job, path) {
      UnitStepSyncs(job, env, local, h, changed, m, path);
    } else {
      OthersLeaveFile(job, env, local, h, changed, path);
      OthersReload(job, env, local, h, changed, m, path);
    }
  }

  /** Another unit's reload loads every unit file, this one included. */
  lemma OthersReload(job: Job, env: Env, local: Local, h: Host, changed: set<nat>, m: Manager, path: string)
    requires UNIT_DIR <= path
    ensures JobShadow(job, local, h, m).loaded == m.loaded
            || Synced(HostAfter(h, JobStep(job, env, local, h, changed)), JobShadow(job, local, h, m), path)
  {
    hide Ancestors, UnitFiles, DirectoryStep, ServiceMove, CommandStep, AptStep, AbsentStep;
    ReloadSyncs(h, m, path);
    assert Apply(h, NOTHING) == h;
  }

  lemma UnitSpec(r: Resource)
    requires r.SystemdUnit?
    ensures Spec(r).unit && Spec(r).path == UnitPath(r.name)
  {
  }

  /** A unit's file changes content only in a step that a reload follows. */
  lemma TargetChangesOnce(f: FileSpec, dryRun: bool, local: Local, h: Host)
    requires f.unit
    ensures var move := FileStep(f, dryRun, local, h);
            || DiskDefinition(HostAfter(h, move), f.path) == DiskDefinition(h, f.path)
            || (move.Next? && move.local.Reload? && !local.Reload?)
  {
    hide Ancestors, TmpPath, AncestorIsFile, ChownedMode;
    TmpDiffers(f.path);
    assert Apply(h, NOTHING) == h;
  }

  lemma UnitStepSyncs(job: Job, env: Env, local: Local, h: Host, changed: set<nat>, m: Manager, path: string)
    requires UNIT_DIR <= path && ManagesUnit(job, path)
    ensures var move := JobStep(job, env, local, h, changed);
            var m' := JobShadow(job, local, h, m);
            || (m'.loaded == m.loaded && DiskDefinition(HostAfter(h, move), path) == DiskDefinition(h, path))
            || Synced(HostAfter(h, move), m', path)
            || (move.Next? && move.local.Reload?)
    ensures local.Reload? ==> Synced(HostAfter(h, JobStep(job, env, local, h, changed)), JobShadow(job, local, h, m),
                                     path)
  {
    hide FileStep, UnitFiles, DiskDefinition, Spec;
    ReloadSyncs(h, m, path);
    UnitSpec(job.resource);
    TargetChangesOnce(Spec(job.resource), env.dryRun, local, h);
    SyncedDependsOn(h, HostAfter(h, JobStep(job, env, local, h, changed)), JobShadow(job, local, h, m),
                    JobShadow(job, local, h, m), path);
  }

  lemma OthersLeaveFile(job: Job, env: Env, local: Local, h: Host, changed: set<nat>, path: string)
    requires FileAt(path) !in JobWrites(job, env.apt)
    ensures DiskDefinition(HostAfter(h, JobStep(job, env, local, h, changed)), path) == DiskDefinition(h, path)
  {
    hide JobStep, JobWrites, JobSenses;
    JobFramed(job, env, local, h, h, changed);
    MakesAreDirs(job);
  }

  lemma MakesAreDirs(job: Job)
    ensures forall c :: c in JobMakes(job) ==> c.DirAt?
  {
    hide Ancestors;
  }

  lemma StepKeepsNotStale(plan: Plan, levels: seq<Level>, env: Env, c: Config<Local, Manager>, k: nat, path: string)
    requires UnitManaged(plan, levels, env, path) && NotStale(plan, levels, c, path)
    requires Allowed(SystemOf(plan, levels, env), c, Step(k))
    ensures NotStale(plan, levels, Do(SystemOf(plan, levels, env), c, Step(k)), path)
  {
    hide JobStep, JobShadow, JobWrites, JobSenses, JobMakes, JobOf, Hints, Synced, ManagesUnit, DiskDefinition;
    var sys := SystemOf(plan, levels, env);
    var task := levels[c.level].tasks[k];
    var job, local := JobOf(plan, task), c.states[k].local;
    JobStepSyncs(job, env, local, c.host, c.changed, c.manager, path);
    SyncedDependsOn(c.host, HostAfter(c.host, JobStep(job, env, local, c.host, c.changed)), c.manager,
                    JobShadow(job, local, c.host, c.manager), path);
    var c' := Do(sys, c, Step(k));
    if !Synced(c'.host, c'.manager, path) {
      if exists m :: 0 <= m < |c.states| && Pending(plan, levels[c.level].tasks[m], c.states[m], path) {
        var m :| 0 <= m < |c.states| && Pending(plan, levels[c.level].tasks[m], c.states[m], path);
        assert m != k;
        assert c'.states[m] == c.states[m];
        assert Pending(plan, levels[c'.level].tasks[m], c'.states[m], path);
      } else {
        assert Pending(plan, levels[c'.level].tasks[k], c'.states[k], path);
      }
    }
  }

  lemma SyncedDependsOn(h1: Host, h2: Host, m1: Manager, m2: Manager, path: string)
    ensures m1.loaded == m2.loaded && DiskDefinition(h1, path) == DiskDefinition(h2, path) ==>
              (Synced(h1, m1, path) <==> Synced(h2, m2, path))
  {
  }

  /** Failing or cutting a task keeps its reload pending; a level only ends when nothing is. */
  lemma OthersKeepNotStale(plan: Plan, levels: seq<Level>, env: Env, c: Config<Local, Manager>, a: Action, path: string)
    requires NotStale(plan, levels, c, path) && !a.Step?
    requires Allowed(SystemOf(plan, levels, env), c, a)
    ensures NotStale(plan, levels, Do(SystemOf(plan, levels, env), c, a), path)
  {
    hide JobStep, JobShadow, JobWrites, JobSenses, JobMakes, JobOf, Hints, Synced, ManagesUnit, YesIds, Outcomes,
         SkippedOutcomes;
    var c' := Do(SystemOf(plan, levels, env), c, a);
    if !Synced(c.host, c.manager, path) {
      var m :| 0 <= m < |c.states| && Pending(plan, levels[c.level].tasks[m], c.states[m], path);
      if !a.EndLevel? {
        assert Pending(plan, levels[c'.level].tasks[m], c'.states[m], path);
      }
    }
  }

  lemma {:induction false} NeverStale(plan: Plan, levels: seq<Level>, env: Env, host: Host, manager: Manager,
                                      acts: seq<Action>, c: Config<Local, Manager>, path: string)
    requires UnitManaged(plan, levels, env, path) && Synced(host, manager, path)
    requires RunTo(SystemOf(plan, levels, env), host, manager, acts) == Some(c)
    ensures NotStale(plan, levels, c, path)
    decreases |acts|
  {
    hide UnitManaged, Do, Allowed;
    if acts == [] {
      StartHost(SystemOf(plan, levels, env), host, manager);
    } else {
      var before := RunTo(SystemOf(plan, levels, env), host, manager, acts[..|acts| - 1]).value;
      NeverStale(plan, levels, env, host, manager, acts[..|acts| - 1], before, path);
      var a := acts[|acts| - 1];
      if a.Step? { StepKeepsNotStale(plan, levels, env, before, a.k, path); }
      else { OthersKeepNotStale(plan, levels, env, before, a, path); }
    }
  }

  lemma StartHost<L, M>(sys: System<L, M>, host: Host, manager: M)
    ensures Start(sys, host, manager).host == host && Start(sys, host, manager).manager == manager
  {
  }

  /** Task `k` converges service `i`, and its next step calls for the unit to be started or restarted. */
  ghost predicate ActsOnService(plan: Plan, levels: seq<Level>, env: Env, c: Config<Local, Manager>, k: nat, i: nat)
    requires Allowed(SystemOf(plan, levels, env), c, Step(k))
  {
    && levels[c.level].tasks[k].ids == [i] && i < |plan| && plan[i].resource.Service?
    && var name := plan[i].resource.name;
       var calls := Do(SystemOf(plan, levels, env), c, Step(k)).manager.calls;
       calls == c.manager.calls + [StartUnit(name)] || calls == c.manager.calls + [RestartUnit(name)]
  }

  lemma StartsWithLoaded(job: Job, local: Local, h: Host, m: Manager, name: string)
    requires var calls := JobShadow(job, local, h, m).calls;
             calls == m.calls + [StartUnit(name)] || calls == m.calls + [RestartUnit(name)]
    ensures name in JobShadow(job, local, h, m).running
            && JobShadow(job, local, h, m).running[name] == LoadedDefinition(m, UnitPath(name))
  {
    var calls := JobShadow(job, local, h, m).calls;
    assert calls[|m.calls|..] == CallsOf(job, local);
    assert CallsOf(job, local) == [StartUnit(name)] || CallsOf(job, local) == [RestartUnit(name)];
  }

  /** That step leaves the unit with the definition loaded for it, and every file alone. */
  lemma StartRuns(plan: Plan, levels: seq<Level>, env: Env, c: Config<Local, Manager>, k: nat, i: nat)
    requires Allowed(SystemOf(plan, levels, env), c, Step(k)) && ActsOnService(plan, levels, env, c, k, i)
    ensures var (name, c') := (plan[i].resource.name, Do(SystemOf(plan, levels, env), c, Step(k)));
            && name in c'.manager.running
            && c'.manager.running[name] == LoadedDefinition(c.manager, UnitPath(name))
            && forall path :: DiskDefinition(c'.host, path) == DiskDefinition(c.host, path)
  {
    hide JobStep, JobShadow, JobSenses, JobWrites, JobMakes, JobOf, Hints, DiskDefinition, LoadedDefinition;
    var job, local := JobOf(plan, levels[c.level].tasks[k]), c.states[k].local;
    StepsInLevel(plan, levels, env, c, k);
    ServiceJob(plan, levels[c.level].tasks[k], i);
    StartsWithLoaded(job, local, c.host, c.manager, plan[i].resource.name);
    forall path
      ensures DiskDefinition(HostAfter(c.host, JobStep(job, env, local, c.host, c.changed)), path)
              == DiskDefinition(c.host, path)
    {
      ServiceLeavesFile(job, env, local, c.host, c.changed, path);
    }
  }

  lemma StepsInLevel(plan: Plan, levels: seq<Level>, env: Env, c: Config<Local, Manager>, k: nat)
    requires Allowed(SystemOf(plan, levels, env), c, Step(k))
    ensures c.level < |levels| && |c.states| == |levels[c.level].tasks| && k < |c.states|
  {
    hide JobOf, JobStep, JobShadow, JobSenses, JobWrites, JobMakes, Hints;
  }

  lemma ServiceJob(plan: Plan, t: Task, i: nat)
    requires t.ids == [i] && i < |plan| && plan[i].resource.Service?
    ensures JobOf(plan, t) == Single(plan[i].resource)
  {
  }

  lemma ServiceLeavesFile(job: Job, env: Env, local: Local, h: Host, changed: set<nat>, path: string)
    requires job.Single? && job.resource.Service?
    ensures DiskDefinition(HostAfter(h, JobStep(job, env, local, h, changed)), path) == DiskDefinition(h, path)
  {
    hide JobStep, JobSenses;
    OthersLeaveFile(job, env, local, h, changed, path);
  }

  /** No other resource of the plan writes the unit file of `u`. */
  ghost predicate OnlyWriter(plan: Plan, env: Env, u: nat) {
    && u < |plan| && plan[u].resource.SystemdUnit?
    && forall v :: 0 <= v < |plan| && v != u ==>
         FileAt(UnitPath(plan[u].resource.name)) !in JobWrites(Single(plan[v].resource), env.apt)
  }

  /** A task that writes the unit file is the one of `u`. */
  lemma WriterIsUnit(plan: Plan, env: Env, level: seq<nat>, t: Task, u: nat)
    requires OnlyWriter(plan, env, u) && Known(plan, level) && ProperTask(plan, env, level, t)
    ensures FileAt(UnitPath(plan[u].resource.name)) in JobWrites(JobOf(plan, t), env.apt) ==> t.ids == [u]
    ensures ManagesUnit(JobOf(plan, t), UnitPath(plan[u].resource.name)) ==> t.ids == [u]
  {
    var c := FileAt(UnitPath(plan[u].resource.name));
    var job := JobOf(plan, t);
    assert t.ids[0] in t.ids;
    if ManagesUnit(job, UnitPath(plan[u].resource.name)) { assert c in JobWrites(job, env.apt); }
  }

  lemma OnlyWriterManages(plan: Plan, env: Env, topo: seq<seq<nat>>, levels: seq<Level>, u: nat)
    requires Prepared(plan, env, topo, levels) && OnlyWriter(plan, env, u)
    ensures UnitManaged(plan, levels, env, UnitPath(plan[u].resource.name))
  {
    hide JobWrites, OnlyWriter, Partition, Layered;
    OnlyWriterIsUnit(plan, env, u);
    var path := UnitPath(plan[u].resource.name);
    forall j, k | 0 <= j < |levels| && 0 <= k < |levels[j].tasks|
      && FileAt(path) in JobWrites(JobOf(plan, levels[j].tasks[k]), env.apt)
      ensures ManagesUnit(JobOf(plan, levels[j].tasks[k]), path)
    {
      assert Grouping(plan, env, topo[j], levels[j]);
      WriterIsUnit(plan, env, topo[j], levels[j].tasks[k], u);
    }
  }

  lemma OnlyWriterIsUnit(plan: Plan, env: Env, u: nat)
    requires OnlyWriter(plan, env, u)
    ensures u < |plan| && plan[u].resource.SystemdUnit?
  {
  }

  /** The unit was dealt with in an earlier level, so nothing is pending for it in this one. */
  lemma NothingPending(plan: Plan, env: Env, topo: seq<seq<nat>>, levels: seq<Level>, c: Config<Local, Manager>,
                       k: nat, p: seq<nat>)
    requires Prepared(plan, env, topo, levels) && Chain(DepsOf(plan), p) && |p| > 1
    requires OnlyWriter(plan, env, p[|p| - 1])
    requires c.level < |levels| && |c.states| == |levels[c.level].tasks| && k < |c.states|
    requires levels[c.level].tasks[k].ids == [p[0]]
    ensures forall m :: 0 <= m < |c.states| ==>
              !Pending(plan, levels[c.level].tasks[m], c.states[m], UnitPath(plan[p[|p| - 1]].resource.name))
  {
    hide JobOf, OnlyWriter;
    var u := p[|p| - 1];
    assert Grouping(plan, env, topo[c.level], levels[c.level]);
    assert ProperTask(plan, env, topo[c.level], levels[c.level].tasks[k]);
    ChainEndsEarlier(DepsOf(plan), topo, c.level, p);
    var a :| 0 <= a < c.level && u in topo[..c.level][a];
    assert u in topo[a] && u !in topo[c.level];
    OnlyWriterIsUnit(plan, env, u);
    forall m | 0 <= m < |c.states|
      ensures !Pending(plan, levels[c.level].tasks[m], c.states[m], UnitPath(plan[u].resource.name))
    {
      assert ProperTask(plan, env, topo[c.level], levels[c.level].tasks[m]);
      WriterIsUnit(plan, env, topo[c.level], levels[c.level].tasks[m], u);
      assert u in [u];
    }
  }

  /** Whenever a service is started or restarted, the unit file of every SystemdUnit
      among its transitive deps is loaded as it is on disk; if that is the service's
      own unit, the service then runs with the definition on disk. */
  lemma NoStaleUnits(plan: Plan, env: Env, topo: seq<seq<nat>>, levels: seq<Level>, host: Host, manager: Manager,
                     acts: seq<Action>, c: Config<Local, Manager>, k: nat, p: seq<nat>)
    requires Prepared(plan, env, topo, levels)
    requires RunTo(SystemOf(plan, levels, env), host, manager, acts) == Some(c)
    requires Chain(DepsOf(plan), p) && |p| > 1 && OnlyWriter(plan, env, p[|p| - 1])
    requires Synced(host, manager, UnitPath(plan[p[|p| - 1]].resource.name))
    requires Allowed(SystemOf(plan, levels, env), c, Step(k)) && ActsOnService(plan, levels, env, c, k, p[0])
    ensures var path := UnitPath(plan[p[|p| - 1]].resource.name);
            var name := plan[p[0]].resource.name;
            var c' := Do(SystemOf(plan, levels, env), c, Step(k));
            && LoadedDefinition(c.manager, path) == DiskDefinition(c.host, path)
            && (UnitPath(name) == path ==>
                  name in c'.manager.running && c'.manager.running[name] == DiskDefinition(c'.host, path))
  {
    hide Prepared, UnitManaged, RunTo, Chain, Pending, OnlyWriter, UnitFiles, Do, SystemOf, DiskDefinition,
         LoadedDefinition;
    OnlyWriterIsUnit(plan, env, p[|p| - 1]);
    var path := UnitPath(plan[p[|p| - 1]].resource.name);
    OnlyWriterManages(plan, env, topo, levels, p[|p| - 1]);
    NeverStale(plan, levels, env, host, manager, acts, c, path);
    StepsInLevel(plan, levels, env, c, k);
    NothingPending(plan, env, topo, levels, c, k, p);
    StartRuns(plan, levels, env, c, k, p[0]);
  }
}
