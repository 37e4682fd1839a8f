/** A unit file that was renamed into place by a run that was cut before the reload: it is as
    wanted on disk, so the next run reports it No and does not reload for its sake. When the
    next run loads it all the same, and when it stays stale. */
module UnitRerun {
  import opened HostModel
  import opened TopoLevels
  import opened Run
  import opened RunReport
  import opened RunSchedule
  import opened RunViews
  import opened RunModes
  import opened Backends
  import opened BackendRuns
  import opened WholePlan
  import opened PlanReport
  import opened UnitReload
  import opened FilePublish

  predicate IsUnitTask(plan: Plan, t: Task) {
    JobOf(plan, t).Single? && JobOf(plan, t).resource.SystemdUnit?
  }

  predicate ReportedUnit(plan: Plan, o: Outcome) {
    o.changed == Yes && o.id < |plan| && plan[o.id].resource.SystemdUnit?
  }

  predicate SaysYes(state: TaskState<Local>) {
    (state.Finished? || state.Joined?) && Yes in state.verdicts
  }

  /** No unit task has finished with a change so far. */
  ghost predicate NoUnitYet(plan: Plan, levels: seq<Level>, c: Config<Local, Manager>) {
    && (forall o :: o in c.report ==> !ReportedUnit(plan, o))
    && (c.level < |levels| ==>
          && |c.states| == |levels[c.level].tasks|
          && forall k :: 0 <= k < |c.states| && IsUnitTask(plan, levels[c.level].tasks[k]) ==> !SaysYes(c.states[k]))
  }

  /** Either no reload has happened, or the unit is not stale any more. */
  ghost predicate ReloadInv(plan: Plan, levels: seq<Level>, path: string, manager: Manager, c: Config<Local, Manager>) {
    NotStale(plan, levels, c, path) || (c.manager.loaded == manager.loaded && NoUnitYet(plan, levels, c))
  }

  /** A unit's task finishes with its reload, and before that only if there was nothing to do. */
  lemma UnitFinishes(f: FileSpec, local: Local, h: Host)
    requires f.unit
    ensures var move := FileStep(f, false, local, h);
            && (local.Reload? ==> HostAfter(h, move) == h)
            && (!local.Reload? && move.Finish? ==> move.verdicts == [No])
  {
    hide Ancestors, ParentAt, TmpPath, AncestorIsFile, ChownedMode;
    assert Apply(h, NOTHING) == h;
  }

  /** Only a unit's reload loads anything, and only with it does the unit report a change. */
  lemma ReloadsOnly(job: Job, env: Env, local: Local, h: Host, changed: set<nat>, m: Manager, path: string)
    requires !env.dryRun && UNIT_DIR <= path
    ensures var (move, m') := (JobStep(job, env, local, h, changed), JobShadow(job, local, h, m));
            var isUnit := job.Single? && job.resource.SystemdUnit?;
            if isUnit && local.Reload? then Synced(HostAfter(h, move), m', path)
            else m'.loaded == m.loaded && (isUnit && move.Finish? ==> move.verdicts == [No])
  {
    hide FileStep, DirectoryStep, ServiceMove, CommandStep, AptStep, AbsentStep, UnitFiles, DiskDefinition, Spec;
    ReloadSyncs(h, m, path);
    if job.Single? && job.resource.SystemdUnit? {
      UnitSpec(job.resource);
      UnitFinishes(Spec(job.resource), local, h);
    }
  }

  lemma StepKeepsReloadInv(plan: Plan, levels: seq<Level>, env: Env, path: string, manager: Manager,
                           c: Config<Local, Manager>, k: nat)
    requires UnitManaged(plan, levels, env, path) && !env.dryRun && ReloadInv(plan, levels, path, manager, c)
    requires Allowed(SystemOf(plan, levels, env), c, Step(k))
    ensures ReloadInv(plan, levels, path, manager, Do(SystemOf(plan, levels, env), c, Step(k)))
  {
    hide JobStep, JobShadow, JobSenses, JobWrites, JobMakes, JobOf, Hints, Synced, NotStale, Apply;
    if NotStale(plan, levels, c, path) {
      StepKeepsNotStale(plan, levels, env, c, k, path);
    } else {
      var job, local := JobOf(plan, levels[c.level].tasks[k]), c.states[k].local;
      ReloadsOnly(job, env, local, c.host, c.changed, c.manager, path);
      SyncedIsNotStale(plan, levels, Do(SystemOf(plan, levels, env), c, Step(k)), path);
    }
  }

  lemma SyncedIsNotStale(plan: Plan, levels: seq<Level>, c: Config<Local, Manager>, path: string)
    ensures Synced(c.host, c.manager, path) ==> NotStale(plan, levels, c, path)
  {
  }

  lemma {:induction false} OutcomesOfTask(hints: seq<string>, ids: seq<nat>, verdicts: seq<Changed>)
    requires |ids| == |verdicts|
    ensures forall o :: o in Outcomes(hints, ids, verdicts) ==> o.id in ids && o.changed in verdicts
  {
    if ids != [] { OutcomesOfTask(hints, ids[1..], verdicts[1..]); }
  }

  /** A unit is converged by a task of its own. */
  lemma UnitsAreAlone(plan: Plan, env: Env, level: seq<nat>, t: Task, i: nat)
    requires Known(plan, level) && ProperTask(plan, env, level, t) && i in t.ids && i < |plan|
    requires plan[i].resource.SystemdUnit?
    ensures IsUnitTask(plan, t) && JobOf(plan, t) == Single(plan[i].resource)
  {
    assert t.ids[0] in t.ids;
  }

  /** What joining a task adds to the report. */
  lemma JoinReports(plan: Plan, env: Env, topo: seq<seq<nat>>, levels: seq<Level>, hints: seq<string>, j: nat, k: nat,
                    v: seq<Changed>)
    requires Prepared(plan, env, topo, levels) && j < |levels| && k < |levels[j].tasks|
    requires |v| == |levels[j].tasks[k].ids|
    requires IsUnitTask(plan, levels[j].tasks[k]) ==> Yes !in v
    ensures forall o :: o in Outcomes(hints, levels[j].tasks[k].ids, v) ==> !ReportedUnit(plan, o)
  {
    hide JobOf, Partition, Layered, ProperTask;
    assert Grouping(plan, env, topo[j], levels[j]);
    OutcomesOfTask(hints, levels[j].tasks[k].ids, v);
    forall o | o in Outcomes(hints, levels[j].tasks[k].ids, v) && o.id < |plan| && plan[o.id].resource.SystemdUnit?
      ensures o.changed != Yes
    {
      UnitsAreAlone(plan, env, topo[j], levels[j].tasks[k], o.id);
    }
  }

  lemma OthersKeepReloadInv(plan: Plan, levels: seq<Level>, env: Env, topo: seq<seq<nat>>, path: string,
                            manager: Manager, c: Config<Local, Manager>, a: Action)
    requires Prepared(plan, env, topo, levels) && ReloadInv(plan, levels, path, manager, c) && !a.Step?
    requires Allowed(SystemOf(plan, levels, env), c, a)
    ensures ReloadInv(plan, levels, path, manager, Do(SystemOf(plan, levels, env), c, a))
  {
    hide JobStep, JobShadow, JobSenses, JobWrites, JobMakes, JobOf, Hints, NotStale, YesIds, Outcomes, SkippedOutcomes,
         Prepared;
    if NotStale(plan, levels, c, path) {
      OthersKeepNotStale(plan, levels, env, c, a, path);
    } else if a.Join? && c.states[a.k].Finished? {
      JoinReports(plan, env, topo, levels, SystemOf(plan, levels, env).hints, c.level, a.k, c.states[a.k].verdicts);
    } else if a.EndLevel? && c.level + 1 < |levels| {
      SkippedIds(SystemOf(plan, levels, env).hints, levels[c.level + 1].skipped);
    }
  }

  lemma {:induction false} ReloadAlways(plan: Plan, levels: seq<Level>, env: Env, topo: seq<seq<nat>>, path: string,
                                        host: Host, manager: Manager, acts: seq<Action>, c: Config<Local, Manager>)
    requires Prepared(plan, env, topo, levels) && UnitManaged(plan, levels, env, path) && !env.dryRun
    requires RunTo(SystemOf(plan, levels, env), host, manager, acts) == Some(c)
    ensures ReloadInv(plan, levels, path, manager, c)
    decreases |acts|
  {
    hide UnitManaged, Prepared, Do, Allowed, ReloadInv;
    if acts == [] {
      NoUnitAtStart(plan, env, levels, path, host, manager);
    } else {
      var before := RunTo(SystemOf(plan, levels, env), host, manager, acts[..|acts| - 1]).value;
      ReloadAlways(plan, levels, env, topo, path, host, manager, acts[..|acts| - 1], before);
      var a := acts[|acts| - 1];
      if a.Step? { StepKeepsReloadInv(plan, levels, env, path, manager, before, a.k); }
      else { OthersKeepReloadInv(plan, levels, env, topo, path, manager, before, a); }
    }
  }

  lemma NoUnitAtStart(plan: Plan, env: Env, levels: seq<Level>, path: string, host: Host, manager: Manager)
    ensures ReloadInv(plan, levels, path, manager, Start(SystemOf(plan, levels, env), host, manager))
  {
    hide JobStep, JobShadow, JobSenses, JobWrites, JobMakes, JobOf, Hints, NotStale, SkippedOutcomes;
    if |levels| > 0 { SkippedIds(SystemOf(plan, levels, env).hints, levels[0].skipped); }
  }

  // ---------- no unit due, no reload ----------

  ghost predicate NoUnitDue(plan: Plan, env: Env, host: Host) {
    forall v :: v in Due(plan, env, host) ==> v < |plan| && !plan[v].resource.SystemdUnit?
  }

  /** A unit task of a run over such a host never gets to its reload. */
  lemma NeverReloads(plan: Plan, levels: seq<Level>, env: Env, topo: seq<seq<nat>>, host: Host, manager: Manager,
                     acts: seq<Action>, c: Config<Local, Manager>, k: nat)
    requires Prepared(plan, env, topo, levels) && NoUnitDue(plan, env, host)
    requires LevelsApart(SystemOf(plan, levels, env)) && Upstream(SystemOf(plan, levels, env))
    requires RunTo(SystemOf(plan, levels, env), host, manager, acts) == Some(c) && c.level < |levels|
    requires k < |c.states| && k < |levels[c.level].tasks| && c.states[k].Running?
    requires IsUnitTask(plan, levels[c.level].tasks[k])
    ensures !c.states[k].local.Reload?
  {
    hide Prepared, LevelsApart, Upstream, RunTo, Due, Framed, PastViews, Inv, Kept, Private, Agree, Alone, OnItsWay,
         JobOf, Verdicts, NeedsWork, JobSenses, JobWrites, JobMakes, JobStep, JobShadow;
    var sys := SystemOf(plan, levels, env);
    SystemIsFramed(plan, levels, env);
    ViewsAlways(sys, host, manager, acts);
    FirstRecord(sys, host, manager, acts);
    ShapeAlways(sys, host, manager, acts);
    var rec, task := c.records[c.level], levels[c.level].tasks[k];
    UnitInView(sys, c, k);
    StaysOnItsWay(plan, levels, env, task, rec.host, rec.changed, c.taken[k]);
    PastIsLevel(sys, c);
    EarlierKeep(sys, c, c.level, k);
    UnitStillFine(plan, levels, env, topo, host, rec.host, c.level, k);
    NoChangeIsCommitted(JobOf(plan, task), rec.changed, rec.host, c.states[k].local,
                        Alone(sys, task, rec.host, rec.changed, c.taken[k]).1);
  }

  lemma PastIsLevel(sys: System<Local, Manager>, c: Config<Local, Manager>)
    requires ViewInv(sys, c)
    ensures |c.past| == c.level
  {
    hide PastViews, NowInView, PastOk, NowOk;
  }

  lemma UnitInView(sys: System<Local, Manager>, c: Config<Local, Manager>, k: nat)
    requires ViewInv(sys, c) && LevelsApart(sys) && c.level < |sys.levels| && k < |c.states|
    requires k < |sys.levels[c.level].tasks|
    requires c.states[k].Running?
    ensures |c.taken| == |c.states| && |c.records| == c.level + 1
    ensures var rec := c.records[c.level];
            Alone(sys, sys.levels[c.level].tasks[k], rec.host, rec.changed, c.taken[k]).0 == c.states[k]
  {
    hide PastViews, PastOk, NowOk, Kept, Agree, Alone;
    assert Private(sys, sys.levels[c.level].tasks, k);
  }

  lemma UnitStillFine(plan: Plan, levels: seq<Level>, env: Env, topo: seq<seq<nat>>, host: Host, now: Host, j: nat,
                      k: nat)
    requires Prepared(plan, env, topo, levels) && NoUnitDue(plan, env, host) && j < |levels| && k < |levels[j].tasks|
    requires IsUnitTask(plan, levels[j].tasks[k])
    requires Agree(host, now, SystemOf(plan, levels, env).senses(levels[j].tasks[k]))
    ensures !NeedsWork(JobOf(plan, levels[j].tasks[k]).resource, now)
  {
    hide Partition, Layered, NeedsWork, JobSenses, Skips;
    assert Grouping(plan, env, topo[j], levels[j]);
    var t := levels[j].tasks[k];
    assert ProperTask(plan, env, topo[j], t) && t.ids[0] in t.ids;
    var i := t.ids[0];
    var r := plan[i].resource;
    assert JobOf(plan, t) == Single(r);
    assert NeedsWork(r, host) ==> i in Due(plan, env, host);
    assert Alike(host, now, JobSenses(Single(r)));
    NeedsWorkAlike(r, host, now);
  }

  lemma NoChangeIsCommitted(job: Job, changed: set<nat>, h0: Host, local: Local, h: Host)
    requires job.Single? && job.resource.SystemdUnit? && !NeedsWork(job.resource, h0)
    requires OnItsWay(job, changed, h0, local, h)
    ensures !local.Reload?
  {
    hide FileGoal;
  }

  /** So nothing is loaded in such a run. */
  lemma {:induction false} NothingLoaded(plan: Plan, levels: seq<Level>, env: Env, topo: seq<seq<nat>>, host: Host,
                                         manager: Manager, acts: seq<Action>, c: Config<Local, Manager>)
    requires Prepared(plan, env, topo, levels) && NoUnitDue(plan, env, host) && !env.dryRun
    requires LevelsApart(SystemOf(plan, levels, env)) && Upstream(SystemOf(plan, levels, env))
    requires RunTo(SystemOf(plan, levels, env), host, manager, acts) == Some(c)
    ensures c.manager.loaded == manager.loaded
    decreases |acts|
  {
    hide Prepared, LevelsApart, Upstream, NoUnitDue, Do, Allowed;
    if acts == [] {
      StartHost(SystemOf(plan, levels, env), host, manager);
    } else {
      var init, a := acts[..|acts| - 1], acts[|acts| - 1];
      var before := RunTo(SystemOf(plan, levels, env), host, manager, init).value;
      NothingLoaded(plan, levels, env, topo, host, manager, init, before);
      if a.Step? {
        LevelOfStep(SystemOf(plan, levels, env), before, a.k);
        if IsUnitTask(plan, levels[before.level].tasks[a.k]) {
          NeverReloads(plan, levels, env, topo, host, manager, init, before, a.k);
        }
      }
      ActionLoadsNothing(plan, levels, env, before, a);
    }
  }

  lemma LevelOfStep(sys: System<Local, Manager>, c: Config<Local, Manager>, k: nat)
    requires Allowed(sys, c, Step(k))
    ensures c.level < |sys.levels| && k < |c.states| == |sys.levels[c.level].tasks| && c.states[k].Running?
  {
  }

  lemma ActionLoadsNothing(plan: Plan, levels: seq<Level>, env: Env, c: Config<Local, Manager>, a: Action)
    requires Allowed(SystemOf(plan, levels, env), c, a) && !env.dryRun
    requires a.Step? && IsUnitTask(plan, levels[c.level].tasks[a.k]) ==> !c.states[a.k].local.Reload?
    ensures Do(SystemOf(plan, levels, env), c, a).manager.loaded == c.manager.loaded
  {
    hide JobStep, JobShadow, JobSenses, JobWrites, JobMakes, JobOf, Hints, YesIds, Outcomes, SkippedOutcomes, Apply,
         Synced;
    if a.Step? {
      ReloadsOnly(JobOf(plan, levels[c.level].tasks[a.k]), env, c.states[a.k].local, c.host, c.changed, c.manager,
                  UNIT_DIR);
    }
  }

  // ---------- the rerun ----------

  /** What a run that was cut between rename and reload leaves of a unit: as wanted on disk, not loaded. */
  ghost predicate LeftStale(plan: Plan, u: nat, host: Host, manager: Manager) {
    && u < |plan| && plan[u].resource.SystemdUnit?
    && !NeedsWork(plan[u].resource, host) && !Synced(host, manager, UnitPath(plan[u].resource.name))
  }

  /** That is what it leaves, whether the task itself is hit or it is cut after another's error: the
      rename is done, and the new definition was not loaded before. */
  lemma CutLeavesStale(plan: Plan, levels: seq<Level>, env: Env, topo: seq<seq<nat>>, host: Host, manager: Manager,
                       acts: seq<Action>, c: Config<Local, Manager>, a: Action, k: nat, u: nat)
    requires Prepared(plan, env, topo, levels) && !env.dryRun && OwnsFile(plan, env, u)
    requires u < |plan| && plan[u].resource.SystemdUnit?
    requires RunTo(SystemOf(plan, levels, env), host, manager, acts) == Some(c)
    requires Allowed(SystemOf(plan, levels, env), c, a) && (a == Crash(k) || a == CutOff(k)) && OwnTask(levels, u, c, k)
    requires c.states[k] == Running(Reload)
    requires LoadedDefinition(c.manager, UnitPath(plan[u].resource.name)) != Some(plan[u].resource.content)
    ensures var c' := Do(SystemOf(plan, levels, env), c, a); LeftStale(plan, u, c'.host, c'.manager)
  {
    hide Prepared, RunTo, OwnsFile, SystemOf, LoadedDefinition;
    FilesArePublishedAtomically(plan, env, topo, levels, u, host, manager, acts, c);
    assert FileProgress(Spec(plan[u].resource), Reload, c.host);
  }

  /** A completed run loads a unit left stale if and only if some other unit needs mending: a
      rerun does not make up for the reload that was cut off. */
  lemma RerunLoadsIff(plan: Plan, levels: seq<Level>, env: Env, topo: seq<seq<nat>>, host: Host, manager: Manager,
                      acts: seq<Action>, c: Config<Local, Manager>, u: nat)
    requires Prepared(plan, env, topo, levels) && !env.dryRun && OwnsFile(plan, env, u)
    requires LeftStale(plan, u, host, manager)
    requires LevelsApart(SystemOf(plan, levels, env)) && Upstream(SystemOf(plan, levels, env))
    requires RunTo(SystemOf(plan, levels, env), host, manager, acts) == Some(c) && c.phase == Completed
    ensures Synced(c.host, c.manager, UnitPath(plan[u].resource.name)) <==>
            exists v :: v in Due(plan, env, host) && v < |plan| && plan[v].resource.SystemdUnit?
  {
    hide Prepared, LevelsApart, Upstream, RunTo, Due, OwnsFile, NotStale, Acts, Synced, NeedsWork, Segment;
    var path := UnitPath(plan[u].resource.name);
    if v :| v in Due(plan, env, host) && v < |plan| && plan[v].resource.SystemdUnit? {
      OwnerIsOnlyWriter(plan, env, u);
      OnlyWriterManages(plan, env, topo, levels, u);
      ReloadAlways(plan, levels, env, topo, path, host, manager, acts, c);
      UnitReportsYes(plan, levels, env, topo, host, manager, acts, c, v);
      EndIsNotStale(plan, levels, env, host, manager, acts, c, path);
    } else {
      assert NoUnitDue(plan, env, host) by { DueAreNodes(plan, env, host); }
      NothingLoaded(plan, levels, env, topo, host, manager, acts, c);
      FilesArePublishedAtomically(plan, env, topo, levels, u, host, manager, acts, c);
      SameDefinition(plan, u, host, c.host);
      SyncedDependsOn(host, c.host, manager, c.manager, path);
    }
  }

  lemma DueAreNodes(plan: Plan, env: Env, host: Host)
    ensures forall v :: v in Due(plan, env, host) ==> v < |plan|
  {
  }

  lemma OwnerIsOnlyWriter(plan: Plan, env: Env, u: nat)
    requires OwnsFile(plan, env, u) && u < |plan| && plan[u].resource.SystemdUnit?
    ensures OnlyWriter(plan, env, u)
  {
    hide JobWrites;
  }

  /** The definition that was wanted on disk before is there afterwards. */
  lemma SameDefinition(plan: Plan, u: nat, h0: Host, h: Host)
    requires u < |plan| && plan[u].resource.SystemdUnit? && !NeedsWork(plan[u].resource, h0)
    requires DiskDefinition(h, Spec(plan[u].resource).path) == DiskDefinition(h0, Spec(plan[u].resource).path)
             || Complete(Spec(plan[u].resource), h)
    ensures DiskDefinition(h, UnitPath(plan[u].resource.name)) == DiskDefinition(h0, UnitPath(plan[u].resource.name))
  {
  }

  lemma UnitReportsYes(plan: Plan, levels: seq<Level>, env: Env, topo: seq<seq<nat>>, host: Host, manager: Manager,
                       acts: seq<Action>, c: Config<Local, Manager>, v: nat)
    requires Prepared(plan, env, topo, levels)
    requires LevelsApart(SystemOf(plan, levels, env)) && Upstream(SystemOf(plan, levels, env))
    requires RunTo(SystemOf(plan, levels, env), host, manager, acts) == Some(c) && c.phase == Completed
    requires v in Due(plan, env, host) && v < |plan| && plan[v].resource.SystemdUnit?
    ensures !NoUnitYet(plan, levels, c)
  {
    hide Prepared, LevelsApart, Upstream, RunTo, Segment, NeedsWork;
    PlanReportConserved(plan, env, topo, levels, host, manager, acts, c);
    var o := OutcomeOf(c.report, v);
    var j := LevelOfOutcome(plan, env, topo, levels, host, manager, acts, c, o);
    RunReports(plan, env, topo, levels, host, manager, acts, c, j, o);
    assert ReportedUnit(plan, o);
  }

  lemma EndIsNotStale(plan: Plan, levels: seq<Level>, env: Env, host: Host, manager: Manager, acts: seq<Action>,
                      c: Config<Local, Manager>, path: string)
    requires RunTo(SystemOf(plan, levels, env), host, manager, acts) == Some(c) && c.phase == Completed
    ensures NotStale(plan, levels, c, path) ==> Synced(c.host, c.manager, path)
  {
    hide Synced, RunTo;
    ShapeAlways(SystemOf(plan, levels, env), host, manager, acts);
  }
}
