/** When a plan goes through: exactly when a task on its own finishes, read off the host it
    starts on, and from that, when every run of a plan can be completed and none fails. */
module PlanCompletes {
  import opened HostModel
  import opened TopoLevels
  import opened Run
  import opened RunReport
  import opened RunSchedule
  import opened RunViews
  import opened RunModes
  import opened RunFailures
  import opened RunLiveness
  import opened Backends
  import opened BackendRuns
  import opened WholePlan
  import opened PlanReport

  // ---------- what a task needs to find ----------

  predicate NothingWanted(f: FileSpec) { f.mode.None? && !HasOwner(f) }

  predicate ContentMatches(f: FileSpec, h: Host) {
    FileOf(h, f.path).Some? && FileOf(h, f.path).value.content == f.content
  }

  /** From here the file's task gets through: no directory stands where the file or its temp
      file is to go, and no file where a parent directory is. */
  predicate FileReady(f: FileSpec, dryRun: bool, local: Local, h: Host) {
    var at, free := FileOf(h, f.path), DirAt(f.path) !in h && DirAt(TmpPath(f.path)) !in h;
    match local
    case Begin => DirAt(f.path) !in h && !AncestorIsFile(h, f.path) && (dryRun || ContentMatches(f, h) || free)
    case FileSensed(current) =>
      || dryRun
      || (if current == Some(f.content) then
            (at.Some? && AttributesMatch(f, at.value)) || (!AncestorIsFile(h, f.path) && at.Some?)
              || (at.None? && NothingWanted(f))
          else !AncestorIsFile(h, f.path) && free)
    case FileParent(inPlace, _) => !AncestorIsFile(h, f.path) && if inPlace then at.Some? || NothingWanted(f) else free
    case InPlaceMode => at.Some? || NothingWanted(f)
    case InPlaceOwner => at.Some? || !HasOwner(f)
    case TmpCreate => free
    case TmpFill(_) => FileOf(h, TmpPath(f.path)).Some? && DirAt(f.path) !in h
    case TmpMode => FileOf(h, TmpPath(f.path)).Some? && DirAt(f.path) !in h
    case TmpOwner => FileOf(h, TmpPath(f.path)).Some? && DirAt(f.path) !in h
    case TmpRename => FileOf(h, TmpPath(f.path)).Some? && DirAt(f.path) !in h
    case Reload => f.unit
    case _ => false
  }

  function FileSteps(f: FileSpec, local: Local): nat {
    match local
    case Begin => |f.content| + |f.path| + 9
    case FileSensed(_) => |f.content| + |f.path| + 8
    case FileParent(_, depth) => |f.content| + 7 + if depth < |f.path| then |f.path| - depth else 0
    case TmpCreate => |f.content| + 6
    case TmpFill(n) => 5 + if n < |f.content| then |f.content| - n else 0
    case TmpMode => 4
    case TmpOwner => 3
    case TmpRename => 2
    case InPlaceMode => 3
    case InPlaceOwner => 2
    case _ => 1
  }

  predicate DirectoryReady(r: Resource, local: Local, h: Host)
    requires r.Directory?
  {
    match local
    case Begin => FileAt(r.path) !in h && !AncestorIsFile(h, r.path)
    case DirMake(_) => FileAt(r.path) !in h && !AncestorIsFile(h, r.path)
    case DirMode => DirOf(h, r.path).Some? || (r.mode.None? && r.uid.None? && r.gid.None?)
    case DirOwner => DirOf(h, r.path).Some? || (r.uid.None? && r.gid.None?)
    case _ => false
  }

  predicate CommandReady(r: Resource, dryRun: bool, local: Local, h: Host, changed: set<nat>)
    requires r.Command?
  {
    var succeeds := r.program.act(Restricted(h, r.program.inputs)).Some?;
    match local
    case Begin => r.argv != [] && (dryRun || succeeds || (r.triggerOn.Some? && !AnyChanged(changed, r.triggerOn.value)))
    case CommandRun => succeeds
    case _ => false
  }

  /** From here the task gets through. */
  predicate Ready(job: Job, dryRun: bool, local: Local, h: Host, changed: set<nat>) {
    match job
    case Malformed => false
    case Install(names) => local.Begin? || ((local.AptUpdate? || local.AptInstall?) && |local.verdicts| == |names|)
    case Remove(names) => local.Begin? || (local.AptRemove? && |local.verdicts| == |names|)
    case Single(r) =>
      match r
      case File(_, _, _, _, _) => FileReady(Spec(r), dryRun, local, h)
      case SystemdUnit(_, _) => FileReady(Spec(r), dryRun, local, h)
      case Directory(_, _, _, _) => DirectoryReady(r, local, h)
      case Service(_, _, _, _) => local.Begin? || local.EnabledSensed? || local.ServiceEnable? || local.ServiceStart?
      case Command(_, _, _) => CommandReady(r, dryRun, local, h, changed)
      case Marker => local.Begin?
      case _ => false
  }

  function DirectorySteps(r: Resource, local: Local): nat
    requires r.Directory?
  {
    match local
    case Begin => |r.path| + 4
    case DirMake(depth) => 3 + if depth < |r.path| then |r.path| - depth else 0
    case DirMode => 2
    case _ => 1
  }

  function StepsLeft(job: Job, local: Local): nat {
    if job.Single? && IsFileLike(job.resource) then FileSteps(Spec(job.resource), local)
    else if job.Single? && job.resource.Directory? then DirectorySteps(job.resource, local) else
    match local
    case Begin => 5
    case EnabledSensed(_) => 4
    case ServiceEnable(_, _, _) => 3
    case AptUpdate(_, _) => 3
    case _ => 2
  }

  /** How many verdicts the task owes. */
  function Width(job: Job): nat {
    match job
    case Install(names) => |names|
    case Remove(names) => |names|
    case _ => 1
  }

  /** A step gets the task nearer its end, and does not change whether it gets there. */
  ghost predicate StepIsReady(job: Job, dryRun: bool, local: Local, h: Host, changed: set<nat>, move: Move<Local>) {
    match move
    case Next(next, p) =>
      StepsLeft(job, next) < StepsLeft(job, local)
      && (Ready(job, dryRun, next, Apply(h, p), changed) <==> Ready(job, dryRun, local, h, changed))
    case Finish(v, _) => Ready(job, dryRun, local, h, changed) <==> |v| == Width(job)
    case Fail => !Ready(job, dryRun, local, h, changed)
  }

  ghost predicate FileStepIsReady(f: FileSpec, dryRun: bool, local: Local, h: Host) {
    match FileStep(f, dryRun, local, h)
    case Next(next, p) =>
      FileSteps(f, next) < FileSteps(f, local) && (FileReady(f, dryRun, next, Apply(h, p)) <==>
                                                   FileReady(f, dryRun, local, h))
    case Finish(v, _) => FileReady(f, dryRun, local, h) && |v| == 1
    case Fail => !FileReady(f, dryRun, local, h)
  }

  predicate OnTemp(local: Local) {
    local.TmpCreate? || local.TmpFill? || local.TmpMode? || local.TmpOwner? || local.TmpRename?
  }

  lemma TempFillReady(f: FileSpec, dryRun: bool, local: Local, h: Host)
    requires local.TmpCreate? || local.TmpFill?
    ensures FileStepIsReady(f, dryRun, local, h)
  {
    hide Ancestors, TmpPath, AncestorIsFile, ParentAt, ChownedMode;
    TmpDiffers(f.path);
  }

  lemma TempStepReady(f: FileSpec, dryRun: bool, local: Local, h: Host)
    requires OnTemp(local) && !local.TmpCreate? && !local.TmpFill?
    ensures FileStepIsReady(f, dryRun, local, h)
  {
    hide Ancestors, TmpPath, AncestorIsFile, ParentAt, ChownedMode;
    TmpDiffers(f.path);
  }

  lemma FileParentReady(f: FileSpec, dryRun: bool, inPlace: bool, depth: nat, h: Host)
    ensures FileStepIsReady(f, dryRun, FileParent(inPlace, depth), h)
  {
    hide Ancestors, TmpPath, AncestorIsFile, ParentAt, ChownedMode;
    ParentOnly(f.path, depth, h);
    assert Apply(h, NOTHING) == h;
  }

  lemma FileStepReady(f: FileSpec, dryRun: bool, local: Local, h: Host)
    ensures FileStepIsReady(f, dryRun, local, h)
  {
    hide Ancestors, TmpPath, AncestorIsFile, ParentAt, ChownedMode;
    if local.TmpCreate? || local.TmpFill? {
      TempFillReady(f, dryRun, local, h);
    } else if OnTemp(local) {
      TempStepReady(f, dryRun, local, h);
    } else if local.FileParent? {
      FileParentReady(f, dryRun, local.inPlace, local.depth, h);
    } else {
      assert Apply(h, NOTHING) == h;
    }
  }

  /** Making a parent of a path brings up neither the path nor its temp file, and no file. */
  lemma ParentOnly(path: string, depth: nat, h: Host)
    ensures var h' := Apply(h, Patch(map[], {}, ParentAt(path, depth)));
            && (AncestorIsFile(h', path) <==> AncestorIsFile(h, path))
            && (FileAt(path) in h' <==> FileAt(path) in h) && DirOf(h', path) == DirOf(h, path)
            && (DirAt(path) in h' <==> DirAt(path) in h) && (DirAt(TmpPath(path)) in h' <==> DirAt(TmpPath(path)) in h)
            && FileOf(h', path) == FileOf(h, path) && FileOf(h', TmpPath(path)) == FileOf(h, TmpPath(path))
  {
    hide Ancestors;
    var h' := Apply(h, Patch(map[], {}, ParentAt(path, depth)));
    forall x ensures FileAt(x) in h' <==> FileAt(x) in h {}
  }

  lemma DirMakeReady(r: Resource, dryRun: bool, depth: nat, h: Host, changed: set<nat>)
    requires r.Directory?
    ensures StepIsReady(Single(r), dryRun, DirMake(depth), h, changed, DirectoryStep(r, dryRun, DirMake(depth), h))
  {
    hide Ancestors, AncestorIsFile, ParentAt;
    ParentOnly(r.path, depth, h);
  }

  lemma DirectoryStepReady(r: Resource, dryRun: bool, local: Local, h: Host, changed: set<nat>)
    requires r.Directory?
    ensures StepIsReady(Single(r), dryRun, local, h, changed, DirectoryStep(r, dryRun, local, h))
  {
    hide Ancestors, AncestorIsFile, ParentAt;
    if local.DirMake? {
      DirMakeReady(r, dryRun, local.depth, h, changed);
    } else {
      assert Apply(h, NOTHING) == h;
    }
  }

  lemma ServiceStepReady(r: Resource, dryRun: bool, local: Local, h: Host, changed: set<nat>)
    requires r.Service?
    ensures StepIsReady(Single(r), dryRun, local, h, changed, ServiceMove(r, dryRun, local, h, changed))
  {
    hide AnyChanged, Apply;
  }

  lemma CommandStepReady(r: Resource, dryRun: bool, local: Local, h: Host, changed: set<nat>)
    requires r.Command?
    ensures StepIsReady(Single(r), dryRun, local, h, changed, CommandStep(r, dryRun, local, h, changed))
  {
    hide AnyChanged, Restricted, Only;
    assert Apply(h, NOTHING) == h;
  }

  lemma BatchStepReady(job: Job, env: Env, local: Local, h: Host, changed: set<nat>)
    requires job.Install? || job.Remove?
    ensures StepIsReady(job, env.dryRun, local, h, changed, JobStep(job, env, local, h, changed))
  {
    hide Apply, Packages;
  }

  lemma FileJobReady(r: Resource, dryRun: bool, local: Local, h: Host, changed: set<nat>)
    requires IsFileLike(r)
    ensures StepIsReady(Single(r), dryRun, local, h, changed, FileStep(Spec(r), dryRun, local, h))
  {
    hide FileStep, FileReady, FileSteps, Spec, Apply;
    FileStepReady(Spec(r), dryRun, local, h);
  }

  /** A malformed batch, a marker, or a package outside a batch. */
  lemma RestReady(job: Job, env: Env, local: Local, h: Host, changed: set<nat>)
    requires job.Malformed?
             || (job.Single? && (job.resource.Marker? || job.resource.AptPackage? || job.resource.AbsentAptPackage?))
    ensures StepIsReady(job, env.dryRun, local, h, changed, JobStep(job, env, local, h, changed))
  {
  }

  lemma JobStepReady(job: Job, env: Env, local: Local, h: Host, changed: set<nat>)
    ensures StepIsReady(job, env.dryRun, local, h, changed, JobStep(job, env, local, h, changed))
  {
    hide FileStep, DirectoryStep, ServiceMove, CommandStep, AptStep, AbsentStep, Spec, StepIsReady;
    match job
    case Malformed => RestReady(job, env, local, h, changed);
    case Install(_) => BatchStepReady(job, env, local, h, changed);
    case Remove(_) => BatchStepReady(job, env, local, h, changed);
    case Single(r) =>
      match r
      case File(_, _, _, _, _) => FileJobReady(r, env.dryRun, local, h, changed);
      case SystemdUnit(_, _) => FileJobReady(r, env.dryRun, local, h, changed);
      case Directory(_, _, _, _) => DirectoryStepReady(r, env.dryRun, local, h, changed);
      case Service(_, _, _, _) => ServiceStepReady(r, env.dryRun, local, h, changed);
      case Command(_, _, _) => CommandStepReady(r, env.dryRun, local, h, changed);
      case _ => RestReady(job, env, local, h, changed);
  }

  // ---------- a task on its own ----------

  /** As long as it runs it is as ready as it was; it finishes only if it was ready, and
      fails only if it was not. */
  lemma {:induction false} ReadyAlone(plan: Plan, levels: seq<Level>, env: Env, task: Task, host: Host,
                                      changed: set<nat>, n: nat)
    requires Width(JobOf(plan, task)) == |task.ids|
    ensures var (s, h) := Alone(SystemOf(plan, levels, env), task, host, changed, n);
            var ready := Ready(JobOf(plan, task), env.dryRun, Begin, host, changed);
            match s
            case Running(local) => Ready(JobOf(plan, task), env.dryRun, local, h, changed) <==> ready
            case Finished(_) => ready
            case _ => !ready
    decreases n
  {
    hide JobStep, JobShadow, JobSenses, JobWrites, JobMakes, JobOf, Hints, Ready, Width, Apply;
    if n > 0 {
      ReadyAlone(plan, levels, env, task, host, changed, n - 1);
      var (s, h) := Alone(SystemOf(plan, levels, env), task, host, changed, n - 1);
      if s.Running? { JobStepReady(JobOf(plan, task), env, s.local, h, changed); }
    }
  }

  /** It does not run for ever. */
  lemma {:induction false} EndsAlone(plan: Plan, levels: seq<Level>, env: Env, task: Task, host: Host,
                                     changed: set<nat>, n: nat)
    returns (m: nat)
    ensures !Alone(SystemOf(plan, levels, env), task, host, changed, m).0.Running?
    decreases var s := Alone(SystemOf(plan, levels, env), task, host, changed, n).0;
              if s.Running? then StepsLeft(JobOf(plan, task), s.local) + 1 else 0
  {
    hide JobStep, JobShadow, JobSenses, JobWrites, JobMakes, JobOf, Hints, Ready, Width, Apply, StepsLeft;
    var (s, h) := Alone(SystemOf(plan, levels, env), task, host, changed, n);
    if s.Running? {
      JobStepReady(JobOf(plan, task), env, s.local, h, changed);
      AloneNext(SystemOf(plan, levels, env), task, host, changed, n);
      m := EndsAlone(plan, levels, env, task, host, changed, n + 1);
    } else {
      m := n;
    }
  }

  /** A task on its own finishes if and only if it finds its host ready; otherwise it fails. */
  lemma FinishesIffReady(plan: Plan, levels: seq<Level>, env: Env, task: Task, host: Host, changed: set<nat>)
    requires Width(JobOf(plan, task)) == |task.ids|
    ensures Finishes(SystemOf(plan, levels, env), task, host, changed) <==>
            Ready(JobOf(plan, task), env.dryRun, Begin, host, changed)
  {
    hide SystemOf, Alone, JobOf, Ready, Width;
    var sys := SystemOf(plan, levels, env);
    if Ready(JobOf(plan, task), env.dryRun, Begin, host, changed) {
      var m := EndsAlone(plan, levels, env, task, host, changed, 0);
      ReadyAlone(plan, levels, env, task, host, changed, m);
      OnlyAloneStates(sys, task, host, changed, m);
      assert Alone(sys, task, host, changed, m).0.Finished?;
    }
    if n: nat :| Alone(sys, task, host, changed, n).0.Finished? {
      ReadyAlone(plan, levels, env, task, host, changed, n);
    }
  }

  lemma OnlyAloneStates<L, M>(sys: System<L, M>, task: Task, host: Host, changed: set<nat>, n: nat)
    ensures var s := Alone(sys, task, host, changed, n).0; s.Running? || s.Finished? || s.Failed?
  {
  }

  // ---------- a plan ----------

  /** On this host every task is ready, given what acts before it. */
  ghost predicate PlanReady(plan: Plan, env: Env, topo: seq<seq<nat>>, levels: seq<Level>, host: Host) {
    forall j, k :: 0 <= j < |levels| && 0 <= k < |levels[j].tasks| ==>
      Ready(JobOf(plan, levels[j].tasks[k]), env.dryRun, Begin, host,
            ActedBefore(plan, env, Due(plan, env, host), topo, j))
  }

  lemma TaskHasWidth(plan: Plan, env: Env, topo: seq<seq<nat>>, levels: seq<Level>, j: nat, k: nat)
    requires Prepared(plan, env, topo, levels) && j < |levels| && k < |levels[j].tasks|
    ensures Width(JobOf(plan, levels[j].tasks[k])) == |levels[j].tasks[k].ids|
  {
    hide Layered, Partition, ProperTask, JobOf;
    assert Grouping(plan, env, topo[j], levels[j]);
    ProperTaskFits(plan, env, topo[j], levels[j].tasks[k]);
  }

  /** A level of a run gets through if and only if its tasks were ready when the run began:
      what they sense has not been touched since. */
  lemma LevelFinishesIffReady(plan: Plan, env: Env, topo: seq<seq<nat>>, levels: seq<Level>, host: Host,
                              manager: Manager, acts: seq<Action>, c: Config<Local, Manager>, j: nat)
    requires Prepared(plan, env, topo, levels) && Upstream(SystemOf(plan, levels, env))
    requires RunTo(SystemOf(plan, levels, env), host, manager, acts) == Some(c) && j < |c.records| && j < |levels|
    ensures CanFinish(SystemOf(plan, levels, env), j, c.records[j]) <==>
            forall k :: 0 <= k < |levels[j].tasks| ==>
                Ready(JobOf(plan, levels[j].tasks[k]), env.dryRun, Begin, host, c.records[j].changed)
  {
    hide Prepared, RunTo, Upstream, Framed, PastViews, NowInView, Inv, Ready, JobOf, Width, Alone, Agree;
    var sys := SystemOf(plan, levels, env);
    SystemIsFramed(plan, levels, env);
    ViewsAlways(sys, host, manager, acts);
    FirstRecord(sys, host, manager, acts);
    forall k | 0 <= k < |levels[j].tasks|
      ensures Finishes(sys, levels[j].tasks[k], c.records[j].host, c.records[j].changed) <==>
              Ready(JobOf(plan, levels[j].tasks[k]), env.dryRun, Begin, host, c.records[j].changed)
    {
      RecordsAndPast(sys, c);
      EarlierKeep(sys, c, j, k);
      TaskHasWidth(plan, env, topo, levels, j, k);
      FinishesIffReady(plan, levels, env, levels[j].tasks[k], host, c.records[j].changed);
      FinishesAlike(sys, levels[j].tasks[k], host, c.records[j].host, c.records[j].changed);
    }
  }

  lemma RecordsAndPast(sys: System<Local, Manager>, c: Config<Local, Manager>)
    requires ViewInv(sys, c)
    ensures |c.records| == |c.past| + 1
  {
    hide Inv, NowInView, LevelView;
  }

  lemma FinishesAlike(sys: System<Local, Manager>, task: Task, h1: Host, h2: Host, changed: set<nat>)
    requires Framed(sys) && Agree(h1, h2, sys.senses(task))
    ensures Finishes(sys, task, h1, changed) <==> Finishes(sys, task, h2, changed)
  {
    hide Framed, Agree, Alone;
    if n: nat :| Alone(sys, task, h1, changed, n).0.Finished? { AloneAgrees(sys, task, h1, h2, changed, n); }
    if n: nat :| Alone(sys, task, h2, changed, n).0.Finished? { AloneAgrees(sys, task, h1, h2, changed, n); }
  }

  /** A crash-free run of a plan whose tasks are ready never fails, and can be completed from
      wherever it is. */
  lemma {:induction false} ReadyPlanCompletes(plan: Plan, env: Env, topo: seq<seq<nat>>, levels: seq<Level>,
                                              host: Host, manager: Manager, acts: seq<Action>,
                                              c: Config<Local, Manager>)
    returns (more: seq<Action>, last: Config<Local, Manager>)
    requires Prepared(plan, env, topo, levels)
    requires LevelsApart(SystemOf(plan, levels, env)) && Upstream(SystemOf(plan, levels, env))
    requires PlanReady(plan, env, topo, levels, host)
    requires RunTo(SystemOf(plan, levels, env), host, manager, acts) == Some(c) && CrashFree(acts)
    ensures NoneFailed(c)
    ensures RunTo(SystemOf(plan, levels, env), host, manager, acts + more) == Some(last) && CrashFree(more)
    ensures last.phase == Completed
    decreases |levels| - c.level
  {
    hide Prepared, RunTo, LevelsApart, Upstream, Framed, NoneFailed, CanFinish, CrashFree, Ready, JobOf, ActedBefore,
         Due;
    var sys := SystemOf(plan, levels, env);
    SystemIsFramed(plan, levels, env);
    forall j | 0 <= j < |c.records| && j < |levels| ensures CanFinish(sys, j, c.records[j]) {
      ChangedIsForetold(plan, env, topo, levels, host, manager, acts, c, j);
      LevelFinishesIffReady(plan, env, topo, levels, host, manager, acts, c, j);
    }
    NoFailures(sys, host, manager, acts, c);
    NotStuckMeansDone(sys, host, manager, acts, c);
    if c.phase == Completed {
      more, last := [], c;
      assert acts + [] == acts;
      NothingCrashes();
    } else {
      InLevelHasLevel(sys, host, manager, acts, c);
      var step, next := LevelCanAlwaysFinish(sys, host, manager, acts, c);
      CrashFreeConcat(acts, step);
      var rest;
      rest, last := ReadyPlanCompletes(plan, env, topo, levels, host, manager, acts + step, next);
      CrashFreeConcat(step, rest);
      more := step + rest;
      assert acts + step + rest == acts + more;
    }
  }

  /** And the other way round: whoever completes has found every task ready at the start. */
  lemma CompletedWasReady(plan: Plan, env: Env, topo: seq<seq<nat>>, levels: seq<Level>, host: Host, manager: Manager,
                          acts: seq<Action>, c: Config<Local, Manager>, j: nat, k: nat)
    requires Prepared(plan, env, topo, levels)
    requires LevelsApart(SystemOf(plan, levels, env)) && Upstream(SystemOf(plan, levels, env))
    requires RunTo(SystemOf(plan, levels, env), host, manager, acts) == Some(c)
    requires j < |levels| && j + 1 < |c.records| && k < |levels[j].tasks|
    ensures Ready(JobOf(plan, levels[j].tasks[k]), env.dryRun, Begin, host, c.records[j].changed)
  {
    hide Prepared, RunTo, LevelsApart, Upstream, Framed, CanFinish, Ready, JobOf, PastViews, NowInView, Inv;
    var sys := SystemOf(plan, levels, env);
    SystemIsFramed(plan, levels, env);
    ViewsAlways(sys, host, manager, acts);
    RecordsAndPast(sys, c);
    FinishedLevelsFinish(sys, c, j);
    LevelFinishesIffReady(plan, env, topo, levels, host, manager, acts, c, j);
  }

  /** Some run completes. */
  ghost predicate Completes(sys: System<Local, Manager>, host: Host, manager: Manager) {
    exists acts, c :: RunTo(sys, host, manager, acts) == Some(c) && c.phase == Completed
  }

  /** A plan goes through from a host, in an apply run or a dry run, if and only if each of its
      tasks is ready on that host, given what acts in the levels before it. */
  lemma CompletesIffReady(plan: Plan, env: Env, topo: seq<seq<nat>>, levels: seq<Level>, host: Host, manager: Manager)
    requires Prepared(plan, env, topo, levels)
    requires LevelsApart(SystemOf(plan, levels, env)) && Upstream(SystemOf(plan, levels, env))
    ensures Completes(SystemOf(plan, levels, env), host, manager) <==> PlanReady(plan, env, topo, levels, host)
  {
    hide Prepared, RunTo, LevelsApart, Upstream, Ready, JobOf, ActedBefore, Due, SystemOf;
    var sys := SystemOf(plan, levels, env);
    if PlanReady(plan, env, topo, levels, host) {
      StartsCrashFree(sys, host, manager);
      var more, last := ReadyPlanCompletes(plan, env, topo, levels, host, manager, [], Start(sys, host, manager));
    }
    if acts, c :| RunTo(sys, host, manager, acts) == Some(c) && c.phase == Completed {
      ShapeAlways(sys, host, manager, acts);
      LevelsOfSystem(plan, env, levels);
      forall j: nat, k: nat | j < |levels| && k < |levels[j].tasks|
        ensures Ready(JobOf(plan, levels[j].tasks[k]), env.dryRun, Begin, host,
                      ActedBefore(plan, env, Due(plan, env, host), topo, j))
      {
        CompletedWasReady(plan, env, topo, levels, host, manager, acts, c, j, k);
        ChangedIsForetold(plan, env, topo, levels, host, manager, acts, c, j);
      }
    }
  }

  lemma StartsCrashFree(sys: System<Local, Manager>, host: Host, manager: Manager)
    ensures RunTo(sys, host, manager, []) == Some(Start(sys, host, manager)) && CrashFree([])
  {
  }

  // ---------- readiness in the fields of the resource ----------

  /** Nothing above `path` is a file. */
  ghost predicate ClearAbove(path: string, h: Host) {
    forall i :: 0 < i < |path| && path[i] == '/' ==> FileAt(path[..i]) !in h
  }

  /** What a File task needs to find: nothing of the wrong kind at its path or above, nor at its temp
      path if it has to write one. */
  ghost predicate FileFits(path: string, content: string, dryRun: bool, h: Host) {
    && DirAt(path) !in h && ClearAbove(path, h)
    && (dryRun || DirAt(path + ".tmp.host-setup") !in h
        || (FileAt(path) in h && h[FileAt(path)].FileVal? && h[FileAt(path)].content == content))
  }

  lemma ClearMeansNoFile(path: string, h: Host)
    ensures AncestorIsFile(h, path) <==> !ClearAbove(path, h)
  {
    if !ClearAbove(path, h) {
      var i :| 0 < i < |path| && path[i] == '/' && FileAt(path[..i]) in h;
      assert path[..i] in Ancestors(path);
    }
  }

  /** So a task gets through from its start exactly if, by its resource: nothing is in the way of a
      file or a directory, and a command has a program to run that exits zero if it is to run. */
  lemma ReadyInFields(r: Resource, dryRun: bool, h: Host, changed: set<nat>)
    ensures Ready(Single(r), dryRun, Begin, h, changed) <==>
            match r
            case File(path, content, _, _, _) => FileFits(path, content, dryRun, h)
            case SystemdUnit(name, content) => FileFits("/etc/systemd/system/" + name, content, dryRun, h)
            case Directory(path, _, _, _) => FileAt(path) !in h && ClearAbove(path, h)
            case Service(_, _, _, _) => true
            case Command(argv, triggerOn, program) =>
              argv != [] && (|| dryRun || (program.act(map c | c in program.inputs && c in h :: h[c])).Some?
                             || (triggerOn.Some? && forall id :: id in triggerOn.value ==> id !in changed))
            case Marker => true
            case _ => false
  {
    hide Ancestors, ClearAbove, AncestorIsFile;
    match r
    case File(path, _, _, _, _) => ClearMeansNoFile(path, h);
    case SystemdUnit(name, _) => ClearMeansNoFile(UnitPath(name), h);
    case Directory(path, _, _, _) => ClearMeansNoFile(path, h);
    case Command(_, triggerOn, program) =>
      assert Restricted(h, program.inputs) == map c | c in program.inputs && c in h :: h[c];
    case _ =>
  }
}
