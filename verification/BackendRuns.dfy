/** The backends meet what the theorems about whole runs ask for: honest footprints,
    dry runs without effect that predict the apply run, verdicts that can be read off the
    host, and tasks that leave nothing to do but files whose wanted mode chown undoes. */
module BackendRuns {
  import opened HostModel
  import opened Run
  import opened RunReport
  import opened RunSchedule
  import opened RunModes
  import opened Backends

  // ---------- honest footprints ----------

  ghost predicate Alike(h1: Host, h2: Host, cells: set<Cell>) {
    forall c :: c in cells ==> Same(h1, h2, c)
  }

  ghost predicate Inside(p: Patch, writes: set<Cell>, makes: set<Cell>) {
    && (forall c :: c in p.put || c in p.del ==> c in writes)
    && (forall c :: c in p.make ==> c in makes)
  }

  ghost predicate MoveInside(move: Move<Local>, writes: set<Cell>, makes: set<Cell>) {
    !move.Fail? ==> Inside(move.patch, writes, makes)
  }

  lemma AncestorsAlike(h1: Host, h2: Host, path: string)
    requires Alike(h1, h2, set a | a in Ancestors(path) :: FileAt(a))
    ensures AncestorIsFile(h1, path) == AncestorIsFile(h2, path)
  {
    forall a | a in Ancestors(path) ensures FileAt(a) in h1 <==> FileAt(a) in h2 {
      assert Same(h1, h2, FileAt(a));
    }
  }

  lemma FileFramed(f: FileSpec, dryRun: bool, local: Local, h1: Host, h2: Host)
    requires Alike(h1, h2, FileSenses(f))
    ensures FileStep(f, dryRun, local, h1) == FileStep(f, dryRun, local, h2)
    ensures MoveInside(FileStep(f, dryRun, local, h1), FileWrites(f), AncestorDirs(f.path))
  {
    hide TmpPath, Ancestors;
    AncestorsAlike(h1, h2, f.path);
    assert Same(h1, h2, FileAt(f.path)) && Same(h1, h2, DirAt(f.path));
    assert Same(h1, h2, FileAt(TmpPath(f.path))) && Same(h1, h2, DirAt(TmpPath(f.path)));
  }

  lemma DirectoryFramed(r: Resource, dryRun: bool, local: Local, h1: Host, h2: Host)
    requires r.Directory? && Alike(h1, h2, DirectorySenses(r.path))
    ensures DirectoryStep(r, dryRun, local, h1) == DirectoryStep(r, dryRun, local, h2)
    ensures MoveInside(DirectoryStep(r, dryRun, local, h1), {DirAt(r.path)}, AncestorDirs(r.path))
  {
    hide Ancestors;
    AncestorsAlike(h1, h2, r.path);
    assert Same(h1, h2, FileAt(r.path)) && Same(h1, h2, DirAt(r.path));
  }

  lemma ServiceFramed(r: Resource, dryRun: bool, local: Local, h1: Host, h2: Host, changed: set<nat>)
    requires r.Service? && Alike(h1, h2, {Cell.Enabled(r.name), Active(r.name)})
    ensures ServiceMove(r, dryRun, local, h1, changed) == ServiceMove(r, dryRun, local, h2, changed)
    ensures MoveInside(ServiceMove(r, dryRun, local, h1, changed), {Cell.Enabled(r.name), Active(r.name)}, {})
  {
    assert Same(h1, h2, Cell.Enabled(r.name)) && Same(h1, h2, Active(r.name));
  }

  lemma CommandFramed(r: Resource, dryRun: bool, local: Local, h1: Host, h2: Host, changed: set<nat>)
    requires r.Command? && Alike(h1, h2, r.program.inputs)
    ensures CommandStep(r, dryRun, local, h1, changed) == CommandStep(r, dryRun, local, h2, changed)
    ensures MoveInside(CommandStep(r, dryRun, local, h1, changed), r.program.outputs, {})
  {
    var v1, v2 := Restricted(h1, r.program.inputs), Restricted(h2, r.program.inputs);
    forall c ensures c in v1 <==> c in v2 { assert c in r.program.inputs ==> Same(h1, h2, c); }
    forall c | c in v1 ensures v1[c] == v2[c] { assert Same(h1, h2, c); }
    assert v1 == v2;
  }

  lemma {:induction false} BatchAlike(names: seq<string>, h1: Host, h2: Host, installed: bool, a: Changed, b: Changed)
    requires Alike(h1, h2, set n | n in names :: Package(n))
    ensures Filter(names, h1, installed) == Filter(names, h2, installed)
    ensures BatchVerdicts(names, h1, a, b) == BatchVerdicts(names, h2, a, b)
  {
    if names != [] {
      assert Same(h1, h2, Package(names[0]));
      BatchAlike(names[1..], h1, h2, installed, a, b);
    }
  }

  lemma JobFramed(job: Job, env: Env, local: Local, h1: Host, h2: Host, changed: set<nat>)
    requires Alike(h1, h2, JobSenses(job))
    ensures JobStep(job, env, local, h1, changed) == JobStep(job, env, local, h2, changed)
    ensures MoveInside(JobStep(job, env, local, h1, changed), JobWrites(job, env.apt), JobMakes(job))
  {
    hide FileStep, DirectoryStep, ServiceMove, CommandStep, FileSenses, FileWrites, DirectorySenses, Packages,
         Ancestors;
    match job
    case Malformed =>
    case Install(names) => BatchAlike(names, h1, h2, false, No, Yes);
    case Remove(names) => BatchAlike(names, h1, h2, true, Yes, No);
    case Single(r) =>
      if IsFileLike(r) { FileFramed(Spec(r), env.dryRun, local, h1, h2); }
      if r.Directory? { DirectoryFramed(r, env.dryRun, local, h1, h2); }
      if r.Service? { ServiceFramed(r, env.dryRun, local, h1, h2, changed); }
      if r.Command? { CommandFramed(r, env.dryRun, local, h1, h2, changed); }
  }

  /** Every system built from a plan has honest footprints. */
  lemma SystemIsFramed(plan: Plan, levels: seq<Level>, env: Env)
    ensures Framed(SystemOf(plan, levels, env))
  {
    hide JobStep, JobSenses, JobWrites, JobMakes, JobOf, Hints;
    var sys := SystemOf(plan, levels, env);
    forall task, local, changed, h1: Host, h2: Host | Agree(h1, h2, sys.senses(task))
      ensures sys.step(task, local, h1, changed) == sys.step(task, local, h2, changed)
    {
      assert Alike(h1, h2, JobSenses(JobOf(plan, task)));
      JobFramed(JobOf(plan, task), env, local, h1, h2, changed);
    }
    forall task, local, changed, h: Host ensures Within(sys, task, sys.step(task, local, h, changed)) {
      JobFramed(JobOf(plan, task), env, local, h, h, changed);
    }
  }

  // ---------- dry runs ----------

  /** The local states in which a task has only sensed. */
  predicate Sensing(local: Local) {
    local.Begin? || local.FileSensed? || local.EnabledSensed?
  }

  lemma DryJobIsPure(job: Job, env: Env, local: Local, h: Host, changed: set<nat>, m: Manager)
    requires env.dryRun && Sensing(local)
    ensures PureMove(Sensing, JobStep(job, env, local, h, changed))
    ensures JobShadow(job, local, h, m) == m
  {
    hide Ancestors, TmpPath, Filter, BatchVerdicts;
    assert m.calls + [] == m.calls;
  }

  lemma DryRunIsPure(plan: Plan, levels: seq<Level>, env: Env)
    requires env.dryRun
    ensures Pure(SystemOf(plan, levels, env), Sensing)
  {
    hide JobStep, JobShadow, JobSenses, JobWrites, JobMakes, JobOf, Hints;
    var sys := SystemOf(plan, levels, env);
    forall task, local, h: Host, changed | Sensing(local) ensures PureMove(Sensing, sys.step(task, local, h, changed)) {
      DryJobIsPure(JobOf(plan, task), env, local, h, changed, Manager(map[], map[], []));
    }
    forall task, local, h: Host, m | Sensing(local) ensures sys.shadow(task, local, h, m) == m {
      DryJobIsPure(JobOf(plan, task), env, local, h, {}, m);
    }
  }

  /** The verdicts a task that has started to act is bound to report. */
  function Committed(local: Local): seq<Changed> {
    match local
    case AptUpdate(_, v) => v
    case AptInstall(_, v) => v
    case AptRemove(_, v) => v
    case _ => [Yes]
  }

  lemma ActingKeepsVerdict(job: Job, env: Env, local: Local, h: Host, changed: set<nat>)
    requires !Sensing(local)
    ensures match JobStep(job, env, local, h, changed)
            case Next(next, _) => !Sensing(next) && Committed(next) == Committed(local)
            case Finish(v, _) => v == Committed(local)
            case Fail => true
  {
    hide Ancestors, TmpPath, Filter, BatchVerdicts, Packages, FileStep, Apply;
    if job.Single? && IsFileLike(job.resource) { FileActing(Spec(job.resource), env.dryRun, local, h); }
  }

  lemma FileActing(f: FileSpec, dryRun: bool, local: Local, h: Host)
    requires !Sensing(local)
    ensures match FileStep(f, dryRun, local, h)
            case Next(next, _) => !Sensing(next) && Committed(next) == Committed(local)
            case Finish(v, _) => v == Committed(local)
            case Fail => true
  {
    hide Ancestors, TmpPath;
  }

  /** While sensing, a dry task does what the live one does, up to the first act. */
  lemma SensingIsTheSame(job: Job, dry: Env, live: Env, local: Local, h: Host, changed: set<nat>)
    requires dry == live.(dryRun := true) && !live.dryRun && Sensing(local)
    ensures var d, l := JobStep(job, dry, local, h, changed), JobStep(job, live, local, h, changed);
            if l.Next? && !Sensing(l.local) then l.patch == NOTHING && d == Finish(Committed(l.local), NOTHING)
            else d == l && (!l.Fail? ==> l.patch == NOTHING)
  {
    hide Ancestors, TmpPath, Filter, BatchVerdicts, Packages;
  }

  /** How a task stands alone in a dry run and in a live run after as many steps. */
  ghost predicate InStep(task: Task, host: Host, d: (TaskState<Local>, Host), l: (TaskState<Local>, Host)) {
    || (d == l && l.1 == host && l.0.Running? && Sensing(l.0.local))
    || (d.0 == l.0 && !l.0.Running?)
    || (l.0.Running? && !Sensing(l.0.local) && d.0 == Verdict(task, Committed(l.0.local)))
    || l.0.Failed?
  }

  function Verdict(task: Task, v: seq<Changed>): TaskState<Local> {
    After(task, Finish(v, NOTHING))
  }

  lemma {:induction false} StaysInStep(plan: Plan, levels: seq<Level>, dry: Env, live: Env, task: Task, host: Host,
                                       changed: set<nat>, n: nat)
    requires dry == live.(dryRun := true) && !live.dryRun
    ensures InStep(task, host, Alone(SystemOf(plan, levels, dry), task, host, changed, n),
                   Alone(SystemOf(plan, levels, live), task, host, changed, n))
    decreases n
  {
    hide JobStep, JobShadow, JobSenses, JobWrites, JobMakes, JobOf, Hints;
    if n > 0 {
      StaysInStep(plan, levels, dry, live, task, host, changed, n - 1);
      var l := Alone(SystemOf(plan, levels, live), task, host, changed, n - 1);
      var job := JobOf(plan, task);
      assert Apply(host, NOTHING) == host;
      if l.0.Running? {
        if Sensing(l.0.local) {
          SensingIsTheSame(job, dry, live, l.0.local, host, changed);
        } else {
          ActingKeepsVerdict(job, live, l.0.local, l.1, changed);
        }
      }
    }
  }

  /** What an apply run reports for a task, a dry run from the same host reports too. */
  lemma DryRunPredicts(plan: Plan, levels: seq<Level>, live: Env)
    requires !live.dryRun
    ensures Predicts(SystemOf(plan, levels, live.(dryRun := true)), SystemOf(plan, levels, live))
  {
    hide SystemOf, Alone;
    var d, l := SystemOf(plan, levels, live.(dryRun := true)), SystemOf(plan, levels, live);
    forall task, h: Host, changed, n: nat | Alone(l, task, h, changed, n).0.Finished?
      ensures Comes(d, task, h, changed, Alone(l, task, h, changed, n).0.verdicts)
    {
      StaysInStep(plan, levels, live.(dryRun := true), live, task, h, changed, n);
    }
  }

  // ---------- what a finished task leaves behind ----------

  predicate FileGoal(f: FileSpec, h: Host) {
    var v := FileOf(h, f.path);
    v.Some? && v.value.content == f.content && AttributesMatch(f, v.value)
  }

  /** The mode a file ends up with: chmod comes before chown, which may clear bits again. */
  function FinalMode(f: FileSpec): (m: Option<nat>) {
    if f.mode.Some? && HasOwner(f) then Some(ChownedMode(f.mode.value)) else f.mode
  }

  predicate ResultMatches(f: FileSpec, v: Val)
    requires v.FileVal?
  {
    Wants(FinalMode(f), v.mode) && Wants(f.uid, v.uid) && Wants(f.gid, v.gid)
  }

  /** What a converge that reports Yes leaves. */
  predicate FileResult(f: FileSpec, h: Host) {
    var v := FileOf(h, f.path);
    v.Some? && v.value.content == f.content && ResultMatches(f, v.value)
  }

  /** No bit of the wanted mode is one that the chown after the chmod clears. */
  predicate Attainable(f: FileSpec) {
    f.mode.Some? && HasOwner(f) ==>
      !HasBit(f.mode.value, SETUID) && !(HasBit(f.mode.value, SETGID) && HasBit(f.mode.value, GROUP_EXEC))
  }

  /** What is left is what was wanted exactly if the wanted mode is attainable. */
  lemma ResultIsGoalIff(f: FileSpec, h: Host)
    requires FileResult(f, h)
    ensures FileGoal(f, h) <==> Attainable(f)
  {
  }

  predicate DirectoryGoal(r: Resource, h: Host)
    requires r.Directory?
  {
    var v := DirOf(h, r.path);
    v.Some? && Wants(r.mode, v.value.dirMode) && Wants(r.uid, v.value.dirUid) && Wants(r.gid, v.value.dirGid)
  }

  predicate ServiceGoal(r: Resource, h: Host)
    requires r.Service?
  {
    (r.enabled ==> Cell.Enabled(r.name) in h) && (r.started ==> Active(r.name) in h)
  }

  /** Nothing is left to do, as far as a task senses its host. */
  ghost predicate Goal(job: Job, h: Host) {
    match job
    case Malformed => true
    case Install(names) => forall n :: n in names ==> Package(n) in h
    case Remove(names) => forall n :: n in names ==> Package(n) !in h
    case Single(r) =>
      && (IsFileLike(r) ==> FileGoal(Spec(r), h) || FileResult(Spec(r), h))
      && (r.Directory? ==> DirectoryGoal(r, h))
      && (r.Service? ==> ServiceGoal(r, h))
  }

  ghost predicate FileProgress(f: FileSpec, local: Local, h: Host) {
    var at, tmp := FileOf(h, f.path), FileOf(h, TmpPath(f.path));
    match local
    case FileSensed(current) => current == if at.Some? then Some(at.value.content) else None
    case FileParent(inPlace, _) => inPlace ==> at.Some? && at.value.content == f.content
    case InPlaceMode => at.Some? && at.value.content == f.content
    case InPlaceOwner => at.Some? && at.value.content == f.content && Wants(f.mode, at.value.mode)
    case TmpFill(n) => n <= |f.content| && (tmp.Some? ==> tmp.value.content == f.content[..n])
    case TmpMode => tmp.Some? ==> tmp.value.content == f.content
    case TmpOwner => tmp.Some? ==> tmp.value.content == f.content && Wants(f.mode, tmp.value.mode)
    case TmpRename => tmp.Some? ==> tmp.value.content == f.content && ResultMatches(f, tmp.value)
    case Reload => FileResult(f, h)
    case _ => true
  }

  lemma TempProgresses(f: FileSpec, local: Local, h: Host)
    requires FileProgress(f, local, h)
    requires local.TmpCreate? || local.TmpFill? || local.TmpMode? || local.TmpOwner? || local.TmpRename?
    ensures match FileStep(f, false, local, h)
            case Next(next, p) => FileProgress(f, next, Apply(h, p))
            case Finish(v, p) => if v == [No] then FileGoal(f, Apply(h, p))
                                 else v == [Yes] && FileResult(f, Apply(h, p))
            case Fail => true
  {
    hide Ancestors, TmpPath, AncestorIsFile, ParentAt, HasBit, ChownedMode;
    TmpDiffers(f.path);
    assert f.content[..|f.content|] == f.content;
  }

  lemma FileProgresses(f: FileSpec, local: Local, h: Host)
    requires FileProgress(f, local, h)
    ensures match FileStep(f, false, local, h)
            case Next(next, p) => FileProgress(f, next, Apply(h, p))
            case Finish(v, p) => if v == [No] then FileGoal(f, Apply(h, p))
                                 else v == [Yes] && FileResult(f, Apply(h, p))
            case Fail => true
  {
    hide Ancestors, TmpPath, AncestorIsFile, HasBit, ChownedMode;
    if local.TmpCreate? || local.TmpFill? || local.TmpMode? || local.TmpOwner? || local.TmpRename? {
      TempProgresses(f, local, h);
    } else {
      TmpDiffers(f.path);
    }
  }

  ghost predicate DirectoryProgress(r: Resource, local: Local, h: Host)
    requires r.Directory?
  {
    var v := DirOf(h, r.path);
    match local
    case DirMode => v.Some?
    case DirOwner => v.Some? && Wants(r.mode, v.value.dirMode)
    case _ => true
  }

  lemma DirectoryProgresses(r: Resource, local: Local, h: Host)
    requires r.Directory? && DirectoryProgress(r, local, h)
    ensures match DirectoryStep(r, false, local, h)
            case Next(next, p) => DirectoryProgress(r, next, Apply(h, p))
            case Finish(_, p) => DirectoryGoal(r, Apply(h, p))
            case Fail => true
  {
    hide Ancestors;
  }

  ghost predicate ServiceProgress(r: Resource, local: Local, h: Host)
    requires r.Service?
  {
    match local
    case EnabledSensed(e) => e == (Cell.Enabled(r.name) in h)
    case ServiceEnable(e, restart, start) =>
      (r.enabled ==> e || Cell.Enabled(r.name) in h) && (r.started ==> restart || start || Active(r.name) in h)
    case ServiceStart(restart, start) =>
      (r.enabled ==> Cell.Enabled(r.name) in h) && (r.started ==> restart || start || Active(r.name) in h)
    case _ => true
  }

  lemma ServiceProgresses(r: Resource, local: Local, h: Host, changed: set<nat>)
    requires r.Service? && ServiceProgress(r, local, h)
    ensures match ServiceMove(r, false, local, h, changed)
            case Next(next, p) => ServiceProgress(r, next, Apply(h, p))
            case Finish(_, p) => ServiceGoal(r, Apply(h, p))
            case Fail => true
  {
  }

  lemma {:induction false} FilterHas(names: seq<string>, h: Host, installed: bool)
    ensures forall n :: n in Filter(names, h, installed) <==> n in names && (Package(n) in h) == installed
  {
    if names != [] { FilterHas(names[1..], h, installed); }
  }

  /** Installing or removing a package includes the package itself. */
  ghost predicate Reflexive(apt: Apt) {
    (forall n :: n in apt.installs(n)) && (forall n :: n in apt.removes(n))
  }

  ghost predicate AptProgress(names: seq<string>, local: Local, h: Host) {
    match local
    case AptUpdate(todo, _) => forall n :: n in names ==> n in todo || Package(n) in h
    case AptInstall(todo, _) => forall n :: n in names ==> n in todo || Package(n) in h
    case AptRemove(todo, _) => forall n :: n in names ==> n in todo || Package(n) !in h
    case _ => true
  }

  lemma OwnPackage(names: seq<string>, closure: string -> set<string>, n: string)
    requires n in names && n in closure(n)
    ensures Package(n) in Packages(names, closure)
  {
  }

  lemma InstallProgresses(names: seq<string>, env: Env, local: Local, h: Host)
    requires Reflexive(env.apt) && !env.dryRun && AptProgress(names, local, h)
    ensures match AptStep(names, env, local, h)
            case Next(next, p) => AptProgress(names, next, Apply(h, p))
            case Finish(_, p) => Goal(Install(names), Apply(h, p))
            case Fail => true
  {
    hide BatchVerdicts, Packages, Filter;
    FilterHas(names, h, false);
    if local.AptInstall? {
      forall n | n in names && n in local.todo
        ensures Package(n) in Packages(local.todo, env.apt.installs) && Package(n) in Packages(names, env.apt.installs)
      {
        OwnPackage(names, env.apt.installs, n);
        OwnPackage(local.todo, env.apt.installs, n);
      }
    }
  }

  lemma RemoveProgresses(names: seq<string>, env: Env, local: Local, h: Host)
    requires Reflexive(env.apt) && !env.dryRun && AptProgress(names, local, h)
    ensures match AbsentStep(names, env, local, h)
            case Next(next, p) => AptProgress(names, next, Apply(h, p))
            case Finish(_, p) => Goal(Remove(names), Apply(h, p))
            case Fail => true
  {
    hide BatchVerdicts, Packages, Filter;
    FilterHas(names, h, true);
    if local.AptRemove? {
      forall n | n in names && n in local.todo
        ensures Package(n) in Packages(local.todo, env.apt.removes) && Package(n) in Packages(names, env.apt.removes)
      {
        OwnPackage(names, env.apt.removes, n);
        OwnPackage(local.todo, env.apt.removes, n);
      }
    }
  }

  ghost predicate Progress(job: Job, local: Local, h: Host) {
    match job
    case Malformed => true
    case Install(names) => AptProgress(names, local, h)
    case Remove(names) => AptProgress(names, local, h)
    case Single(r) =>
      && (IsFileLike(r) ==> FileProgress(Spec(r), local, h))
      && (r.Directory? ==> DirectoryProgress(r, local, h))
      && (r.Service? ==> ServiceProgress(r, local, h))
  }

  lemma JobProgresses(job: Job, env: Env, local: Local, h: Host, changed: set<nat>)
    requires Reflexive(env.apt) && !env.dryRun && Progress(job, local, h)
    ensures match JobStep(job, env, local, h, changed)
            case Next(next, p) => Progress(job, next, Apply(h, p))
            case Finish(v, p) =>
              && Goal(job, Apply(h, p))
              && (job.Single? && IsFileLike(job.resource) ==>
                    if v == [No] then FileGoal(Spec(job.resource), Apply(h, p))
                    else v == [Yes] && FileResult(Spec(job.resource), Apply(h, p)))
            case Fail => true
  {
    hide FileStep, DirectoryStep, ServiceMove, AptStep, AbsentStep, FileProgress, DirectoryProgress, ServiceProgress,
         AptProgress, FileGoal, FileResult, DirectoryGoal, ServiceGoal, Apply, Reflexive;
    match job
    case Malformed =>
    case Install(names) => InstallProgresses(names, env, local, h);
    case Remove(names) => RemoveProgresses(names, env, local, h);
    case Single(r) =>
      if IsFileLike(r) { FileProgresses(Spec(r), local, h); }
      if r.Directory? { DirectoryProgresses(r, local, h); }
      if r.Service? { ServiceProgresses(r, local, h, changed); }
  }

  /** A file task that reported No found its goal; one that reported Yes left its result. */
  predicate FileVerdictFits(job: Job, verdicts: seq<Changed>, h: Host) {
    job.Single? && IsFileLike(job.resource) ==>
      if verdicts == [No] then FileGoal(Spec(job.resource), h)
      else verdicts == [Yes] && FileResult(Spec(job.resource), h)
  }

  lemma {:induction false} FinishedMeansGoal(plan: Plan, levels: seq<Level>, env: Env, task: Task, host: Host,
                                             changed: set<nat>, n: nat)
    requires Reflexive(env.apt) && !env.dryRun
    ensures var (s, h) := Alone(SystemOf(plan, levels, env), task, host, changed, n);
            && (s.Running? ==> Progress(JobOf(plan, task), s.local, h))
            && (s.Finished? ==> Goal(JobOf(plan, task), h) && FileVerdictFits(JobOf(plan, task), s.verdicts, h))
    decreases n
  {
    hide JobStep, JobShadow, JobSenses, JobWrites, JobMakes, JobOf, Hints, Goal, Apply, Reflexive, FileGoal,
         FileResult, Spec;
    if n == 0 {
    } else {
      FinishedMeansGoal(plan, levels, env, task, host, changed, n - 1);
      var (s, h) := Alone(SystemOf(plan, levels, env), task, host, changed, n - 1);
      if s.Running? { JobProgresses(JobOf(plan, task), env, s.local, h, changed); }
    }
  }

  // ---------- what a task reports ----------

  /** What a converge sets out to mend; a command has no state of its own. */
  predicate NeedsWork(r: Resource, h: Host) {
    match r
    case File(_, _, _, _, _) => !FileGoal(Spec(r), h)
    case SystemdUnit(_, _) => !FileGoal(Spec(r), h)
    case Directory(_, _, _, _) => !DirectoryGoal(r, h)
    case Service(_, _, _, _) => !ServiceGoal(r, h)
    case AptPackage(name) => Package(name) !in h
    case AbsentAptPackage(name) => Package(name) in h
    case _ => false
  }

  /** A command without `trigger_on` always runs; a trigger list makes it, or a started
      service, act when one of the ids changed in this run. */
  predicate Retriggered(r: Resource, changed: set<nat>) {
    || (r.Command? && (r.triggerOn.None? || AnyChanged(changed, r.triggerOn.value)))
    || (r.Service? && r.started && AnyChanged(changed, r.restartOn))
  }

  /** The verdicts of a task that starts on this host with this change set, if it finishes. */
  function Verdicts(job: Job, h: Host, changed: set<nat>): seq<Changed> {
    match job
    case Install(names) => BatchVerdicts(names, h, No, Yes)
    case Remove(names) => BatchVerdicts(names, h, Yes, No)
    case Malformed => []
    case Single(r) => [if Retriggered(r, changed) || NeedsWork(r, h) then Yes else No]
  }

  /** What a task that only looks has seen of the host it started on. */
  predicate Seen(job: Job, local: Local, h0: Host) {
    match local
    case Begin => true
    case FileSensed(current) =>
      job.Single? && IsFileLike(job.resource) &&
      var at := FileOf(h0, Spec(job.resource).path); current == if at.Some? then Some(at.value.content) else None
    case EnabledSensed(isEnabled) => job.Single? && job.resource.Service?
      && isEnabled == (Cell.Enabled(job.resource.name) in h0)
    case _ => false
  }

  /** Where a task that started on `h0` is after some steps: still looking, or bound to its verdicts. */
  ghost predicate OnItsWay(job: Job, changed: set<nat>, h0: Host, local: Local, h: Host) {
    if Sensing(local) then h == h0 && Seen(job, local, h0) else Committed(local) == Verdicts(job, h0, changed)
  }

  ghost predicate MovesOn(job: Job, changed: set<nat>, h0: Host, h: Host, move: Move<Local>) {
    match move
    case Next(next, p) => OnItsWay(job, changed, h0, next, Apply(h, p))
    case Finish(v, p) => v == Verdicts(job, h0, changed)
    case Fail => true
  }

  lemma FileLooks(r: Resource, env: Env, changed: set<nat>, h0: Host, local: Local)
    requires IsFileLike(r) && Sensing(local) && Seen(Single(r), local, h0)
    ensures MovesOn(Single(r), changed, h0, h0, FileStep(Spec(r), env.dryRun, local, h0))
  {
    hide Ancestors, TmpPath, AncestorIsFile, ParentAt, Chowned, Spec;
    assert Apply(h0, NOTHING) == h0;
  }

  lemma DirectoryLooks(r: Resource, env: Env, changed: set<nat>, h0: Host, local: Local)
    requires r.Directory? && Sensing(local) && Seen(Single(r), local, h0)
    ensures MovesOn(Single(r), changed, h0, h0, DirectoryStep(r, env.dryRun, local, h0))
  {
    hide Ancestors, AncestorIsFile, ParentAt;
    assert Apply(h0, NOTHING) == h0;
  }

  lemma ServiceLooks(r: Resource, env: Env, changed: set<nat>, h0: Host, local: Local)
    requires r.Service? && Sensing(local) && Seen(Single(r), local, h0)
    ensures MovesOn(Single(r), changed, h0, h0, ServiceMove(r, env.dryRun, local, h0, changed))
  {
    hide AnyChanged;
    assert Apply(h0, NOTHING) == h0;
  }

  lemma InstallLooks(names: seq<string>, env: Env, changed: set<nat>, h0: Host)
    ensures MovesOn(Install(names), changed, h0, h0, AptStep(names, env, Begin, h0))
  {
    hide Packages, BatchVerdicts, Filter;
    assert Apply(h0, NOTHING) == h0;
  }

  lemma RemoveLooks(names: seq<string>, env: Env, changed: set<nat>, h0: Host)
    ensures MovesOn(Remove(names), changed, h0, h0, AbsentStep(names, env, Begin, h0))
  {
    hide Packages, BatchVerdicts, Filter;
    assert Apply(h0, NOTHING) == h0;
  }

  lemma StepsOn(job: Job, env: Env, changed: set<nat>, h0: Host, local: Local, h: Host)
    requires OnItsWay(job, changed, h0, local, h)
    ensures MovesOn(job, changed, h0, h, JobStep(job, env, local, h, changed))
  {
    hide Ancestors, TmpPath, FileStep, DirectoryStep, ServiceMove, FileGoal, AptStep, AbsentStep, BatchVerdicts,
         Verdicts, AncestorIsFile, ParentAt, Apply;
    if !Sensing(local) {
      ActingKeepsVerdict(job, env, local, h, changed);
    } else {
      match job
      case Malformed =>
      case Install(names) => if local.Begin? { InstallLooks(names, env, changed, h0); }
      case Remove(names) => if local.Begin? { RemoveLooks(names, env, changed, h0); }
      case Single(r) =>
        if IsFileLike(r) { FileLooks(r, env, changed, h0, local); }
        else if r.Directory? { DirectoryLooks(r, env, changed, h0, local); }
        else if r.Service? { ServiceLooks(r, env, changed, h0, local); }
        else if local.Begin? { OthersLook(r, env, changed, h0); }
    }
  }

  lemma OthersLook(r: Resource, env: Env, changed: set<nat>, h0: Host)
    requires !IsFileLike(r) && !r.Directory? && !r.Service?
    ensures MovesOn(Single(r), changed, h0, h0, JobStep(Single(r), env, Begin, h0, changed))
  {
    hide AnyChanged;
  }

  lemma StartsOnItsWay(job: Job, changed: set<nat>, host: Host)
    ensures OnItsWay(job, changed, host, Begin, host)
  {
  }

  lemma {:induction false} StaysOnItsWay(plan: Plan, levels: seq<Level>, env: Env, task: Task, host: Host,
                                         changed: set<nat>, n: nat)
    ensures var (s, h) := Alone(SystemOf(plan, levels, env), task, host, changed, n);
            && (s.Running? ==> OnItsWay(JobOf(plan, task), changed, host, s.local, h))
            && (s.Finished? ==> s.verdicts == Verdicts(JobOf(plan, task), host, changed))
    decreases n
  {
    hide JobStep, JobShadow, JobSenses, JobWrites, JobMakes, JobOf, Hints, Apply, Verdicts, OnItsWay;
    if n > 0 {
      StaysOnItsWay(plan, levels, env, task, host, changed, n - 1);
      var (s, h) := Alone(SystemOf(plan, levels, env), task, host, changed, n - 1);
      if s.Running? { StepsOn(JobOf(plan, task), env, changed, host, s.local, h); }
    } else {
      StartsOnItsWay(JobOf(plan, task), changed, host);
    }
  }

  ghost function VerdictsOf(plan: Plan): (Task, Host, set<nat>) -> seq<Changed> {
    (task, h, changed) => Verdicts(JobOf(plan, task), h, changed)
  }

  /** Apply run or dry run: what a task reports is read off the host it starts on. */
  lemma VerdictsAreForetold(plan: Plan, levels: seq<Level>, env: Env)
    ensures Foretells(SystemOf(plan, levels, env), VerdictsOf(plan))
  {
    hide Alone, JobStep, JobShadow, JobSenses, JobWrites, JobMakes, JobOf, Hints, Verdicts;
    forall task, h: Host, changed, n: nat | Alone(SystemOf(plan, levels, env), task, h, changed, n).0.Finished?
      ensures Alone(SystemOf(plan, levels, env), task, h, changed, n).0.verdicts
              == Verdicts(JobOf(plan, task), h, changed)
    {
      StaysOnItsWay(plan, levels, env, task, h, changed, n);
    }
  }

  // ---------- what is left to do ----------

  lemma NeedsWorkAlike(r: Resource, h1: Host, h2: Host)
    requires Alike(h1, h2, match r case AptPackage(name) => {Package(name)}
                                   case AbsentAptPackage(name) => {Package(name)}
                                   case _ => JobSenses(Single(r)))
    ensures NeedsWork(r, h1) == NeedsWork(r, h2)
  {
    hide Ancestors;
    if IsFileLike(r) { assert Same(h1, h2, FileAt(Spec(r).path)); }
    if r.Directory? { assert Same(h1, h2, DirAt(r.path)); }
    if r.Service? { assert Same(h1, h2, Cell.Enabled(r.name)) && Same(h1, h2, Active(r.name)); }
    if r.AptPackage? || r.AbsentAptPackage? { assert Same(h1, h2, Package(r.name)); }
  }
}
