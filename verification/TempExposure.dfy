/** The temp file of a File or SystemdUnit resource gets its content before its mode
    (`write_full`, then chmod, in src/backends/file.rs): exactly when content stands at the temp
    path with a mode other than the wanted one, and that a crash there leaves it so. */
module TempExposure {
  import opened HostModel
  import opened Run
  import opened RunReport
  import opened RunSchedule
  import opened RunViews
  import opened Backends
  import opened BackendRuns

  /** Content stands at the temp path, with a mode that is not the wanted one. */
  predicate Exposed(f: FileSpec, h: Host) {
    var v := FileOf(h, TmpPath(f.path));
    v.Some? && v.value.content != "" && !Wants(f.mode, v.value.mode)
  }

  /** What the temp file is before it is filled: left over from an earlier run, or new. */
  function TempBefore(f: FileSpec, h0: Host): (v: Val)
    ensures v.FileVal?
  {
    if FileOf(h0, TmpPath(f.path)).Some? then FileOf(h0, TmpPath(f.path)).value else FRESH_FILE
  }

  /** The temp file by the state of its task, which started on `h0`. */
  ghost predicate TempAt(f: FileSpec, h0: Host, local: Local, h: Host) {
    var at, before := FileOf(h, TmpPath(f.path)), TempBefore(f, h0);
    match local
    case TmpFill(n) =>
      n <= |f.content| && at.Some? && at.value.content == f.content[..n] && at.value.mode == before.mode
    case TmpMode => at.Some? && at.value.content == f.content && at.value.mode == before.mode
    case TmpOwner => at.Some? && at.value.content == f.content && at.value.mode == Or(f.mode, before.mode)
    case TmpRename =>
      at.Some? && at.value.content == f.content
      && at.value.mode == if HasOwner(f) then ChownedMode(Or(f.mode, before.mode)) else Or(f.mode, before.mode)
    case Reload => at.None? || at == FileOf(h0, TmpPath(f.path))
    case _ => at == FileOf(h0, TmpPath(f.path))
  }

  ghost predicate TempMoves(f: FileSpec, h0: Host, local: Local, h: Host) {
    var move := FileStep(f, false, local, h);
    && (move.Next? ==> TempAt(f, h0, move.local, HostAfter(h, move)))
    && (move.Finish? ==> TempOver(f, h0, HostAfter(h, move)))
    && (move.Fail? ==> HostAfter(h, move) == h)
  }

  predicate OnTemp(local: Local) {
    local.TmpCreate? || local.TmpFill? || local.TmpMode? || local.TmpOwner? || local.TmpRename?
  }

  /** Creating and filling the temp file. */
  lemma TempGrows(f: FileSpec, h0: Host, local: Local, h: Host)
    requires TempAt(f, h0, local, h) && (local.TmpCreate? || local.TmpFill?)
    ensures TempMoves(f, h0, local, h)
  {
    hide Ancestors, TmpPath, AncestorIsFile, ChownedMode, ParentAt, Chowned, TempOver, HasOwner;
    assert f.content[..|f.content|] == f.content;
    assert Apply(h, NOTHING) == h;
  }

  /** Its mode, its owner, and the rename. */
  lemma TempIsDressed(f: FileSpec, h0: Host, local: Local, h: Host)
    requires TempAt(f, h0, local, h) && (local.TmpMode? || local.TmpOwner? || local.TmpRename?)
    ensures TempMoves(f, h0, local, h)
  {
    hide Ancestors, TmpPath, AncestorIsFile, ChownedMode, ParentAt;
    TmpDiffers(f.path);
  }

  lemma TempFills(f: FileSpec, h0: Host, local: Local, h: Host)
    requires TempAt(f, h0, local, h) && OnTemp(local)
    ensures TempMoves(f, h0, local, h)
  {
    hide TempAt, TempMoves;
    if local.TmpCreate? || local.TmpFill? { TempGrows(f, h0, local, h); } else { TempIsDressed(f, h0, local, h); }
  }

  lemma TempWaits(f: FileSpec, h0: Host, local: Local, h: Host)
    requires TempAt(f, h0, local, h) && !OnTemp(local) && !local.FileParent?
    ensures TempMoves(f, h0, local, h)
  {
    hide Ancestors, TmpPath, AncestorIsFile, ChownedMode, ParentAt;
    TmpDiffers(f.path);
    assert Apply(h, NOTHING) == h;
  }

  lemma TempSteps(f: FileSpec, h0: Host, local: Local, h: Host)
    requires TempAt(f, h0, local, h)
    ensures TempMoves(f, h0, local, h)
  {
    hide Ancestors, TmpPath, AncestorIsFile, ChownedMode, ParentAt, Chowned;
    if OnTemp(local) { TempFills(f, h0, local, h); }
    else if local.FileParent? { ParentKeepsTemp(f.path, local.depth, h); }
    else { TempWaits(f, h0, local, h); }
  }

  lemma ParentKeepsTemp(path: string, depth: nat, h: Host)
    ensures FileOf(Apply(h, Patch(map[], {}, ParentAt(path, depth))), TmpPath(path)) == FileOf(h, TmpPath(path))
  {
  }

  /** A finished task has renamed its temp file away, or has never touched it. */
  ghost predicate TempOver(f: FileSpec, h0: Host, h: Host) {
    FileOf(h, TmpPath(f.path)).None? || FileOf(h, TmpPath(f.path)) == FileOf(h0, TmpPath(f.path))
  }

  ghost predicate TempInState(f: FileSpec, h0: Host, s: TaskState<Local>, h: Host) {
    match s
    case Running(local) => TempAt(f, h0, local, h)
    case Finished(_) => TempOver(f, h0, h)
    case Failed => exists local :: TempAt(f, h0, local, h)
    case _ => false
  }

  lemma {:induction false} TempAlone(plan: Plan, levels: seq<Level>, env: Env, task: Task, host: Host,
                                     changed: set<nat>, n: nat)
    requires !env.dryRun && |task.ids| == 1 && JobOf(plan, task).Single? && IsFileLike(JobOf(plan, task).resource)
    ensures var (s, h) := Alone(SystemOf(plan, levels, env), task, host, changed, n);
            TempInState(Spec(JobOf(plan, task).resource), host, s, h)
    decreases n
  {
    hide FileStep, JobShadow, JobSenses, JobWrites, JobMakes, JobOf, Hints, TempAt, TempOver, Apply, Spec, SystemOf;
    var f, r := Spec(JobOf(plan, task).resource), JobOf(plan, task).resource;
    if n == 0 {
      StartsAsBefore(plan, levels, env, task, host, changed);
    } else {
      TempAlone(plan, levels, env, task, host, changed, n - 1);
      var (s, h) := Alone(SystemOf(plan, levels, env), task, host, changed, n - 1);
      if s.Running? {
        TempSteps(f, host, s.local, h);
        FileJobSteps(plan, levels, env, task, s.local, h, changed);
        AloneNext(SystemOf(plan, levels, env), task, host, changed, n - 1);
        assert SystemOf(plan, levels, env).step(task, s.local, h, changed) == FileStep(f, false, s.local, h);
        if FileStep(f, false, s.local, h).Fail? { assert TempAt(f, host, s.local, h); }
        OneVerdict(f, s.local, h);
      }
    }
  }

  lemma OneVerdict(f: FileSpec, local: Local, h: Host)
    ensures var move := FileStep(f, false, local, h); move.Finish? ==> |move.verdicts| == 1
  {
    hide Ancestors, TmpPath, AncestorIsFile, ChownedMode, ParentAt;
  }

  lemma StartsAsBefore(plan: Plan, levels: seq<Level>, env: Env, task: Task, host: Host, changed: set<nat>)
    ensures Alone(SystemOf(plan, levels, env), task, host, changed, 0) == (Running(Begin), host)
    ensures forall f :: TempAt(f, host, Begin, host)
  {
  }

  lemma FileJobSteps(plan: Plan, levels: seq<Level>, env: Env, task: Task, local: Local, h: Host, changed: set<nat>)
    requires JobOf(plan, task).Single? && IsFileLike(JobOf(plan, task).resource)
    ensures SystemOf(plan, levels, env).step(task, local, h, changed)
            == FileStep(Spec(JobOf(plan, task).resource), env.dryRun, local, h)
  {
    hide JobOf, FileStep;
  }

  /** The states in which content goes to the temp file before its mode does. */
  predicate Filling(f: FileSpec, local: Local) {
    (local.TmpFill? && local.written > 0) || (local.TmpMode? && f.content != "")
  }

  /** Exactly when content is exposed, by the state of the task: while it is written and until the
      chmod, if a mode is wanted that the temp file did not have to begin with; from the chown to the
      rename, if that takes bits of the mode away; and before, or where the temp file is never
      touched, if it was exposed to begin with. */
  lemma ExposedIff(f: FileSpec, h0: Host, local: Local, h: Host)
    requires TempAt(f, h0, local, h) && !local.Reload?
    ensures Exposed(f, h) <==>
            (match local
             case TmpFill(_) => Filling(f, local) && !Wants(f.mode, TempBefore(f, h0).mode)
             case TmpMode => Filling(f, local) && !Wants(f.mode, TempBefore(f, h0).mode)
             case TmpOwner => false
             case TmpRename => f.content != "" && !Attainable(f)
             case _ => Exposed(f, h0))
  {
    hide TmpPath;
    if local.TmpRename? { ChownTakesIff(f); }
  }

  lemma ChownTakesIff(f: FileSpec)
    ensures Attainable(f) <==> Wants(f.mode, if HasOwner(f) && f.mode.Some? then ChownedMode(f.mode.value)
                                             else Or(f.mode, 0))
  {
  }

  // ---------- in a run ----------

  /** The level under way, one of its tasks, and how it would stand alone. */
  ghost predicate FileInLevel(plan: Plan, levels: seq<Level>, env: Env, c: Config<Local, Manager>, k: nat) {
    && c.level < |levels| && k < |levels[c.level].tasks| && |c.records| == c.level + 1
    && |c.states| == |c.taken| == |levels[c.level].tasks|
    && var task := levels[c.level].tasks[k];
       |task.ids| == 1 && JobOf(plan, task).Single? && IsFileLike(JobOf(plan, task).resource)
       && Private(SystemOf(plan, levels, env), levels[c.level].tasks, k)
  }

  /** In any run the temp file is as the steps taken so far leave it, whether the task still runs,
      has failed, or was hit by a crash. */
  lemma TempInRun(plan: Plan, levels: seq<Level>, env: Env, host: Host, manager: Manager, acts: seq<Action>,
                  c: Config<Local, Manager>, k: nat)
    requires RunTo(SystemOf(plan, levels, env), host, manager, acts) == Some(c) && FileInLevel(plan, levels, env, c, k)
    ensures var rec, task := c.records[c.level], levels[c.level].tasks[k];
            var (s, h) := Alone(SystemOf(plan, levels, env), task, rec.host, rec.changed, c.taken[k]);
            var f := Spec(JobOf(plan, task).resource);
            && FileOf(c.host, TmpPath(f.path)) == FileOf(h, TmpPath(f.path))
            && (c.states[k].Running? ==> s == c.states[k])
  {
    hide Inv, PastViews, Kept, Private, Alone, JobStep, JobShadow, JobWrites, JobMakes, JobOf, Hints, Ancestors,
         TmpPath;
    var sys := SystemOf(plan, levels, env);
    SystemIsFramed(plan, levels, env);
    ViewsAlways(sys, host, manager, acts);
    ShapeAlways(sys, host, manager, acts);
    var rec, task := c.records[c.level], levels[c.level].tasks[k];
    var (s, h) := Alone(sys, task, rec.host, rec.changed, c.taken[k]);
    assert RunViews.View(sys, task, c.states[k], rec, c.taken[k], c.host);
    var f := Spec(JobOf(plan, task).resource);
    SensesTemp(JobOf(plan, task).resource);
    assert Same(c.host, h, FileAt(TmpPath(f.path)));
  }

  lemma SensesTemp(r: Resource)
    requires IsFileLike(r)
    ensures FileAt(TmpPath(Spec(r).path)) in JobSenses(Single(r))
  {
    hide Ancestors, TmpPath;
  }

  /** While the task of a file runs, content is exposed exactly as its state says. */
  lemma ExposedInRunIff(plan: Plan, levels: seq<Level>, env: Env, host: Host, manager: Manager, acts: seq<Action>,
                        c: Config<Local, Manager>, k: nat)
    requires RunTo(SystemOf(plan, levels, env), host, manager, acts) == Some(c) && FileInLevel(plan, levels, env, c, k)
    requires !env.dryRun && c.states[k].Running?
    requires Filling(Spec(JobOf(plan, levels[c.level].tasks[k]).resource), c.states[k].local)
    ensures var f := Spec(JobOf(plan, levels[c.level].tasks[k]).resource);
            Exposed(f, c.host) <==> !Wants(f.mode, TempBefore(f, c.records[c.level].host).mode)
  {
    hide RunTo, SystemOf, JobOf, Private, Alone, TempAt, Spec, TmpPath, TempBefore;
    var rec, task := c.records[c.level], levels[c.level].tasks[k];
    var f := Spec(JobOf(plan, task).resource);
    TempInRun(plan, levels, env, host, manager, acts, c, k);
    TempAlone(plan, levels, env, task, rec.host, rec.changed, c.taken[k]);
    ExposedIff(f, rec.host, c.states[k].local, Alone(SystemOf(plan, levels, env), task, rec.host, rec.changed,
                                                     c.taken[k]).1);
  }

  // ---------- after a crash ----------

  /** A failed task takes no step any more, and its level never ends. */
  lemma {:induction false} FailedStays(plan: Plan, levels: seq<Level>, env: Env, host: Host, manager: Manager,
                                       acts: seq<Action>, more: seq<Action>, c: Config<Local, Manager>,
                                       last: Config<Local, Manager>, k: nat)
    requires RunTo(SystemOf(plan, levels, env), host, manager, acts) == Some(c) && k < |c.states| && c.states[k].Failed?
    requires RunTo(SystemOf(plan, levels, env), host, manager, acts + more) == Some(last) && c.level < |levels|
    ensures last.level == c.level && last.records == c.records && |last.states| == |c.states| && last.states[k].Failed?
    ensures |last.taken| == |c.taken| == |c.states| && last.taken[k] == c.taken[k]
    decreases |more|
  {
    hide Do, Allowed, SystemOf;
    LevelsOfSystemAre(plan, levels, env);
    ShapeAlways(SystemOf(plan, levels, env), host, manager, acts);
    if more == [] {
      assert acts + more == acts;
    } else {
      var init, a := more[..|more| - 1], more[|more| - 1];
      assert (acts + more)[..|acts + more| - 1] == acts + init && (acts + more)[|acts + more| - 1] == a;
      var mid := RunTo(SystemOf(plan, levels, env), host, manager, acts + init).value;
      FailedStays(plan, levels, env, host, manager, acts, init, c, mid, k);
      ActionKeepsFailed(SystemOf(plan, levels, env), mid, a, k);
    }
  }

  lemma LevelsOfSystemAre(plan: Plan, levels: seq<Level>, env: Env)
    ensures SystemOf(plan, levels, env).levels == levels
  {
  }

  lemma ActionKeepsFailed<L, M>(sys: System<L, M>, c: Config<L, M>, a: Action, k: nat)
    requires Allowed(sys, c, a) && k < |c.states| == |c.taken| && c.states[k].Failed?
    ensures var c' := Do(sys, c, a);
            && c'.level == c.level && c'.records == c.records && |c'.states| == |c'.taken| == |c.states|
            && c'.states[k].Failed? && c'.taken[k] == c.taken[k]
  {
    hide Apply, Outcomes, SkippedOutcomes, YesIds;
  }

  /** Content that is exposed when its task crashes stays exposed to the end of the run, which the
      error aborts. */
  lemma CrashLeavesExposed(plan: Plan, levels: seq<Level>, env: Env, host: Host, manager: Manager, acts: seq<Action>,
                           more: seq<Action>, c: Config<Local, Manager>, last: Config<Local, Manager>, k: nat)
    requires RunTo(SystemOf(plan, levels, env), host, manager, acts) == Some(c) && FileInLevel(plan, levels, env, c, k)
    requires c.states[k].Running?
    requires RunTo(SystemOf(plan, levels, env), host, manager, acts + [Crash(k)] + more) == Some(last)
    ensures var f := Spec(JobOf(plan, levels[c.level].tasks[k]).resource);
            Exposed(f, last.host) <==> Exposed(f, c.host)
    ensures last.phase != Completed
  {
    hide RunTo, SystemOf, JobOf, Private, Alone, Spec, TmpPath;
    LevelsOfSystemAre(plan, levels, env);
    ShapeAlways(SystemOf(plan, levels, env), host, manager, acts + [Crash(k)] + more);
    var c' := AfterCrash(plan, levels, env, host, manager, acts, more, c, k);
    FailedStays(plan, levels, env, host, manager, acts + [Crash(k)], more, c', last, k);
    TempInRun(plan, levels, env, host, manager, acts, c, k);
    TempInRun(plan, levels, env, host, manager, acts + [Crash(k)] + more, last, k);
  }

  lemma {:induction false} PrefixRuns<L, M>(sys: System<L, M>, host: Host, manager: M, acts: seq<Action>,
                                            more: seq<Action>)
    requires RunTo(sys, host, manager, acts + more).Some?
    ensures RunTo(sys, host, manager, acts).Some?
    decreases |more|
  {
    hide Do, Allowed;
    if more == [] {
      assert acts + more == acts;
    } else {
      assert (acts + more)[..|acts + more| - 1] == acts + more[..|more| - 1];
      PrefixRuns(sys, host, manager, acts, more[..|more| - 1]);
    }
  }

  lemma AfterCrash(plan: Plan, levels: seq<Level>, env: Env, host: Host, manager: Manager, acts: seq<Action>,
                   more: seq<Action>, c: Config<Local, Manager>, k: nat) returns (c': Config<Local, Manager>)
    requires RunTo(SystemOf(plan, levels, env), host, manager, acts) == Some(c) && k < |c.states|
    requires c.states[k].Running?
    requires RunTo(SystemOf(plan, levels, env), host, manager, acts + [Crash(k)] + more).Some?
    ensures RunTo(SystemOf(plan, levels, env), host, manager, acts + [Crash(k)]) == Some(c')
    ensures c' == c.(states := c.states[k := Failed])
  {
    hide SystemOf;
    PrefixRuns(SystemOf(plan, levels, env), host, manager, acts + [Crash(k)], more);
    assert (acts + [Crash(k)])[..|acts + [Crash(k)]| - 1] == acts;
    c' := RunTo(SystemOf(plan, levels, env), host, manager, acts + [Crash(k)]).value;
  }
}
