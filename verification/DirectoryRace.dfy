/** Directory resources on a path and on its descendants in one level, as the users
    bundle registers them: `create_dir_all` of the inner one races with stat, mkdir,
    chmod and chown of the outer one. The directories still come out the same in
    every interleaving, next to files and units that make the directories above
    them; the verdicts do when the wanted attributes differ from those of a freshly
    made directory, and only then. */
module DirectoryRace {
  import opened HostModel
  import opened Run
  import opened RunReport
  import opened RunSchedule
  import opened Backends
  import opened BackendRuns
  import opened RunViews

  ghost predicate TypedDirs(h: Host) {
    forall p :: DirAt(p) in h ==> h[DirAt(p)].DirVal?
  }

  predicate IsDirTask(plan: Plan, t: Task) {
    JobOf(plan, t).Single? && JobOf(plan, t).resource.Directory? && |t.ids| == 1
  }

  function DirResource(plan: Plan, t: Task): Resource
    requires IsDirTask(plan, t)
    ensures DirResource(plan, t).Directory?
  {
    JobOf(plan, t).resource
  }

  /** It writes no directory; it may make those above a file of its own. */
  ghost predicate WritesNoDirs(plan: Plan, env: Env, t: Task) {
    forall p :: DirAt(p) !in JobWrites(JobOf(plan, t), env.apt)
  }

  /** Directory tasks with distinct paths, nested or not, next to tasks that write no directory. */
  ghost predicate DirLevel(plan: Plan, env: Env, tasks: seq<Task>) {
    && (forall k :: 0 <= k < |tasks| ==> IsDirTask(plan, tasks[k]) || WritesNoDirs(plan, env, tasks[k]))
    && (forall k, m :: 0 <= k < |tasks| && 0 <= m < |tasks| && k != m && IsDirTask(plan, tasks[k])
                       && IsDirTask(plan, tasks[m]) ==>
          DirResource(plan, tasks[k]).path != DirResource(plan, tasks[m]).path)
  }

  /** A file or unit task, which makes the directories above its target if it writes it. */
  predicate IsFileTask(plan: Plan, t: Task) {
    JobOf(plan, t).Single? && IsFileLike(JobOf(plan, t).resource)
  }

  function Target(plan: Plan, t: Task): string
    requires IsFileTask(plan, t)
  {
    Spec(JobOf(plan, t).resource).path
  }

  // ---------- what a directory comes to ----------

  /** The directory before its attributes are set: as it was, or freshly made. */
  function Base(h0: Host, path: string): (v: Val)
    ensures v.DirVal?
  {
    if DirOf(h0, path).Some? then DirOf(h0, path).value else FRESH_DIR
  }

  function WithMode(r: Resource, v: Val): (w: Val)
    requires r.Directory? && v.DirVal?
    ensures w.DirVal?
  {
    v.(dirMode := Or(r.mode, v.dirMode))
  }

  function Wanted(r: Resource, v: Val): (w: Val)
    requires r.Directory? && v.DirVal?
    ensures w.DirVal?
  {
    var m := WithMode(r, v);
    m.(dirUid := Or(r.uid, v.dirUid), dirGid := Or(r.gid, v.dirGid))
  }

  /** The wanted attributes are not those mkdir gives: another task's mkdir cannot hide the drift. */
  predicate DiffersFromFresh(r: Resource)
    requires r.Directory?
  {
    Wanted(r, FRESH_DIR) != FRESH_DIR
  }

  ghost predicate VerdictFits(r: Resource, h0: Host, verdicts: seq<Changed>)
    requires r.Directory?
  {
    if DirOf(h0, r.path).Some? then verdicts == [if Wanted(r, Base(h0, r.path)) != Base(h0, r.path) then Yes else No]
    else verdicts == [Yes] || (verdicts == [No] && !DiffersFromFresh(r))
  }

  /** The directories above `path` that end before `depth` are there. */
  ghost predicate Climbed(path: string, depth: nat, h: Host) {
    forall a :: a in Ancestors(path) && |a| < depth ==> DirAt(a) in h
  }

  /** Where a directory stands, by the state of its task. */
  ghost predicate TaskDir(r: Resource, state: TaskState<Local>, h0: Host, h: Host)
    requires r.Directory?
  {
    var was, now, base := DirOf(h0, r.path), DirOf(h, r.path), Base(h0, r.path);
    var untouched := now == was || (was.None? && now == Some(FRESH_DIR));
    var drifted := was.Some? ==> Wanted(r, base) != base;
    match state
    case Waiting => untouched
    case Running(Begin) => untouched
    case Running(DirMake(depth)) => untouched && was.None? && Climbed(r.path, depth, h)
    case Running(DirMode) => now == Some(base) && drifted
    case Running(DirOwner) => now == Some(WithMode(r, base)) && drifted
    case Running(_) => false
    case Finished(v) => now == Some(Wanted(r, base)) && VerdictFits(r, h0, v)
    case Joined(v) => now == Some(Wanted(r, base)) && VerdictFits(r, h0, v)
    case _ => true
  }

  predicate Appears(h: Host, h': Host, x: string) { DirAt(x) !in h && DirAt(x) in h' }

  /** A directory is only made where everything above it is there. */
  ghost predicate Supported(x: string, h: Host) { forall a :: a in Ancestors(x) ==> DirAt(a) in h }

  /** What one step does to the directories: nothing disappears, only the task's own
      directory changes, and a new one comes freshly made below what is there, by a task
      whose directory was not there when the level started. */
  ghost predicate DirEffect(path: string, h0: Host, h: Host, h': Host) {
    && TypedDirs(h')
    && (forall x :: DirAt(x) in h ==> DirAt(x) in h' && (x != path ==> h'[DirAt(x)] == h[DirAt(x)]))
    && (forall x :: Appears(h, h', x) ==>
          && DirOf(h0, path).None? && Supported(x, h')
          && (x == path || (x in Ancestors(path) && h'[DirAt(x)] == FRESH_DIR)))
  }

  /** Making the next parent. */
  lemma NextParent(path: string, depth: nat, h: Host)
    requires Climbed(path, depth, h) && TypedDirs(h)
    ensures var h' := Apply(h, Patch(map[], {}, ParentAt(path, depth)));
            && TypedDirs(h') && (forall x :: DirAt(x) in h ==> Same(h, h', DirAt(x)))
            && (forall x :: Appears(h, h', x) ==> x in Ancestors(path) && h'[DirAt(x)] == FRESH_DIR && Supported(x, h'))
            && Climbed(path, depth + 1, h')
  {
    hide Ancestors;
    var h' := Apply(h, Patch(map[], {}, ParentAt(path, depth)));
    ParentEndsHere(path, depth);
    forall x | Appears(h, h', x) ensures x in Ancestors(path) && h'[DirAt(x)] == FRESH_DIR && Supported(x, h') {
      assert DirAt(x) in ParentAt(path, depth);
      AncestorsNest(x, path);
      ShorterAbove(x);
    }
  }

  lemma ParentEndsHere(path: string, depth: nat)
    ensures forall x :: DirAt(x) in ParentAt(path, depth) ==> x in Ancestors(path) && |x| == depth
    ensures forall a :: a in Ancestors(path) && |a| == depth ==> DirAt(a) in ParentAt(path, depth)
  {
  }

  lemma ShorterAbove(x: string)
    ensures forall a :: a in Ancestors(x) ==> |a| < |x|
  {
  }

  /** A step of `create_dir_all`. */
  lemma DirMakes(r: Resource, depth: nat, h0: Host, h: Host)
    requires r.Directory? && TypedDirs(h) && TypedDirs(h0) && TaskDir(r, Running(DirMake(depth)), h0, h)
    ensures var move := DirectoryStep(r, false, DirMake(depth), h);
            DirEffect(r.path, h0, h, HostAfter(h, move))
              && (move.Next? ==> TaskDir(r, Running(move.local), h0, HostAfter(h, move)))
  {
    hide Ancestors, AncestorIsFile, Supported, ParentAt, Apply, Climbed;
    if depth < |r.path| {
      ParentMakes(r, depth, h0, h);
    } else {
      OwnDirMakes(r, depth, h0, h);
    }
  }

  lemma ParentMakes(r: Resource, depth: nat, h0: Host, h: Host)
    requires r.Directory? && TypedDirs(h) && TaskDir(r, Running(DirMake(depth)), h0, h) && depth < |r.path|
    ensures var h' := Apply(h, Patch(map[], {}, ParentAt(r.path, depth)));
            DirEffect(r.path, h0, h, h') && TaskDir(r, Running(DirMake(depth + 1)), h0, h')
  {
    hide Ancestors, Supported, ParentAt, Apply, Climbed;
    var h' := Apply(h, Patch(map[], {}, ParentAt(r.path, depth)));
    NextParent(r.path, depth, h);
    OwnPathIsNoAncestor(r.path);
    if DirAt(r.path) in h { assert Same(h, h', DirAt(r.path)); }
    forall x | DirAt(x) in h ensures h'[DirAt(x)] == h[DirAt(x)] { assert Same(h, h', DirAt(x)); }
    var path := r.path;
    assert DirAt(path) in h' ==> DirAt(path) in h || Appears(h, h', path);
  }

  lemma OwnDirMakes(r: Resource, depth: nat, h0: Host, h: Host)
    requires r.Directory? && TypedDirs(h) && TaskDir(r, Running(DirMake(depth)), h0, h) && depth >= |r.path|
    ensures var h' := Apply(h, if DirOf(h, r.path).None? then Put(DirAt(r.path), FRESH_DIR) else NOTHING);
            DirEffect(r.path, h0, h, h') && TaskDir(r, Running(DirMode), h0, h')
  {
    hide Ancestors;
    assert Apply(h, NOTHING) == h;
    ShorterAbove(r.path);
  }

  /** Any other step writes at most the task's own directory. */
  lemma DirBegins(r: Resource, task: Task, local: Local, h0: Host, h: Host)
    requires r.Directory? && TypedDirs(h) && TypedDirs(h0) && |task.ids| == 1 && local.Begin?
    requires TaskDir(r, Running(local), h0, h)
    ensures var move := DirectoryStep(r, false, local, h);
            DirEffect(r.path, h0, h, HostAfter(h, move)) && TaskDir(r, After(task, move), h0, HostAfter(h, move))
  {
    hide Ancestors, AncestorIsFile, ParentAt, Supported;
    assert Apply(h, NOTHING) == h;
    NothingAbove(r.path, h);
  }

  lemma DirAdjusts(r: Resource, task: Task, local: Local, h0: Host, h: Host)
    requires r.Directory? && TypedDirs(h) && TypedDirs(h0) && |task.ids| == 1 && !local.DirMake? && !local.Begin?
    requires TaskDir(r, Running(local), h0, h)
    ensures var move := DirectoryStep(r, false, local, h);
            DirEffect(r.path, h0, h, HostAfter(h, move)) && TaskDir(r, After(task, move), h0, HostAfter(h, move))
  {
    hide Ancestors, AncestorIsFile, ParentAt, Supported, Climbed;
    assert Apply(h, NOTHING) == h;
  }

  lemma NothingAbove(path: string, h: Host)
    ensures Climbed(path, 0, h)
  {
  }

  lemma DirStep(r: Resource, task: Task, local: Local, h0: Host, h: Host)
    requires r.Directory? && TypedDirs(h) && TypedDirs(h0) && |task.ids| == 1
    requires TaskDir(r, Running(local), h0, h)
    ensures var move := DirectoryStep(r, false, local, h);
            DirEffect(r.path, h0, h, HostAfter(h, move)) && TaskDir(r, After(task, move), h0, HostAfter(h, move))
  {
    hide DirEffect, TypedDirs, Ancestors, AncestorIsFile, ParentAt, Apply, Climbed;
    if local.DirMake? { DirMakes(r, local.depth, h0, h); }
    else if local.Begin? { DirBegins(r, task, local, h0, h); }
    else { DirAdjusts(r, task, local, h0, h); }
  }

  /** The target's parents are there for good. */
  predicate HasMade(state: TaskState<Local>) {
    match state
    case Running(local) => !Sensing(local) && !local.FileParent?
    case Finished(v) => v == [Yes]
    case Joined(v) => v == [Yes]
    case _ => false
  }

  predicate MayHaveMade(state: TaskState<Local>) {
    HasMade(state) || (state.Running? && state.local.FileParent?) || state.Failed? || state.Cut?
  }

  /** A file task reports No if it made nothing. */
  predicate FileTaskState(state: TaskState<Local>) {
    (state.Finished? || state.Joined?) ==> state.verdicts == [No] || state.verdicts == [Yes]
  }

  /** What one step of a file task does to the directories: nothing disappears or changes, and
      a new one comes freshly made, above the target and below what is there. */
  ghost predicate ParentsEffect(path: string, h: Host, h': Host) {
    && TypedDirs(h')
    && (forall x :: DirAt(x) in h ==> Same(h, h', DirAt(x)))
    && (forall x :: Appears(h, h', x) ==> x in Ancestors(path) && h'[DirAt(x)] == FRESH_DIR && Supported(x, h'))
  }

  /** The parents of a file that has been written are there, and on the way to it those passed. */
  ghost predicate Parented(path: string, state: TaskState<Local>, h: Host) {
    && FileTaskState(state) && (HasMade(state) ==> Climbed(path, |path|, h))
    && (state.Running? && state.local.FileParent? ==> Climbed(path, state.local.depth, h))
  }

  /** Only one kind of step makes directories, and only past that is the task past its parents. */
  lemma FileTaskMoves(f: FileSpec, task: Task, local: Local, h: Host)
    ensures var move := FileStep(f, false, local, h);
            var state := After(task, move);
            && FileTaskState(state) && (move.Fail? ==> state == Failed)
               && (MayHaveMade(Running(local)) ==> MayHaveMade(state))
            && (if local.FileParent? && local.depth < |f.path| then
                  move.Fail? || move == Next(FileParent(local.inPlace, local.depth + 1),
                                             Patch(map[], {}, ParentAt(f.path, local.depth)))
                else
                  && (move.Fail? || move.patch.make == {})
                  && (HasMade(state) ==> HasMade(Running(local)) || local.FileParent?)
                  && (state.Running? && state.local.FileParent? ==> state.local.depth == 0))
  {
    hide ParentAt, TmpPath, AncestorIsFile, Chowned;
  }

  /** The state after a file task's step, and how far its parents are there. */
  lemma FileTaskSteps(f: FileSpec, task: Task, local: Local, h: Host)
    requires TypedDirs(h) && Parented(f.path, Running(local), h)
    ensures var move := FileStep(f, false, local, h);
            var (state, h') := (After(task, move), HostAfter(h, move));
            && ParentsEffect(f.path, h, h') && Parented(f.path, state, h')
            && (forall x :: Appears(h, h', x) ==> MayHaveMade(state))
            && (MayHaveMade(Running(local)) ==> MayHaveMade(state))
  {
    hide Ancestors, FileStep, FileTaskState, ParentAt, Supported, Climbed, Apply;
    var move := FileStep(f, false, local, h);
    var h' := HostAfter(h, move);
    FileTaskMoves(f, task, local, h);
    if local.FileParent? && local.depth < |f.path| {
      NextParent(f.path, local.depth, h);
    } else {
      FileKeepsDirs(f, local, h);
      SameDirsSameClimb(f.path, h, h');
      NothingAbove(f.path, h');
      if local.FileParent? { FurtherUp(f.path, local.depth, h); }
    }
  }

  lemma FileKeepsDirs(f: FileSpec, local: Local, h: Host)
    requires var move := FileStep(f, false, local, h); move.Fail? || move.patch.make == {}
    ensures forall x :: Same(h, HostAfter(h, FileStep(f, false, local, h)), DirAt(x))
  {
    hide FileStep, Ancestors;
    FileFramed(f, false, local, h, h);
  }

  lemma SameDirsSameClimb(path: string, h: Host, h': Host)
    requires (forall x :: Same(h, h', DirAt(x))) && TypedDirs(h)
    ensures TypedDirs(h') && forall depth: nat :: Climbed(path, depth, h) ==> Climbed(path, depth, h')
    ensures forall x :: !Appears(h, h', x)
  {
    hide Ancestors;
    forall x | DirAt(x) in h' ensures h'[DirAt(x)].DirVal? { assert Same(h, h', DirAt(x)); }
    forall x ensures !Appears(h, h', x) && (DirAt(x) in h ==> DirAt(x) in h') { assert Same(h, h', DirAt(x)); }
  }

  lemma FurtherUp(path: string, depth: nat, h: Host)
    requires Climbed(path, depth, h) && depth >= |path|
    ensures Climbed(path, |path|, h)
  {
    hide Ancestors;
  }

  lemma OwnPathIsNoAncestor(path: string)
    ensures path !in Ancestors(path)
  {
  }

  lemma AncestorsNest(p: string, q: string)
    requires p in Ancestors(q)
    ensures Ancestors(p) <= Ancestors(q)
  {
    forall a | a in Ancestors(p) ensures a in Ancestors(q) {
      var i :| 0 < i < |p| && p[i] == '/' && a == p[..i];
      var j :| 0 < j < |q| && q[j] == '/' && p == q[..j];
      assert q[..i] == a && q[i] == '/';
    }
  }

  // ---------- the whole level ----------

  /** Some directory task of the level was to create its path, `x` lies above it. */
  ghost predicate MadeOnTheWay(plan: Plan, tasks: seq<Task>, h0: Host, x: string) {
    exists k :: 0 <= k < |tasks| && IsDirTask(plan, tasks[k]) && DirOf(h0, DirResource(plan, tasks[k]).path).None?
                && x in Ancestors(DirResource(plan, tasks[k]).path)
  }

  predicate Managed(plan: Plan, tasks: seq<Task>, x: string) {
    exists k :: 0 <= k < |tasks| && IsDirTask(plan, tasks[k]) && DirResource(plan, tasks[k]).path == x
  }

  /** A file task that may have made its parents, `x` among them. */
  ghost predicate MadeForFile(plan: Plan, tasks: seq<Task>, states: seq<TaskState<Local>>, x: string)
    requires |states| == |tasks|
  {
    exists k :: 0 <= k < |tasks| && IsFileTask(plan, tasks[k]) && MayHaveMade(states[k])
                && x in Ancestors(Target(plan, tasks[k]))
  }

  /** A directory no task manages is as it was, or freshly made on the way to another or to a file. */
  ghost predicate Bystander(plan: Plan, tasks: seq<Task>, states: seq<TaskState<Local>>, h0: Host, h: Host, x: string)
    requires |states| == |tasks|
  {
    if DirAt(x) in h0 then Same(h0, h, DirAt(x))
    else DirAt(x) in h ==> h[DirAt(x)] == FRESH_DIR
                           && (MadeOnTheWay(plan, tasks, h0, x) || MadeForFile(plan, tasks, states, x))
  }

  /** Once the directory of a task is there, so is everything above it. */
  ghost predicate Grounded(r: Resource, h0: Host, h: Host)
    requires r.Directory?
  {
    DirOf(h0, r.path).None? && DirAt(r.path) in h ==> Supported(r.path, h)
  }

  ghost predicate DirsInv(plan: Plan, tasks: seq<Task>, states: seq<TaskState<Local>>, h0: Host, h: Host) {
    && |states| == |tasks| && TypedDirs(h0) && TypedDirs(h)
    && (forall k :: 0 <= k < |tasks| && IsDirTask(plan, tasks[k]) ==>
          TaskDir(DirResource(plan, tasks[k]), states[k], h0, h) && Grounded(DirResource(plan, tasks[k]), h0, h))
    && (forall k :: 0 <= k < |tasks| && IsFileTask(plan, tasks[k]) ==> Parented(Target(plan, tasks[k]), states[k], h))
    && (forall x :: !Managed(plan, tasks, x) ==> Bystander(plan, tasks, states, h0, h, x))
  }

  /** Directories only get more. */
  ghost predicate OnlyMore(h: Host, h': Host) { forall x :: DirAt(x) in h ==> DirAt(x) in h' }

  lemma MoreSupport(path: string, h: Host, h': Host)
    requires OnlyMore(h, h')
    ensures Supported(path, h) ==> Supported(path, h')
    ensures forall depth: nat :: Climbed(path, depth, h) ==> Climbed(path, depth, h')
  {
    hide Ancestors;
  }

  /** Another task's step seen from a directory task. */
  lemma OtherDirKeeps(r: Resource, state: TaskState<Local>, path: string, h0: Host, h: Host, h': Host)
    requires r.Directory? && r.path != path && DirEffect(path, h0, h, h') && TypedDirs(h0) && TypedDirs(h)
    requires TaskDir(r, state, h0, h) && Grounded(r, h0, h)
    ensures TaskDir(r, state, h0, h') && Grounded(r, h0, h')
  {
    hide Ancestors, Supported, Climbed;
    MoreSupport(r.path, h, h');
    assert DirAt(r.path) in h' ==> DirAt(r.path) in h || Appears(h, h', r.path);
  }

  lemma OwnDirGrounded(r: Resource, h0: Host, h: Host, h': Host)
    requires r.Directory? && DirEffect(r.path, h0, h, h') && Grounded(r, h0, h)
    ensures Grounded(r, h0, h')
  {
    hide Ancestors, Supported;
    MoreSupport(r.path, h, h');
    if DirAt(r.path) in h' && DirAt(r.path) !in h { assert Appears(h, h', r.path); }
  }

  lemma ParentsStay(path: string, state: TaskState<Local>, h: Host, h': Host)
    requires Parented(path, state, h) && OnlyMore(h, h')
    ensures Parented(path, state, h')
  {
    hide Ancestors, Climbed;
    MoreSupport(path, h, h');
  }

  /** A directory task's step seen from a directory no task manages. */
  lemma BystanderOfDir(plan: Plan, tasks: seq<Task>, states: seq<TaskState<Local>>, h0: Host, h: Host, h': Host, k: nat,
                       s: TaskState<Local>, x: string)
    requires |states| == |tasks| && k < |tasks| && IsDirTask(plan, tasks[k]) && !Managed(plan, tasks, x)
    requires DirEffect(DirResource(plan, tasks[k]).path, h0, h, h') && Bystander(plan, tasks, states, h0, h, x)
    ensures Bystander(plan, tasks, states[k := s], h0, h', x)
  {
    hide JobOf, Ancestors, HasMade;
    assert x != DirResource(plan, tasks[k]).path;
    if Appears(h, h', x) {
      assert MadeOnTheWay(plan, tasks, h0, x);
    } else if MadeForFile(plan, tasks, states, x) {
      FileTaskIsNoDirTask(plan, tasks[k]);
      var m :| 0 <= m < |tasks| && IsFileTask(plan, tasks[m]) && MayHaveMade(states[m])
        && x in Ancestors(Target(plan, tasks[m]));
      assert m != k && states[k := s][m] == states[m];
    }
  }

  lemma FileTaskIsNoDirTask(plan: Plan, t: Task)
    ensures !(IsFileTask(plan, t) && IsDirTask(plan, t))
  {
    hide JobOf;
  }

  lemma DirTaskSteps(plan: Plan, env: Env, tasks: seq<Task>, states: seq<TaskState<Local>>, h0: Host, h: Host, k: nat,
                     changed: set<nat>)
    requires DirLevel(plan, env, tasks) && DirsInv(plan, tasks, states, h0, h) && !env.dryRun
    requires k < |tasks| && IsDirTask(plan, tasks[k]) && states[k].Running?
    ensures var move := JobStep(JobOf(plan, tasks[k]), env, states[k].local, h, changed);
            DirsInv(plan, tasks, states[k := After(tasks[k], move)], h0, HostAfter(h, move))
  {
    hide TaskDir, DirectoryStep, JobOf, Ancestors, TypedDirs, Grounded, Apply, Bystander, Managed, Parented;
    var r := DirResource(plan, tasks[k]);
    var move := DirectoryStep(r, false, states[k].local, h);
    var h' := HostAfter(h, move);
    RunningIsLocal(states[k]);
    DirStep(r, tasks[k], states[k].local, h0, h);
    OwnDirGrounded(r, h0, h, h');
    forall m | 0 <= m < |tasks| && m != k && IsDirTask(plan, tasks[m])
      ensures TaskDir(DirResource(plan, tasks[m]), states[m], h0, h') && Grounded(DirResource(plan, tasks[m]), h0, h')
    {
      OtherDirKeeps(DirResource(plan, tasks[m]), states[m], r.path, h0, h, h');
    }
    FileTaskIsNoDirTask(plan, tasks[k]);
    forall m | 0 <= m < |tasks| && IsFileTask(plan, tasks[m]) ensures Parented(Target(plan, tasks[m]), states[m], h') {
      ParentsStay(Target(plan, tasks[m]), states[m], h, h');
    }
    forall x | !Managed(plan, tasks, x) ensures Bystander(plan, tasks, states[k := After(tasks[k], move)], h0, h', x) {
      BystanderOfDir(plan, tasks, states, h0, h, h', k, After(tasks[k], move), x);
    }
  }

  lemma RunningIsLocal(state: TaskState<Local>)
    requires state.Running?
    ensures state == Running(state.local)
  {
  }

  /** A file task's step seen from a directory task. */
  lemma FileStepKeepsDir(r: Resource, state: TaskState<Local>, path: string, h0: Host, h: Host, h': Host)
    requires r.Directory? && ParentsEffect(path, h, h') && TypedDirs(h0) && TypedDirs(h)
    requires TaskDir(r, state, h0, h) && Grounded(r, h0, h)
    ensures TaskDir(r, state, h0, h') && Grounded(r, h0, h')
  {
    hide Ancestors, Supported, Climbed;
    forall x | DirAt(x) in h ensures DirAt(x) in h' { assert Same(h, h', DirAt(x)); }
    MoreSupport(r.path, h, h');
    assert DirAt(r.path) in h' ==> DirAt(r.path) in h || Appears(h, h', r.path);
    if DirAt(r.path) in h { assert Same(h, h', DirAt(r.path)); }
  }

  lemma BystanderOfFile(plan: Plan, tasks: seq<Task>, states: seq<TaskState<Local>>, h0: Host, h: Host, h': Host,
                        k: nat, s: TaskState<Local>, x: string)
    requires |states| == |tasks| && k < |tasks| && IsFileTask(plan, tasks[k])
    requires ParentsEffect(Target(plan, tasks[k]), h, h')
    requires (MayHaveMade(states[k]) ==> MayHaveMade(s)) && (Appears(h, h', x) ==> MayHaveMade(s))
    requires Bystander(plan, tasks, states, h0, h, x)
    ensures Bystander(plan, tasks, states[k := s], h0, h', x)
  {
    hide JobOf, Ancestors, HasMade, MadeOnTheWay, MayHaveMade;
    var states' := states[k := s];
    if Appears(h, h', x) {
      assert states'[k] == s && x in Ancestors(Target(plan, tasks[k]));
      assert MadeForFile(plan, tasks, states', x);
    } else {
      if DirAt(x) in h { assert Same(h, h', DirAt(x)); }
      if MadeForFile(plan, tasks, states, x) {
        var m :| 0 <= m < |tasks| && IsFileTask(plan, tasks[m]) && MayHaveMade(states[m])
          && x in Ancestors(Target(plan, tasks[m]));
        assert MayHaveMade(states'[m]);
      }
    }
  }

  lemma FileTaskStepsInLevel(plan: Plan, env: Env, tasks: seq<Task>, states: seq<TaskState<Local>>, h0: Host, h: Host,
                             k: nat, changed: set<nat>)
    requires DirsInv(plan, tasks, states, h0, h) && !env.dryRun
    requires k < |tasks| && IsFileTask(plan, tasks[k]) && states[k].Running?
    ensures var move := JobStep(JobOf(plan, tasks[k]), env, states[k].local, h, changed);
            DirsInv(plan, tasks, states[k := After(tasks[k], move)], h0, HostAfter(h, move))
  {
    hide TaskDir, FileStep, JobOf, Ancestors, TypedDirs, Grounded, Apply, Bystander, Managed, MayHaveMade, Parented;
    var f := Spec(JobOf(plan, tasks[k]).resource);
    var move := FileStep(f, false, states[k].local, h);
    var h', s := HostAfter(h, move), After(tasks[k], move);
    RunningIsLocal(states[k]);
    FileTaskSteps(f, tasks[k], states[k].local, h);
    FileTaskIsNoDirTask(plan, tasks[k]);
    forall m | 0 <= m < |tasks| && IsDirTask(plan, tasks[m])
      ensures TaskDir(DirResource(plan, tasks[m]), states[m], h0, h') && Grounded(DirResource(plan, tasks[m]), h0, h')
    {
      FileStepKeepsDir(DirResource(plan, tasks[m]), states[m], f.path, h0, h, h');
    }
    forall m | 0 <= m < |tasks| && m != k && IsFileTask(plan, tasks[m])
      ensures Parented(Target(plan, tasks[m]), states[m], h') {
      forall x | DirAt(x) in h ensures DirAt(x) in h' { assert Same(h, h', DirAt(x)); }
      ParentsStay(Target(plan, tasks[m]), states[m], h, h');
    }
    forall x | !Managed(plan, tasks, x) ensures Bystander(plan, tasks, states[k := s], h0, h', x) {
      BystanderOfFile(plan, tasks, states, h0, h, h', k, s, x);
    }
  }

  /** Any other task leaves the directories alone. */
  lemma OtherTaskSteps(plan: Plan, env: Env, tasks: seq<Task>, states: seq<TaskState<Local>>, h0: Host, h: Host,
                       k: nat, changed: set<nat>)
    requires DirLevel(plan, env, tasks) && DirsInv(plan, tasks, states, h0, h) && |states| == |tasks|
    requires k < |tasks| && !IsDirTask(plan, tasks[k]) && !IsFileTask(plan, tasks[k]) && states[k].Running?
    ensures var move := JobStep(JobOf(plan, tasks[k]), env, states[k].local, h, changed);
            DirsInv(plan, tasks, states[k := After(tasks[k], move)], h0, HostAfter(h, move))
  {
    hide JobStep, JobWrites, JobMakes, JobSenses, JobOf, Ancestors, IsDirTask, IsFileTask, DirsInv;
    var move := JobStep(JobOf(plan, tasks[k]), env, states[k].local, h, changed);
    var h' := HostAfter(h, move);
    JobFramed(JobOf(plan, tasks[k]), env, states[k].local, h, h, changed);
    assert WritesNoDirs(plan, env, tasks[k]);
    OnlyFilesMake(plan, env, tasks[k]);
    forall x ensures Same(h, h', DirAt(x)) {}
    SameDirsSameInv(plan, tasks, states, h0, h, h');
    BystanderTaskMoves(plan, tasks, states, h0, h', k, After(tasks[k], move));
  }

  lemma OnlyFilesMake(plan: Plan, env: Env, t: Task)
    requires !IsFileTask(plan, t) && WritesNoDirs(plan, env, t)
    ensures JobMakes(JobOf(plan, t)) == {}
  {
    hide JobOf;
    DirectoriesAreWritten(JobOf(plan, t), env.apt);
  }

  lemma DirectoriesAreWritten(job: Job, apt: Apt)
    ensures job.Single? && job.resource.Directory? ==> DirAt(job.resource.path) in JobWrites(job, apt)
  {
  }

  lemma BystanderTaskMoves(plan: Plan, tasks: seq<Task>, states: seq<TaskState<Local>>, h0: Host, h: Host, k: nat,
                           s: TaskState<Local>)
    requires DirsInv(plan, tasks, states, h0, h) && k < |tasks| && !IsDirTask(plan, tasks[k])
    requires !IsFileTask(plan, tasks[k])
    ensures DirsInv(plan, tasks, states[k := s], h0, h)
  {
    hide JobOf, Ancestors, IsDirTask, IsFileTask, MadeOnTheWay, Managed, MayHaveMade, Grounded, Parented, TaskDir;
    forall x | !Managed(plan, tasks, x) ensures Bystander(plan, tasks, states[k := s], h0, h, x) {
      assert Bystander(plan, tasks, states, h0, h, x);
      MadeStays(plan, tasks, states, k, s, x);
    }
  }

  lemma MadeStays(plan: Plan, tasks: seq<Task>, states: seq<TaskState<Local>>, k: nat, s: TaskState<Local>, x: string)
    requires |states| == |tasks| && k < |tasks|
    requires (IsFileTask(plan, tasks[k]) && MayHaveMade(states[k]) ==> MayHaveMade(s))
    ensures MadeForFile(plan, tasks, states, x) ==> MadeForFile(plan, tasks, states[k := s], x)
  {
    hide IsFileTask, MayHaveMade, Ancestors;
    if MadeForFile(plan, tasks, states, x) {
      var m :| 0 <= m < |tasks| && IsFileTask(plan, tasks[m]) && MayHaveMade(states[m])
        && x in Ancestors(Target(plan, tasks[m]));
      assert MayHaveMade(states[k := s][m]);
    }
  }

  lemma SameDirsSameInv(plan: Plan, tasks: seq<Task>, states: seq<TaskState<Local>>, h0: Host, h: Host, h': Host)
    requires DirsInv(plan, tasks, states, h0, h) && forall x :: Same(h, h', DirAt(x))
    ensures DirsInv(plan, tasks, states, h0, h')
  {
    hide JobOf, Ancestors, IsDirTask, IsFileTask, MadeOnTheWay, MadeForFile;
    forall x | !Managed(plan, tasks, x) ensures Bystander(plan, tasks, states, h0, h', x) {
      assert Bystander(plan, tasks, states, h0, h, x) && Same(h, h', DirAt(x));
    }
    forall k | 0 <= k < |tasks| && IsDirTask(plan, tasks[k])
      ensures TaskDir(DirResource(plan, tasks[k]), states[k], h0, h') && Grounded(DirResource(plan, tasks[k]), h0, h')
    {
      assert Same(h, h', DirAt(DirResource(plan, tasks[k]).path));
      forall x | DirAt(x) in h ensures DirAt(x) in h' { assert Same(h, h', DirAt(x)); }
    }
    forall k | 0 <= k < |tasks| && IsFileTask(plan, tasks[k]) ensures Parented(Target(plan, tasks[k]), states[k], h') {
      forall x | DirAt(x) in h ensures DirAt(x) in h' { assert Same(h, h', DirAt(x)); }
    }
    forall p | DirAt(p) in h' ensures h'[DirAt(p)].DirVal? { assert Same(h, h', DirAt(p)); }
  }

  // ---------- every reachable configuration ----------

  ghost predicate LevelDirsInv(plan: Plan, env: Env, levels: seq<Level>, c: Config<Local, Manager>) {
    c.level < |levels| && |c.records| == c.level + 1 && DirLevel(plan, env, levels[c.level].tasks)
      && TypedDirs(c.records[c.level].host) ==>
      DirsInv(plan, levels[c.level].tasks, c.states, c.records[c.level].host, c.host)
  }

  lemma StepKeepsDirs(plan: Plan, env: Env, levels: seq<Level>, c: Config<Local, Manager>, k: nat)
    requires LevelDirsInv(plan, env, levels, c) && !env.dryRun
    requires Allowed(SystemOf(plan, levels, env), c, Step(k))
    ensures LevelDirsInv(plan, env, levels, Do(SystemOf(plan, levels, env), c, Step(k)))
  {
    hide JobStep, JobShadow, JobSenses, JobWrites, JobMakes, JobOf, Hints, DirsInv, DirLevel, TypedDirs, IsDirTask,
         IsFileTask, Apply;
    var tasks, h0 := levels[c.level].tasks, c.records[c.level].host;
    if DirLevel(plan, env, tasks) && TypedDirs(h0) {
      if IsDirTask(plan, tasks[k]) { DirTaskSteps(plan, env, tasks, c.states, h0, c.host, k, c.changed); }
      else if IsFileTask(plan, tasks[k]) { FileTaskStepsInLevel(plan, env, tasks, c.states, h0, c.host, k, c.changed); }
      else { OtherTaskSteps(plan, env, tasks, c.states, h0, c.host, k, c.changed); }
    }
  }

  lemma StateChangeKeepsDirs(plan: Plan, tasks: seq<Task>, states: seq<TaskState<Local>>, h0: Host, h: Host, k: nat,
                             s: TaskState<Local>)
    requires DirsInv(plan, tasks, states, h0, h) && k < |states|
    requires s.Failed? || s.Cut? || (states[k].Waiting? && s == Running(Begin))
             || (states[k].Finished? && s == Joined(states[k].verdicts))
             || s == states[k]
    ensures DirsInv(plan, tasks, states[k := s], h0, h)
  {
    hide JobOf, Ancestors, IsDirTask, IsFileTask, Managed, MadeOnTheWay, MadeForFile, Grounded;
    forall x | !Managed(plan, tasks, x) ensures Bystander(plan, tasks, states[k := s], h0, h, x) {
      assert Bystander(plan, tasks, states, h0, h, x);
      MadeStays(plan, tasks, states, k, s, x);
    }
  }

  lemma LevelStartsDirs(plan: Plan, tasks: seq<Task>, states: seq<TaskState<Local>>, h: Host)
    requires |states| == |tasks| && (forall k :: 0 <= k < |states| ==> states[k].Waiting?) && TypedDirs(h)
    ensures DirsInv(plan, tasks, states, h, h)
  {
    hide JobOf, Ancestors, IsDirTask, IsFileTask;
  }

  lemma OthersKeepDirs(plan: Plan, env: Env, levels: seq<Level>, c: Config<Local, Manager>, a: Action)
    requires LevelDirsInv(plan, env, levels, c) && !a.Step?
    requires Allowed(SystemOf(plan, levels, env), c, a)
    ensures LevelDirsInv(plan, env, levels, Do(SystemOf(plan, levels, env), c, a))
  {
    hide JobStep, JobShadow, JobSenses, JobWrites, JobMakes, JobOf, Hints, DirsInv, DirLevel, TypedDirs, YesIds,
         Outcomes, SkippedOutcomes;
    var c' := Do(SystemOf(plan, levels, env), c, a);
    if c'.level < |levels| && DirLevel(plan, env, levels[c'.level].tasks) && TypedDirs(c'.records[c'.level].host) {
      if a.EndLevel? {
        LevelStartsDirs(plan, levels[c'.level].tasks, c'.states, c'.host);
      } else {
        StateChangeKeepsDirs(plan, levels[c.level].tasks, c.states, c.records[c.level].host, c.host, a.k,
                             c'.states[a.k]);
        assert c'.states == c.states[a.k := c'.states[a.k]];
      }
    }
  }

  lemma {:induction false} DirsAlways(plan: Plan, env: Env, levels: seq<Level>, host: Host, manager: Manager,
                                      acts: seq<Action>, c: Config<Local, Manager>)
    requires !env.dryRun && RunTo(SystemOf(plan, levels, env), host, manager, acts) == Some(c)
    ensures LevelDirsInv(plan, env, levels, c)
    decreases |acts|
  {
    hide Do, Allowed, DirLevel, DirsInv, TypedDirs;
    if acts == [] {
      if |levels| > 0 && TypedDirs(host) { LevelStartsDirs(plan, levels[0].tasks, c.states, host); }
    } else {
      var before := RunTo(SystemOf(plan, levels, env), host, manager, acts[..|acts| - 1]).value;
      DirsAlways(plan, env, levels, host, manager, acts[..|acts| - 1], before);
      var a := acts[|acts| - 1];
      if a.Step? { StepKeepsDirs(plan, env, levels, before, a.k); }
      else { OthersKeepDirs(plan, env, levels, before, a); }
    }
  }

  // ---------- confluence ----------

  predicate Over(state: TaskState<Local>) { state.Finished? || state.Joined? }

  /** The directory and file tasks of the level are through. */
  ghost predicate DirsDone(plan: Plan, tasks: seq<Task>, states: seq<TaskState<Local>>) {
    |states| == |tasks|
    && forall k :: 0 <= k < |tasks| && (IsDirTask(plan, tasks[k]) || IsFileTask(plan, tasks[k])) ==> Over(states[k])
  }

  /** A file task that reported Yes has its target below `x`. */
  ghost predicate WrittenBelow(plan: Plan, tasks: seq<Task>, states: seq<TaskState<Local>>, x: string)
    requires DirsDone(plan, tasks, states)
  {
    exists k :: 0 <= k < |tasks| && IsFileTask(plan, tasks[k]) && states[k].verdicts == [Yes]
                && x in Ancestors(Target(plan, tasks[k]))
  }

  /** The directories of a finished level, as a function of the host it started from and of
      the files it wrote. */
  ghost predicate FinalDir(plan: Plan, tasks: seq<Task>, states: seq<TaskState<Local>>, h0: Host, h: Host, x: string)
    requires DirsDone(plan, tasks, states)
  {
    && (forall k :: 0 <= k < |tasks| && IsDirTask(plan, tasks[k]) && DirResource(plan, tasks[k]).path == x ==>
          DirAt(x) in h && h[DirAt(x)] == Wanted(DirResource(plan, tasks[k]), Base(h0, x)))
    && (!Managed(plan, tasks, x) ==>
          if DirAt(x) in h0 then Same(h0, h, DirAt(x))
          else
            && (DirAt(x) in h <==> MadeOnTheWay(plan, tasks, h0, x) || WrittenBelow(plan, tasks, states, x))
            && (DirAt(x) in h ==> h[DirAt(x)] == FRESH_DIR))
  }

  lemma DirsComeOut(plan: Plan, tasks: seq<Task>, states: seq<TaskState<Local>>, h0: Host, h: Host, x: string)
    requires DirsInv(plan, tasks, states, h0, h) && DirsDone(plan, tasks, states)
    ensures FinalDir(plan, tasks, states, h0, h, x)
  {
    hide JobOf, Ancestors;
    if !Managed(plan, tasks, x) && DirAt(x) !in h0 {
      assert Bystander(plan, tasks, states, h0, h, x);
      if MadeOnTheWay(plan, tasks, h0, x) {
        var k :| 0 <= k < |tasks| && IsDirTask(plan, tasks[k]) && DirOf(h0, DirResource(plan, tasks[k]).path).None?
                 && x in Ancestors(DirResource(plan, tasks[k]).path);
        assert Grounded(DirResource(plan, tasks[k]), h0, h);
      }
      MadeMeansWritten(plan, tasks, states, h, x);
    }
  }

  lemma MadeMeansWritten(plan: Plan, tasks: seq<Task>, states: seq<TaskState<Local>>, h: Host, x: string)
    requires DirsDone(plan, tasks, states)
    requires forall k :: 0 <= k < |tasks| && IsFileTask(plan, tasks[k]) ==>
               Parented(Target(plan, tasks[k]), states[k], h)
    ensures MadeForFile(plan, tasks, states, x) <==> WrittenBelow(plan, tasks, states, x)
    ensures WrittenBelow(plan, tasks, states, x) ==> DirAt(x) in h
  {
    hide JobOf, Ancestors, IsFileTask, Target, Parented, MayHaveMade, IsDirTask;
    forall k | 0 <= k < |tasks| && IsFileTask(plan, tasks[k])
      ensures MayHaveMade(states[k]) <==> states[k].verdicts == [Yes]
      ensures states[k].verdicts == [Yes] && x in Ancestors(Target(plan, tasks[k])) ==> DirAt(x) in h
    {
      OverMeansWritten(Target(plan, tasks[k]), states[k], h, x);
    }
  }

  lemma OverMeansWritten(path: string, state: TaskState<Local>, h: Host, x: string)
    requires Over(state) && Parented(path, state, h)
    ensures MayHaveMade(state) <==> state.verdicts == [Yes]
    ensures state.verdicts == [Yes] && x in Ancestors(path) ==> DirAt(x) in h
  {
    hide Ancestors;
    ShorterAbove(path);
  }

  /** The files below `x` report the same. */
  ghost predicate FilesAgree(plan: Plan, tasks: seq<Task>, states1: seq<TaskState<Local>>,
                             states2: seq<TaskState<Local>>, x: string)
    requires DirsDone(plan, tasks, states1) && DirsDone(plan, tasks, states2)
  {
    forall k :: 0 <= k < |tasks| && IsFileTask(plan, tasks[k]) && x in Ancestors(Target(plan, tasks[k])) ==>
      states1[k].verdicts == states2[k].verdicts
  }

  /** It does not take a file to be written for this directory to be there. */
  ghost predicate Rooted(plan: Plan, tasks: seq<Task>, h0: Host, x: string) {
    Managed(plan, tasks, x) || DirAt(x) in h0 || MadeOnTheWay(plan, tasks, h0, x)
  }

  lemma FinalDirUnique(plan: Plan, tasks: seq<Task>, states1: seq<TaskState<Local>>, states2: seq<TaskState<Local>>,
                       h0: Host, h1: Host, h2: Host, x: string)
    requires DirsDone(plan, tasks, states1) && DirsDone(plan, tasks, states2)
    requires FinalDir(plan, tasks, states1, h0, h1, x) && FinalDir(plan, tasks, states2, h0, h2, x)
    requires Rooted(plan, tasks, h0, x) || FilesAgree(plan, tasks, states1, states2, x)
    ensures Same(h1, h2, DirAt(x))
  {
    hide JobOf, Ancestors, MadeOnTheWay;
    if FilesAgree(plan, tasks, states1, states2, x) {
      assert WrittenBelow(plan, tasks, states1, x) <==> WrittenBelow(plan, tasks, states2, x);
    }
  }

  /** Two runs that are in the same level, which both started with the same host and change set. */
  ghost predicate SameLevel(plan: Plan, env: Env, levels: seq<Level>, c1: Config<Local, Manager>,
                            c2: Config<Local, Manager>) {
    && c1.level == c2.level < |levels| && |c1.records| == |c2.records| == c1.level + 1
    && c1.records[c1.level].host == c2.records[c1.level].host
       && c1.records[c1.level].changed == c2.records[c1.level].changed
    && TypedDirs(c1.records[c1.level].host) && DirLevel(plan, env, levels[c1.level].tasks)
    && DirsDone(plan, levels[c1.level].tasks, c1.states) && DirsDone(plan, levels[c1.level].tasks, c2.states)
  }

  /** A task that nobody in its level disturbs reports the same in both runs. */
  lemma PrivateTasksAgree(plan: Plan, env: Env, levels: seq<Level>, host1: Host, host2: Host, manager1: Manager,
                          manager2: Manager, acts1: seq<Action>, acts2: seq<Action>, c1: Config<Local, Manager>,
                          c2: Config<Local, Manager>, k: nat)
    requires RunTo(SystemOf(plan, levels, env), host1, manager1, acts1) == Some(c1)
    requires RunTo(SystemOf(plan, levels, env), host2, manager2, acts2) == Some(c2)
    requires SameLevel(plan, env, levels, c1, c2) && k < |levels[c1.level].tasks|
    requires Over(c1.states[k]) && Over(c2.states[k]) && Private(SystemOf(plan, levels, env), levels[c1.level].tasks, k)
    ensures c1.states[k].verdicts == c2.states[k].verdicts
  {
    hide RunTo, DirLevel, DirsDone, TypedDirs, Inv, PastViews, Kept, Private, Agree, Alone, JobOf, JobStep, JobSenses,
         JobWrites, JobMakes;
    var sys := SystemOf(plan, levels, env);
    SystemIsFramed(plan, levels, env);
    ViewsAlways(sys, host1, manager1, acts1);
    ViewsAlways(sys, host2, manager2, acts2);
    ShapeAlways(sys, host1, manager1, acts1);
    ShapeAlways(sys, host2, manager2, acts2);
    var rec1, rec2, task := c1.records[c1.level], c2.records[c1.level], levels[c1.level].tasks[k];
    assert View(sys, task, c1.states[k], rec1, c1.taken[k], c1.host)
           && View(sys, task, c2.states[k], rec2, c2.taken[k], c2.host);
    AloneUnique(sys, task, rec1.host, rec1.changed, c1.taken[k], c2.taken[k]);
  }

  /** All files with their target below `x` are undisturbed in the level. */
  ghost predicate FilesPrivate(plan: Plan, env: Env, levels: seq<Level>, j: nat, x: string)
    requires j < |levels|
  {
    forall k :: 0 <= k < |levels[j].tasks| && IsFileTask(plan, levels[j].tasks[k])
                && x in Ancestors(Target(plan, levels[j].tasks[k])) ==>
      Private(SystemOf(plan, levels, env), levels[j].tasks, k)
  }

  /** Nested directory creation is confluent: however two runs interleave a level that both
      started alike, once its directory and file tasks are through the same directories
      exist with the same owners and modes: the managed ones, those above them, those that
      were there, and all that lie above files which nobody else in the level disturbs. The
      verdict of a directory task is the same too if its directory was already there, or if
      what it wants differs from what mkdir gives. */
  lemma NestedDirectoriesConfluent(plan: Plan, env: Env, levels: seq<Level>, host1: Host, host2: Host,
                                   manager1: Manager, manager2: Manager, acts1: seq<Action>, acts2: seq<Action>,
                                   c1: Config<Local, Manager>, c2: Config<Local, Manager>)
    requires !env.dryRun
    requires RunTo(SystemOf(plan, levels, env), host1, manager1, acts1) == Some(c1)
    requires RunTo(SystemOf(plan, levels, env), host2, manager2, acts2) == Some(c2)
    requires SameLevel(plan, env, levels, c1, c2)
    ensures forall x :: Rooted(plan, levels[c1.level].tasks, c1.records[c1.level].host, x)
                        || FilesPrivate(plan, env, levels, c1.level, x)
              ==> Same(c1.host, c2.host, DirAt(x))
    ensures forall k :: 0 <= k < |levels[c1.level].tasks| && IsDirTask(plan, levels[c1.level].tasks[k]) ==>
              var r := DirResource(plan, levels[c1.level].tasks[k]);
              DirOf(c1.records[c1.level].host, r.path).Some? || DiffersFromFresh(r) ==>
                  c1.states[k].verdicts == c2.states[k].verdicts
  {
    hide RunTo, JobOf, SystemOf, FinalDir, Ancestors, DirLevel, Rooted, Private;
    DirsAlways(plan, env, levels, host1, manager1, acts1, c1);
    DirsAlways(plan, env, levels, host2, manager2, acts2, c2);
    var tasks, h0 := levels[c1.level].tasks, c1.records[c1.level].host;
    forall x | Rooted(plan, tasks, h0, x) || FilesPrivate(plan, env, levels, c1.level, x)
      ensures Same(c1.host, c2.host, DirAt(x)) {
      DirsComeOut(plan, tasks, c1.states, h0, c1.host, x);
      DirsComeOut(plan, tasks, c2.states, h0, c2.host, x);
      if !Rooted(plan, tasks, h0, x) {
        forall k | 0 <= k < |tasks| && IsFileTask(plan, tasks[k]) && x in Ancestors(Target(plan, tasks[k]))
          ensures c1.states[k].verdicts == c2.states[k].verdicts
        {
          PrivateTasksAgree(plan, env, levels, host1, host2, manager1, manager2, acts1, acts2, c1, c2, k);
        }
      }
      FinalDirUnique(plan, tasks, c1.states, c2.states, h0, c1.host, c2.host, x);
    }
  }
}
