/** What a whole run does to the host, resource by resource and in the fields of the resource,
    and what it leaves of what a command writes. */
module RunEffects {
  import opened HostModel
  import opened TopoLevels
  import opened Run
  import opened RunReport
  import opened RunSchedule
  import opened RunViews
  import opened RunModes
  import opened Backends
  import opened BackendRuns
  import opened WholePlan
  import opened PlanReport
  import opened TaskEffects

  // ---------- cells a task writes without looking at them ----------

  /** The system in which one task is said to look at more cells. */
  ghost function Looking<L, M>(sys: System<L, M>, task: Task, cells: iset<Cell>): System<L, M> {
    sys.(senses := t => if t == task then sys.senses(t) + cells else sys.senses(t))
  }

  lemma SameBegin<L, M>(sys: System<L, M>, task: Task, cells: iset<Cell>, level: nat, host: Host, manager: M,
                        changed: set<nat>, report: seq<Outcome>, records: seq<Record>, past: seq<seq<nat>>)
    ensures BeginLevel(Looking(sys, task, cells), level, host, manager, changed, report, records, past)
            == BeginLevel(sys, level, host, manager, changed, report, records, past)
  {
    hide SkippedOutcomes;
    if level < |sys.levels| {
      var lv := sys.levels[level];
      assert seq(|lv.tasks|, _ => TaskState<L>.Waiting) == seq(|lv.tasks|, _ => TaskState<L>.Waiting);
    }
  }

  lemma SameAction<L, M>(sys: System<L, M>, task: Task, cells: iset<Cell>, c: Config<L, M>, a: Action)
    ensures Allowed(Looking(sys, task, cells), c, a) == Allowed(sys, c, a)
    ensures Allowed(sys, c, a) ==> Do(Looking(sys, task, cells), c, a) == Do(sys, c, a)
  {
    hide Apply, Outcomes, SkippedOutcomes, YesIds, BeginLevel;
    if a.EndLevel? && Allowed(sys, c, a) {
      SameBegin(sys, task, cells, c.level + 1, c.host, c.manager,
                c.changed + YesIds(c.report[c.records[c.level].from..]), c.report, c.records, c.past + [c.taken]);
    }
  }

  /** Nothing in a run depends on what tasks are said to look at. */
  lemma {:induction false} SameRuns<L, M>(sys: System<L, M>, task: Task, cells: iset<Cell>, host: Host, manager: M,
                                          acts: seq<Action>)
    ensures RunTo(Looking(sys, task, cells), host, manager, acts) == RunTo(sys, host, manager, acts)
    decreases |acts|
  {
    hide Do, Allowed, BeginLevel, Looking;
    if acts == [] {
      SameBegin(sys, task, cells, 0, host, manager, {}, [], [], []);
    } else {
      SameRuns(sys, task, cells, host, manager, acts[..|acts| - 1]);
      var c := RunTo(sys, host, manager, acts[..|acts| - 1]);
      if c.Some? { SameAction(sys, task, cells, c.value, acts[|acts| - 1]); }
    }
  }

  lemma {:induction false} SameAlone<L, M>(sys: System<L, M>, task: Task, cells: iset<Cell>, t: Task, host: Host,
                                           changed: set<nat>, n: nat)
    ensures Alone(Looking(sys, task, cells), t, host, changed, n) == Alone(sys, t, host, changed, n)
    decreases n
  {
    if n > 0 { SameAlone(sys, task, cells, t, host, changed, n - 1); }
  }

  lemma StillFramed<L(!new), M>(sys: System<L, M>, task: Task, cells: iset<Cell>)
    requires Framed(sys)
    ensures Framed(Looking(sys, task, cells))
  {
    var more := Looking(sys, task, cells);
    forall t, local, changed, h1: Host, h2: Host | Agree(h1, h2, more.senses(t))
      ensures more.step(t, local, h1, changed) == more.step(t, local, h2, changed)
    {
      forall x | x in sys.senses(t) ensures Same(h1, h2, x) { assert x in more.senses(t); }
      assert Agree(h1, h2, sys.senses(t));
    }
    forall t, local, changed, h: Host ensures Within(more, t, more.step(t, local, h, changed)) {
      assert Within(sys, t, sys.step(t, local, h, changed));
    }
  }

  /** No task but this one touches these cells, from its level on. */
  ghost predicate OnlyFrom<L, M>(sys: System<L, M>, j: nat, k: nat, cells: iset<Cell>) {
    forall i, m :: Position(sys, i, m) && i >= j && (i, m) != (j, k) ==> Undisturbed(sys, sys.levels[i].tasks[m], cells)
  }

  /** The task stands at this place only. */
  ghost predicate OnlyAt<L, M>(sys: System<L, M>, j: nat, k: nat) {
    && Position(sys, j, k)
    && forall i, m :: Position(sys, i, m) && sys.levels[i].tasks[m] == sys.levels[j].tasks[k] ==> (i, m) == (j, k)
  }

  lemma StillApart<L(!new), M>(sys: System<L, M>, j: nat, k: nat, cells: iset<Cell>)
    requires LevelsApart(sys) && OnlyAt(sys, j, k) && OnlyFrom(sys, j, k, cells)
    ensures LevelsApart(Looking(sys, sys.levels[j].tasks[k], cells))
  {
    var more := Looking(sys, sys.levels[j].tasks[k], cells);
    forall i, n, m | 0 <= i < |more.levels| && 0 <= n < |more.levels[i].tasks| && 0 <= m < |more.levels[i].tasks|
      && m != n
      ensures Undisturbed(more, more.levels[i].tasks[m], more.senses(more.levels[i].tasks[n]))
    {
      assert AllPrivate(sys, sys.levels[i].tasks) && Private(sys, sys.levels[i].tasks, n);
      assert Undisturbed(sys, sys.levels[i].tasks[m], sys.senses(sys.levels[i].tasks[n]));
      assert Position(sys, i, n) && Position(sys, i, m);
      if sys.levels[i].tasks[n] == sys.levels[j].tasks[k] {
        assert (i, n) == (j, k) && Undisturbed(sys, sys.levels[i].tasks[m], cells);
      }
    }
  }

  /** Once the level of a task has ended, the cells that nobody else touches from then on are
      as the task on its own leaves them: at every later point of the run. */
  lemma CellsStay<L(!new), M(!new)>(sys: System<L, M>, host: Host, manager: M, acts: seq<Action>, c: Config<L, M>,
                                    j: nat, k: nat, cells: iset<Cell>)
    requires Framed(sys) && LevelsApart(sys) && OnlyAt(sys, j, k) && OnlyFrom(sys, j, k, cells)
    requires RunTo(sys, host, manager, acts) == Some(c) && j + 1 < |c.records|
    ensures j < |c.past| && |c.past[j]| == |sys.levels[j].tasks|
    ensures var s := Alone(sys, sys.levels[j].tasks[k], c.records[j].host, c.records[j].changed, c.past[j][k]);
            s.0.Finished? && Agree(s.1, c.host, cells)
  {
    hide Framed, LevelsApart, RunTo, OnlyFrom, Agree, LevelView, Alone, Looking, Inv;
    var task := sys.levels[j].tasks[k];
    var more := Looking(sys, task, cells);
    StillFramed(sys, task, cells);
    StillApart(sys, j, k, cells);
    SameRuns(sys, task, cells, host, manager, acts);
    ViewsAlways(more, host, manager, acts);
    ShapeAlways(more, host, manager, acts);
    LevelStays(sys, more, c, j, k, cells);
    SameAlone(sys, task, cells, task, c.records[j].host, c.records[j].changed, c.past[j][k]);
    var left := Alone(sys, task, c.records[j].host, c.records[j].changed, c.past[j][k]).1;
    LaterStay(sys, more, c, j, k, cells);
    NowStay(sys, more, c, j, k, cells);
    AgreeTransitive(left, c.records[j + 1].host, c.records[c.level].host, cells);
    AgreeTransitive(left, c.records[c.level].host, c.host, cells);
  }

  lemma LooksAtMore<L, M>(sys: System<L, M>, task: Task, cells: iset<Cell>)
    ensures var more := Looking(sys, task, cells);
            more.levels == sys.levels && more.writes == sys.writes && more.makes == sys.makes
              && cells <= more.senses(task)
  {
  }

  lemma LevelStays<L(!new), M(!new)>(sys: System<L, M>, more: System<L, M>, c: Config<L, M>, j: nat, k: nat,
                                     cells: iset<Cell>)
    requires Position(sys, j, k) && more == Looking(sys, sys.levels[j].tasks[k], cells) && LevelsApart(more)
    requires PastViews(more, c.records, c.past, c.report) && j < |c.past|
    ensures |c.past[j]| == |sys.levels[j].tasks|
    ensures var s := Alone(more, sys.levels[j].tasks[k], c.records[j].host, c.records[j].changed, c.past[j][k]);
            s.0.Finished? && Agree(s.1, c.records[j + 1].host, cells)
  {
    hide Kept, AloneJoined, JoinedBag, Segment, Private, Alone, Looking;
    LooksAtMore(sys, sys.levels[j].tasks[k], cells);
    assert LevelView(more, more.levels[j], c.records[j], c.past[j], c.records[j + 1], Segment(c.records, c.report, j));
    var left := Alone(more, sys.levels[j].tasks[k], c.records[j].host, c.records[j].changed, c.past[j][k]).1;
    assert Agree(c.records[j + 1].host, left, more.senses(sys.levels[j].tasks[k]));
    forall x | x in cells ensures Same(left, c.records[j + 1].host, x) {
      assert Same(c.records[j + 1].host, left, x);
    }
  }

  lemma LaterStay<L(!new), M(!new)>(sys: System<L, M>, more: System<L, M>, c: Config<L, M>, j: nat, k: nat,
                                    cells: iset<Cell>)
    requires Position(sys, j, k) && more == Looking(sys, sys.levels[j].tasks[k], cells) && OnlyFrom(sys, j, k, cells)
    requires PastViews(more, c.records, c.past, c.report) && j < |c.past|
    ensures Agree(c.records[j + 1].host, c.records[|c.past|].host, cells)
  {
    hide LevelView, Agree, Looking;
    LooksAtMore(sys, sys.levels[j].tasks[k], cells);
    forall i, m | j + 1 <= i < |c.past| && Position(more, i, m)
      ensures Spares(more, more.levels[i].tasks[m], cells, c.records[j + 1].host)
    {
      assert Position(sys, i, m) && Undisturbed(sys, sys.levels[i].tasks[m], cells);
    }
    LevelsKeep(more, c, j + 1, |c.past|, cells);
  }

  lemma NowStay<L(!new), M(!new)>(sys: System<L, M>, more: System<L, M>, c: Config<L, M>, j: nat, k: nat,
                                  cells: iset<Cell>)
    requires Position(sys, j, k) && more == Looking(sys, sys.levels[j].tasks[k], cells) && OnlyFrom(sys, j, k, cells)
    requires Shape(more, c) && NowInView(more, c) && j < c.level
    ensures Agree(c.records[c.level].host, c.host, cells)
  {
    hide View, Looking;
    LooksAtMore(sys, sys.levels[j].tasks[k], cells);
    if c.level < |sys.levels| {
      var tasks := sys.levels[c.level].tasks;
      forall x | x in cells ensures Same(c.records[c.level].host, c.host, x) {
        forall m | 0 <= m < |tasks| ensures x !in sys.writes(tasks[m]) && x !in sys.makes(tasks[m]) {
          assert Position(sys, c.level, m) && Undisturbed(sys, tasks[m], cells);
        }
        assert Unwritten(more, tasks, x);
        assert KeptAt(more, tasks, c.records[c.level].host, c.host, x);
      }
    }
  }

  // ---------- one outcome of a run, and the task it comes from ----------

  lemma TaskStandsOnce(plan: Plan, env: Env, topo: seq<seq<nat>>, levels: seq<Level>, j: nat, k: nat)
    requires Prepared(plan, env, topo, levels) && j < |levels| && k < |levels[j].tasks|
    ensures OnlyAt(SystemOf(plan, levels, env), j, k)
  {
    hide JobOf, JobStep, JobShadow, JobSenses, JobWrites, JobMakes, Hints, Layered, Skips, FamilyOf, Members;
    var sys := SystemOf(plan, levels, env);
    forall i, m | Position(sys, i, m) && sys.levels[i].tasks[m] == sys.levels[j].tasks[k] ensures (i, m) == (j, k) {
      TaskOfLevel(plan, env, topo, levels, j, k);
      TaskOfLevel(plan, env, topo, levels, i, m);
      var id := levels[j].tasks[k].ids[0];
      assert id in levels[j].tasks[k].ids && id in topo[j] && id in topo[i];
      if i == j { TasksHaveTheirIds(plan, env, topo, levels, j, k, m, id); }
    }
  }

  /** A resource that was converged in a finished level: its task, what that did on its own, from
      the host and the change set the level started with, and its verdict. */
  lemma OutcomeOfTask(plan: Plan, env: Env, topo: seq<seq<nat>>, levels: seq<Level>, host: Host, manager: Manager,
                      acts: seq<Action>, c: Config<Local, Manager>, j: nat, o: Outcome)
    returns (k: nat, x: nat, v: seq<Changed>, left: Host, calls: seq<Call>)
    requires !env.dryRun && Prepared(plan, env, topo, levels) && LevelsApart(SystemOf(plan, levels, env))
    requires RunTo(SystemOf(plan, levels, env), host, manager, acts) == Some(c)
    requires j + 1 < |c.records| && o in Segment(c.records, c.report, j) && o.changed != Skipped
    ensures j < |levels| && k < |levels[j].tasks| && x < |levels[j].tasks[k].ids| == |v|
    ensures o.id == levels[j].tasks[k].ids[x] && o.changed == v[x] && j < |c.past| && k < |c.past[j]|
    ensures left == Alone(SystemOf(plan, levels, env), levels[j].tasks[k], c.records[j].host, c.records[j].changed,
                          c.past[j][k]).1
    ensures TaskDone(JobOf(plan, levels[j].tasks[k]), env.apt, c.records[j].changed, c.records[j].host, v, left, calls)
  {
    hide LevelsApart, Framed, LevelView, Segment, Prepared, JobOf, Alone, TaskDone, AloneCalls;
    var sys := SystemOf(plan, levels, env);
    SystemIsFramed(plan, levels, env);
    ViewsAlways(sys, host, manager, acts);
    ShapeAlways(sys, host, manager, acts);
    LevelsOfSystem(plan, env, levels);
    SkippedIds(sys.hints, sys.levels[j].skipped);
    k, x := OutcomeComesFromTask(sys, c, j, o);
    var task, rec := levels[j].tasks[k], c.records[j];
    TaskHasDone(plan, levels, env, task, rec.host, rec.changed, c.past[j][k]);
    v := Alone(sys, task, rec.host, rec.changed, c.past[j][k]).0.verdicts;
    left := Alone(sys, task, rec.host, rec.changed, c.past[j][k]).1;
    calls := AloneCalls(plan, levels, env, task, rec.host, rec.changed, c.past[j][k]);
  }

  /** A task that is no batch converges one resource. */
  lemma TaskOfOne(plan: Plan, env: Env, topo: seq<seq<nat>>, levels: seq<Level>, j: nat, k: nat, x: nat)
    requires Prepared(plan, env, topo, levels) && j < |topo| && k < |levels[j].tasks| && x < |levels[j].tasks[k].ids|
    ensures var i := levels[j].tasks[k].ids[x];
            && i < |plan|
            && (!plan[i].resource.AptPackage? && !plan[i].resource.AbsentAptPackage? ==>
                  JobOf(plan, levels[j].tasks[k]) == Single(plan[i].resource) && x == 0)
  {
    hide JobOf, Members, Skips, Layered, Partition;
    TaskOfLevel(plan, env, topo, levels, j, k);
    AllOfOneFamily(plan, env, topo[j], levels[j].tasks[k]);
    ProperTaskFits(plan, env, topo[j], levels[j].tasks[k]);
  }

  /** What a task senses was as at the start of the run when its level began. */
  lemma SensedAtStart(plan: Plan, env: Env, levels: seq<Level>, host: Host, manager: Manager, acts: seq<Action>,
                      c: Config<Local, Manager>, j: nat, k: nat)
    requires Upstream(SystemOf(plan, levels, env))
    requires RunTo(SystemOf(plan, levels, env), host, manager, acts) == Some(c)
    requires j < |c.records| && j < |levels| && k < |levels[j].tasks|
    ensures Alike(host, c.records[j].host, JobSenses(JobOf(plan, levels[j].tasks[k])))
  {
    hide Upstream, Framed, Agree, PastViews, JobOf, JobSenses, Inv, LevelView;
    var sys := SystemOf(plan, levels, env);
    SystemIsFramed(plan, levels, env);
    ViewsAlways(sys, host, manager, acts);
    ShapeAlways(sys, host, manager, acts);
    FirstRecord(sys, host, manager, acts);
    EarlierKeep(sys, c, j, k);
    AgreesAlike(sys, plan, levels, env, levels[j].tasks[k], c.records[0].host, c.records[j].host);
  }

  lemma AgreesAlike(sys: System<Local, Manager>, plan: Plan, levels: seq<Level>, env: Env, t: Task, h1: Host, h2: Host)
    requires sys == SystemOf(plan, levels, env) && Agree(h1, h2, sys.senses(t))
    ensures Alike(h1, h2, JobSenses(JobOf(plan, t)))
  {
    hide JobOf, JobSenses, JobStep, JobShadow, JobWrites, JobMakes, Hints;
    forall x | x in JobSenses(JobOf(plan, t)) ensures Same(h1, h2, x) { assert x in sys.senses(t); }
  }

  /** And at the end of the run it is as the task has left it. */
  lemma SensedAtEnd(plan: Plan, env: Env, levels: seq<Level>, host: Host, manager: Manager, acts: seq<Action>,
                    c: Config<Local, Manager>, j: nat, k: nat)
    requires LevelsApart(SystemOf(plan, levels, env)) && Downstream(SystemOf(plan, levels, env))
    requires RunTo(SystemOf(plan, levels, env), host, manager, acts) == Some(c) && c.phase == Completed
    requires j < |levels| && k < |levels[j].tasks|
    ensures j < |c.past| && k < |c.past[j]|
    ensures Alike(Alone(SystemOf(plan, levels, env), levels[j].tasks[k], c.records[j].host, c.records[j].changed,
                        c.past[j][k]).1, c.host, JobSenses(JobOf(plan, levels[j].tasks[k])))
  {
    hide LevelsApart, Downstream, Framed, Agree, PastViews, JobOf, JobSenses, Inv, LevelView, Alone;
    var sys := SystemOf(plan, levels, env);
    SystemIsFramed(plan, levels, env);
    ViewsAlways(sys, host, manager, acts);
    ShapeAlways(sys, host, manager, acts);
    LevelsOfSystem(plan, env, levels);
    StaysAsLeft(sys, c, j, k);
    AgreesAlike(sys, plan, levels, env, levels[j].tasks[k],
                Alone(sys, levels[j].tasks[k], c.records[j].host, c.records[j].changed, c.past[j][k]).1, c.host);
  }

  // ---------- what a completed run leaves ----------

  /** The file a completed run leaves, read off the host at its start: untouched where it was as
      wanted, mended where only its attributes were not, new otherwise. */
  ghost predicate FileIsLeft(path: string, content: string, mode: Option<nat>, uid: Option<nat>, gid: Option<nat>,
                             host: Host, changed: Changed, end: Host) {
    && (changed == Yes <==> !FileIsWanted(path, content, mode, uid, gid, host))
    && FileAt(path) in end
    && end[FileAt(path)]
       == if FileIsWanted(path, content, mode, uid, gid, host) then host[FileAt(path)]
          else Dressed(content, mode, uid, gid,
                       if HasContent(path, content, host) then host[FileAt(path)] else LeftOver(path, host))
  }

  ghost predicate DirIsLeft(path: string, mode: Option<nat>, uid: Option<nat>, gid: Option<nat>, host: Host,
                            changed: Changed, end: Host) {
    var base := DirBase(path, host);
    && (changed == Yes <==> !DirIsWanted(path, mode, uid, gid, host))
    && DirAt(path) in end
    && end[DirAt(path)] == DirVal(if mode.Some? then mode.value else base.dirMode,
                                  if uid.Some? then uid.value else base.dirUid,
                                  if gid.Some? then gid.value else base.dirGid)
  }

  ghost predicate ServiceIsLeft(name: string, enabled: bool, started: bool, restartOn: seq<nat>, acted: set<nat>,
                                host: Host, changed: Changed, end: Host) {
    && (changed == Yes <==> || (enabled && Cell.Enabled(name) !in host)
                            || (started && (Active(name) !in host || Fires(restartOn, acted))))
    && (Cell.Enabled(name) in end <==> enabled || Cell.Enabled(name) in host)
    && (Active(name) in end <==> started || Active(name) in host)
  }

  /** What a resource has become, in its own fields. */
  ghost predicate IsLeft(r: Resource, host: Host, acted: set<nat>, changed: Changed, end: Host) {
    match r
    case File(path, content, mode, uid, gid) => FileIsLeft(path, content, mode, uid, gid, host, changed, end)
    case SystemdUnit(name, content) =>
      FileIsLeft("/etc/systemd/system/" + name, content, Some(0x1a4), None, None, host, changed, end)
    case Directory(path, mode, uid, gid) => DirIsLeft(path, mode, uid, gid, host, changed, end)
    case Service(name, enabled, started, restartOn) =>
      ServiceIsLeft(name, enabled, started, restartOn, acted, host, changed, end)
    case AptPackage(name) => (changed == Yes <==> Package(name) !in host) && Package(name) in end
    case AbsentAptPackage(name) => (changed == Yes <==> Package(name) in host) && Package(name) !in end
    case Command(_, triggerOn, _) => changed == Yes <==> triggerOn.None? || Fires(triggerOn.value, acted)
    case Marker => changed == No
  }

  lemma FileDoneIsLeft(path: string, content: string, mode: Option<nat>, uid: Option<nat>, gid: Option<nat>,
                       host: Host, h0: Host, v: seq<Changed>, left: Host, end: Host)
    requires FileDone(path, content, mode, uid, gid, h0, v, left)
    requires Same(host, h0, FileAt(path)) && Same(host, h0, TmpOf(path)) && Same(left, end, FileAt(path))
    ensures |v| == 1 && FileIsLeft(path, content, mode, uid, gid, host, v[0], end)
  {
    hide Dressed, TmpOf;
  }

  lemma DirDoneIsLeft(path: string, mode: Option<nat>, uid: Option<nat>, gid: Option<nat>, host: Host, h0: Host,
                      v: seq<Changed>, left: Host, end: Host)
    requires DirDone(path, mode, uid, gid, h0, v, left)
    requires Same(host, h0, DirAt(path)) && Same(left, end, DirAt(path))
    ensures |v| == 1 && DirIsLeft(path, mode, uid, gid, host, v[0], end)
  {
    hide DirSpares;
  }

  lemma ServiceDoneIsLeft(name: string, enabled: bool, started: bool, restartOn: seq<nat>, acted: set<nat>, host: Host,
                          h0: Host, v: seq<Changed>, left: Host, end: Host, calls: seq<Call>)
    requires ServiceDone(name, enabled, started, restartOn, acted, h0, v, left, calls)
    requires Same(host, h0, Cell.Enabled(name)) && Same(host, h0, Active(name))
    requires Same(left, end, Cell.Enabled(name)) && Same(left, end, Active(name))
    ensures |v| == 1 && ServiceIsLeft(name, enabled, started, restartOn, acted, host, v[0], end)
  {
    hide Fires;
  }

  lemma SingleIsLeft(r: Resource, env: Env, acted: set<nat>, host: Host, h0: Host, v: seq<Changed>, left: Host,
                     end: Host, calls: seq<Call>)
    requires TaskDone(Single(r), env.apt, acted, h0, v, left, calls)
    requires Alike(host, h0, JobSenses(Single(r))) && Alike(left, end, JobSenses(Single(r)))
    ensures |v| == 1 && IsLeft(r, host, acted, v[0], end)
  {
    hide FileDone, DirDone, ServiceDone, FileIsLeft, DirIsLeft, ServiceIsLeft, Ancestors, Fires;
    match r
    case File(path, content, mode, uid, gid) =>
      TmpIsAnother(path);
      FileDoneIsLeft(path, content, mode, uid, gid, host, h0, v, left, end);
    case SystemdUnit(name, content) =>
      TmpIsAnother(UnitPath(name));
      FileDoneIsLeft(UnitPath(name), content, Some(0x1a4), None, None, host, h0, v, left, end);
    case Directory(path, mode, uid, gid) => DirDoneIsLeft(path, mode, uid, gid, host, h0, v, left, end);
    case Service(name, enabled, started, restartOn) =>
      ServiceDoneIsLeft(name, enabled, started, restartOn, acted, host, h0, v, left, end, calls);
    case _ =>
  }

  lemma InstalledAfter(missing: seq<string>, env: Env, h0: Host, h: Host, name: string)
    requires Reflexive(env.apt) && InstalledFrom(missing, env.apt.installs, h0, h)
    requires name in missing || Package(name) in h0
    ensures Package(name) in h
  {
    assert name in env.apt.installs(name);
    assert name !in missing ==> Package(name) in h || Same(h0, h, Package(name));
  }

  lemma InstallIsLeft(names: seq<string>, env: Env, acted: set<nat>, host: Host, h0: Host, v: seq<Changed>, left: Host,
                      end: Host, calls: seq<Call>, x: nat)
    requires Reflexive(env.apt) && x < |names| && InstallDone(names, env.apt.installs, h0, v, left, calls)
    requires Same(host, h0, Package(names[x])) && Same(left, end, Package(names[x]))
    ensures |v| == |names| && IsLeft(AptPackage(names[x]), host, acted, v[x], end)
  {
    hide Filter, InstalledFrom, Reflexive;
    FilterHas(names, h0, false);
    InstalledAfter(Filter(names, h0, false), env, h0, left, names[x]);
  }

  lemma RemoveIsLeft(names: seq<string>, env: Env, acted: set<nat>, host: Host, h0: Host, v: seq<Changed>, left: Host,
                     end: Host, calls: seq<Call>, x: nat)
    requires Reflexive(env.apt) && x < |names| && RemoveDone(names, env.apt.removes, h0, v, left, calls)
    requires Same(host, h0, Package(names[x])) && Same(left, end, Package(names[x]))
    ensures |v| == |names| && IsLeft(AbsentAptPackage(names[x]), host, acted, v[x], end)
  {
    hide Filter;
    var name := names[x];
    FilterHas(names, h0, true);
    assert name in env.apt.removes(name);
    assert Package(name) !in left by {
      if Package(name) in h0 { assert name in Filter(names, h0, true); } else { assert Same(h0, h0, Package(name)); }
    }
  }

  lemma BatchIsLeft(job: Job, env: Env, acted: set<nat>, host: Host, h0: Host, v: seq<Changed>, left: Host, end: Host,
                    calls: seq<Call>, x: nat)
    requires Reflexive(env.apt) && (job.Install? || job.Remove?) && x < |job.names|
    requires TaskDone(job, env.apt, acted, h0, v, left, calls)
    requires Alike(host, h0, JobSenses(job)) && Alike(left, end, JobSenses(job))
    ensures |v| == |job.names|
    ensures var r := if job.Install? then AptPackage(job.names[x]) else AbsentAptPackage(job.names[x]);
            IsLeft(r, host, acted, v[x], end)
  {
    hide InstallDone, RemoveDone, IsLeft, Reflexive;
    assert Package(job.names[x]) in JobSenses(job);
    if job.Install? { InstallIsLeft(job.names, env, acted, host, h0, v, left, end, calls, x); }
    else { RemoveIsLeft(job.names, env, acted, host, h0, v, left, end, calls, x); }
  }

  /** What a completed apply run leaves of each resource it has not skipped, in the fields of that
      resource and read off the host at the start; and what it reports for it. */
  lemma ResourceIsLeft(plan: Plan, env: Env, topo: seq<seq<nat>>, levels: seq<Level>, host: Host, manager: Manager,
                       acts: seq<Action>, c: Config<Local, Manager>, j: nat, o: Outcome)
    requires !env.dryRun && Reflexive(env.apt) && Prepared(plan, env, topo, levels)
    requires var sys := SystemOf(plan, levels, env); LevelsApart(sys) && Upstream(sys) && Downstream(sys)
    requires RunTo(SystemOf(plan, levels, env), host, manager, acts) == Some(c) && c.phase == Completed
    requires j + 1 < |c.records| && o in Segment(c.records, c.report, j) && o.changed != Skipped
    ensures o.id < |plan| && IsLeft(plan[o.id].resource, host, c.records[j].changed, o.changed, c.host)
  {
    hide LevelsApart, Upstream, Downstream, RunTo, SystemOf, Prepared, JobOf, Segment, TaskDone, IsLeft, Alone,
         Reflexive, JobSenses, Alike;
    LevelsOf(plan, env, topo, levels);
    var k, x, v, left, calls := OutcomeOfTask(plan, env, topo, levels, host, manager, acts, c, j, o);
    SensedAtStart(plan, env, levels, host, manager, acts, c, j, k);
    SensedAtEnd(plan, env, levels, host, manager, acts, c, j, k);
    TaskOfOne(plan, env, topo, levels, j, k, x);
    TaskOfLevel(plan, env, topo, levels, j, k);
    ProperTaskFits(plan, env, topo[j], levels[j].tasks[k]);
    var job, r := JobOf(plan, levels[j].tasks[k]), plan[o.id].resource;
    if job.Single? {
      SingleIsLeft(r, env, c.records[j].changed, host, c.records[j].host, v, left, c.host, calls);
    } else {
      BatchIsLeft(job, env, c.records[j].changed, host, c.records[j].host, v, left, c.host, calls, x);
    }
  }

  // ---------- what a command leaves ----------

  /** The effect of a command on one cell. */
  ghost predicate CommandWrites(r: Resource, h0: Host, changed: Changed, h: Host, x: Cell)
    requires r.Command?
  {
    if changed == No then Same(h0, h, x) else
      var made := r.program.act(map c | c in r.program.inputs && c in h0 :: h0[c]);
      && made.Some?
      && if x in r.program.outputs && x in made.value.put then x in h && h[x] == made.value.put[x]
         else if x in r.program.outputs && x in made.value.del then x !in h
         else Same(h0, h, x)
  }

  /** In every reachable configuration of an apply run: a command of a finished level that reported
      Yes has made of its outputs what its program makes of its inputs, as they were when its level
      began; one that reported No has changed nothing. So stands every cell that no other task
      touches from that level on. */
  lemma CommandInRun(plan: Plan, env: Env, topo: seq<seq<nat>>, levels: seq<Level>, host: Host, manager: Manager,
                     acts: seq<Action>, c: Config<Local, Manager>, j: nat, o: Outcome, x: Cell)
    requires !env.dryRun && Prepared(plan, env, topo, levels) && LevelsApart(SystemOf(plan, levels, env))
    requires RunTo(SystemOf(plan, levels, env), host, manager, acts) == Some(c)
    requires j + 1 < |c.records| && o in Segment(c.records, c.report, j) && o.changed != Skipped
    requires o.id < |plan| && plan[o.id].resource.Command?
    requires forall i, m :: Position(SystemOf(plan, levels, env), i, m) && i >= j
                            && levels[i].tasks[m].ids != [o.id] ==>
               Undisturbed(SystemOf(plan, levels, env), levels[i].tasks[m], iset{x})
    ensures CommandWrites(plan[o.id].resource, c.records[j].host, o.changed, c.host, x)
    ensures o.changed == Yes <==> || plan[o.id].resource.triggerOn.None?
                                  || Fires(plan[o.id].resource.triggerOn.value, c.records[j].changed)
  {
    hide LevelsApart, RunTo, SystemOf, Prepared, JobOf, Segment, Alone, Fires, Framed, Undisturbed, Agree;
    var sys := SystemOf(plan, levels, env);
    LevelsOf(plan, env, topo, levels);
    LevelsOfSystem(plan, env, levels);
    SystemIsFramed(plan, levels, env);
    var k, y, v, left, calls := OutcomeOfTask(plan, env, topo, levels, host, manager, acts, c, j, o);
    TaskOfOne(plan, env, topo, levels, j, k, y);
    TaskOfLevel(plan, env, topo, levels, j, k);
    TaskStandsOnce(plan, env, topo, levels, j, k);
    forall i, m | Position(sys, i, m) && i >= j && (i, m) != (j, k)
      ensures Undisturbed(sys, sys.levels[i].tasks[m], iset{x})
    {
      OwnIds(plan, env, topo, levels, i, m, j, k, o.id);
    }
    CellsStay(sys, host, manager, acts, c, j, k, iset{x});
    StaysAt(left, c.host, x);
    CommandEnds(plan[o.id].resource, c.records[j].changed, c.records[j].host, v, left, calls, c.host, x);
  }

  lemma StaysAt(h1: Host, h2: Host, x: Cell)
    requires Agree(h1, h2, iset{x})
    ensures Same(h1, h2, x)
  {
  }

  lemma OwnIds(plan: Plan, env: Env, topo: seq<seq<nat>>, levels: seq<Level>, i: nat, m: nat, j: nat, k: nat, id: nat)
    requires Prepared(plan, env, topo, levels) && Position(SystemOf(plan, levels, env), i, m)
    requires Position(SystemOf(plan, levels, env), j, k) && (i, m) != (j, k) && id in levels[j].tasks[k].ids
    ensures levels[i].tasks[m].ids != [id]
  {
    hide Layered, Skips, FamilyOf, Members, JobOf, JobStep, JobShadow, JobSenses, JobWrites, JobMakes, Hints;
    TaskOfLevel(plan, env, topo, levels, j, k);
    TaskOfLevel(plan, env, topo, levels, i, m);
    if levels[i].tasks[m].ids == [id] {
      assert id in levels[i].tasks[m].ids && id in topo[i] && id in topo[j];
      if i == j { TasksHaveTheirIds(plan, env, topo, levels, j, k, m, id); }
    }
  }

  lemma CommandEnds(r: Resource, acted: set<nat>, h0: Host, v: seq<Changed>, left: Host, calls: seq<Call>, end: Host,
                    x: Cell)
    requires r.Command? && CommandDone(r.argv, r.triggerOn, r.program, acted, h0, v, left, calls) && Same(left, end, x)
    ensures |v| == 1 && CommandWrites(r, h0, v[0], end, x)
    ensures v[0] == Yes <==> r.triggerOn.None? || Fires(r.triggerOn.value, acted)
  {
    hide Fires;
    if v != [No] {
      assert if x in r.program.outputs && x in r.program.act(map c | c in r.program.inputs
                                                             && c in h0 :: h0[c]).value.put
             then x in left else true;
    }
  }

  /** With `Upstream` the inputs are as they were at the start of the run. */
  lemma CommandSeesStart(plan: Plan, env: Env, topo: seq<seq<nat>>, levels: seq<Level>, host: Host, manager: Manager,
                         acts: seq<Action>, c: Config<Local, Manager>, j: nat, o: Outcome)
    requires !env.dryRun && Prepared(plan, env, topo, levels)
    requires LevelsApart(SystemOf(plan, levels, env)) && Upstream(SystemOf(plan, levels, env))
    requires RunTo(SystemOf(plan, levels, env), host, manager, acts) == Some(c)
    requires j + 1 < |c.records| && o in Segment(c.records, c.report, j) && o.changed != Skipped
    requires o.id < |plan| && plan[o.id].resource.Command?
    ensures var inputs, h0 := plan[o.id].resource.program.inputs, c.records[j].host;
            (map x | x in inputs && x in h0 :: h0[x]) == (map x | x in inputs && x in host :: host[x])
  {
    hide LevelsApart, Upstream, RunTo, SystemOf, Prepared, JobOf, Segment, Alone, TaskDone;
    LevelsOf(plan, env, topo, levels);
    var k, y, v, left, calls := OutcomeOfTask(plan, env, topo, levels, host, manager, acts, c, j, o);
    TaskOfOne(plan, env, topo, levels, j, k, y);
    SensedAtStart(plan, env, levels, host, manager, acts, c, j, k);
    var inputs, h0 := plan[o.id].resource.program.inputs, c.records[j].host;
    forall x | x in inputs ensures Same(host, h0, x) {}
  }
}
