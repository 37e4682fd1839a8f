/** The programs a whole run calls to change something: a completed run calls exactly what can be
    foretold from the plan and the host at its start, each as often as that, whatever the schedule.
    And which definition a unit runs with. */
module RunCalls {
  import opened HostModel
  import opened TopoLevels
  import opened Run
  import opened RunReport
  import opened RunSchedule
  import opened RunViews
  import opened RunModes
  import opened Backends
  import opened BackendRuns
  import opened WholePlan
  import opened PlanReport
  import opened TaskEffects
  import opened RunEffects

  // ---------- the calls of a level ----------

  /** The calls the tasks of a level have made, each on its own after its steps. */
  ghost function LevelCalls(plan: Plan, levels: seq<Level>, env: Env, tasks: seq<Task>, rec: Record, counts: seq<nat>)
    : multiset<Call>
    requires |counts| == |tasks|
  {
    if tasks == [] then multiset{} else
      var last := |tasks| - 1;
      LevelCalls(plan, levels, env, tasks[..last], rec, counts[..last])
        + multiset(AloneCalls(plan, levels, env, tasks[last], rec.host, rec.changed, counts[last]))
  }

  ghost function PastCalls(plan: Plan, levels: seq<Level>, env: Env, records: seq<Record>, past: seq<seq<nat>>)
    : multiset<Call>
    requires |past| <= |records| && |past| <= |levels|
    requires forall j :: 0 <= j < |past| ==> |past[j]| == |levels[j].tasks|
  {
    if past == [] then multiset{} else
      var last := |past| - 1;
      PastCalls(plan, levels, env, records, past[..last])
        + LevelCalls(plan, levels, env, levels[last].tasks, records[last], past[last])
  }

  lemma {:induction false} NoStepsNoCalls(plan: Plan, levels: seq<Level>, env: Env, tasks: seq<Task>, rec: Record,
                                          counts: seq<nat>)
    requires |counts| == |tasks| && forall k :: 0 <= k < |counts| ==> counts[k] == 0
    ensures LevelCalls(plan, levels, env, tasks, rec, counts) == multiset{}
    decreases |tasks|
  {
    if tasks != [] { NoStepsNoCalls(plan, levels, env, tasks[..|tasks| - 1], rec, counts[..|tasks| - 1]); }
  }

  /** The calls that the next step of a task makes, if it is still running. */
  ghost function NextCalls(plan: Plan, levels: seq<Level>, env: Env, task: Task, rec: Record, n: nat): multiset<Call> {
    var s := Alone(SystemOf(plan, levels, env), task, rec.host, rec.changed, n).0;
    multiset(if s.Running? then CallsOf(JobOf(plan, task), s.local) else [])
  }

  lemma LastCalls(plan: Plan, levels: seq<Level>, env: Env, tasks: seq<Task>, rec: Record, counts: seq<nat>)
    requires |counts| == |tasks| && tasks != []
    ensures var last := |tasks| - 1;
            LevelCalls(plan, levels, env, tasks, rec, counts)
            == LevelCalls(plan, levels, env, tasks[..last], rec, counts[..last])
             + multiset(AloneCalls(plan, levels, env, tasks[last], rec.host, rec.changed, counts[last]))
  {
    hide AloneCalls;
  }

  /** One more step of one task. */
  lemma {:induction false} StepCalls(plan: Plan, levels: seq<Level>, env: Env, tasks: seq<Task>, rec: Record,
                                     counts: seq<nat>, k: nat)
    requires |counts| == |tasks| && k < |tasks|
    ensures LevelCalls(plan, levels, env, tasks, rec, counts[k := counts[k] + 1])
            == LevelCalls(plan, levels, env, tasks, rec, counts)
             + NextCalls(plan, levels, env, tasks[k], rec, counts[k])
    decreases |tasks|
  {
    hide LevelCalls, AloneCalls, NextCalls;
    var last := |tasks| - 1;
    LastCalls(plan, levels, env, tasks, rec, counts);
    LastCalls(plan, levels, env, tasks, rec, counts[k := counts[k] + 1]);
    if k == last {
      assert counts[k := counts[k] + 1][..last] == counts[..last];
      OneMoreCall(plan, levels, env, tasks[k], rec, counts[k]);
    } else {
      assert counts[k := counts[k] + 1][..last] == counts[..last][k := counts[k] + 1];
      assert tasks[..last][k] == tasks[k];
      StepCalls(plan, levels, env, tasks[..last], rec, counts[..last], k);
    }
  }

  lemma OneMoreCall(plan: Plan, levels: seq<Level>, env: Env, task: Task, rec: Record, n: nat)
    ensures multiset(AloneCalls(plan, levels, env, task, rec.host, rec.changed, n + 1))
            == multiset(AloneCalls(plan, levels, env, task, rec.host, rec.changed, n))
             + NextCalls(plan, levels, env, task, rec, n)
  {
    hide Alone, JobOf, CallsOf, SystemOf;
  }

  // ---------- the calls of a run ----------

  ghost predicate PastFits(levels: seq<Level>, c: Config<Local, Manager>) {
    && |c.past| <= |c.records| && |c.past| <= |levels|
    && forall j :: 0 <= j < |c.past| ==> |c.past[j]| == |levels[j].tasks|
  }

  ghost predicate Counted(plan: Plan, levels: seq<Level>, env: Env, before: seq<Call>, c: Config<Local, Manager>) {
    && PastFits(levels, c) && |c.past| == c.level <= |levels| && |c.records| == c.level + 1
    && c.changed == c.records[c.level].changed
    && (c.level < |levels| ==> |c.taken| == |levels[c.level].tasks|)
    && multiset(c.manager.calls)
       == multiset(before) + PastCalls(plan, levels, env, c.records, c.past)
        + if c.level < |levels| then LevelCalls(plan, levels, env, levels[c.level].tasks, c.records[c.level], c.taken)
          else multiset{}
  }

  lemma ShadowCalls(job: Job, local: Local, h: Host, m: Manager)
    ensures JobShadow(job, local, h, m).calls == m.calls + CallsOf(job, local)
  {
  }

  /** A step counts one more step of its task, and its calls are added. */
  lemma StepAdds(plan: Plan, levels: seq<Level>, env: Env, c: Config<Local, Manager>, k: nat)
    requires Allowed(SystemOf(plan, levels, env), c, Step(k))
    ensures c.level < |levels| && k < |c.states| == |c.taken| == |levels[c.level].tasks| && c.states[k].Running?
    ensures var c' := Do(SystemOf(plan, levels, env), c, Step(k));
            && c'.level == c.level && c'.records == c.records && c'.past == c.past && c'.changed == c.changed
            && c'.taken == c.taken[k := c.taken[k] + 1]
            && c'.manager.calls
               == c.manager.calls + CallsOf(JobOf(plan, levels[c.level].tasks[k]), c.states[k].local)
  {
    hide JobStep, JobShadow, JobSenses, JobWrites, JobMakes, JobOf, Hints, Apply, CallsOf;
    ShadowCalls(JobOf(plan, levels[c.level].tasks[k]), c.states[k].local, c.host, c.manager);
  }

  /** The task is where it would be alone. */
  lemma StandsAsAlone(plan: Plan, levels: seq<Level>, env: Env, c: Config<Local, Manager>, k: nat)
    requires LevelsApart(SystemOf(plan, levels, env)) && ViewInv(SystemOf(plan, levels, env), c)
    requires c.level < |levels| && k < |c.states| == |c.taken| == |levels[c.level].tasks| && c.states[k].Running?
    ensures c.level < |c.records|
    ensures var rec := c.records[c.level];
            Alone(SystemOf(plan, levels, env), levels[c.level].tasks[k], rec.host, rec.changed, c.taken[k]).0
            == c.states[k]
  {
    hide JobStep, JobShadow, JobSenses, JobWrites, JobMakes, JobOf, Hints, Inv, PastViews, Kept, Agree, Alone, Private;
    var sys := SystemOf(plan, levels, env);
    ShapeOfInv(sys, c);
    assert AllPrivate(sys, sys.levels[c.level].tasks);
    assert View(sys, levels[c.level].tasks[k], c.states[k], c.records[c.level], c.taken[k], c.host);
  }

  lemma StepIsCounted(plan: Plan, levels: seq<Level>, env: Env, before: seq<Call>, c: Config<Local, Manager>, k: nat)
    requires Counted(plan, levels, env, before, c) && LevelsApart(SystemOf(plan, levels, env))
    requires ViewInv(SystemOf(plan, levels, env), c) && Allowed(SystemOf(plan, levels, env), c, Step(k))
    ensures Counted(plan, levels, env, before, Do(SystemOf(plan, levels, env), c, Step(k)))
  {
    hide SystemOf, Do, Allowed, LevelsApart, ViewInv, JobOf, LevelCalls, PastCalls, Alone, CallsOf;
    StepAdds(plan, levels, env, c, k);
    StandsAsAlone(plan, levels, env, c, k);
    StepCalls(plan, levels, env, levels[c.level].tasks, c.records[c.level], c.taken, k);
  }

  lemma {:induction false} PastCallsStay(plan: Plan, levels: seq<Level>, env: Env, records: seq<Record>, next: Record,
                                         past: seq<seq<nat>>)
    requires |past| <= |records| && |past| <= |levels|
    requires forall j :: 0 <= j < |past| ==> |past[j]| == |levels[j].tasks|
    ensures PastCalls(plan, levels, env, records + [next], past) == PastCalls(plan, levels, env, records, past)
    decreases |past|
  {
    hide LevelCalls;
    if past != [] { PastCallsStay(plan, levels, env, records, next, past[..|past| - 1]); }
  }

  lemma PastCallsEnd(plan: Plan, levels: seq<Level>, env: Env, records: seq<Record>, next: Record,
                     past: seq<seq<nat>>, taken: seq<nat>)
    requires |past| < |levels| && |records| == |past| + 1 && |taken| == |levels[|past|].tasks|
    requires forall j :: 0 <= j < |past| ==> |past[j]| == |levels[j].tasks|
    ensures PastCalls(plan, levels, env, records + [next], past + [taken])
            == PastCalls(plan, levels, env, records, past)
             + LevelCalls(plan, levels, env, levels[|past|].tasks, records[|past|], taken)
  {
    hide LevelCalls;
    PastCallsStay(plan, levels, env, records, next, past);
    assert (past + [taken])[..|past|] == past;
  }

  lemma OthersAreCounted(plan: Plan, levels: seq<Level>, env: Env, before: seq<Call>, c: Config<Local, Manager>,
                         a: Action)
    requires Counted(plan, levels, env, before, c) && !a.Step? && !a.EndLevel?
    requires Allowed(SystemOf(plan, levels, env), c, a)
    ensures Counted(plan, levels, env, before, Do(SystemOf(plan, levels, env), c, a))
  {
    hide JobStep, JobShadow, JobSenses, JobWrites, JobMakes, JobOf, Hints, LevelCalls, PastCalls, Outcomes;
  }

  lemma EndIsCounted(plan: Plan, levels: seq<Level>, env: Env, before: seq<Call>, c: Config<Local, Manager>)
    requires Counted(plan, levels, env, before, c)
    requires Allowed(SystemOf(plan, levels, env), c, EndLevel)
    ensures Counted(plan, levels, env, before, Do(SystemOf(plan, levels, env), c, EndLevel))
  {
    hide JobStep, JobShadow, JobSenses, JobWrites, JobMakes, JobOf, Hints, LevelCalls, PastCalls, YesIds,
         SkippedOutcomes;
    var c' := Do(SystemOf(plan, levels, env), c, EndLevel);
    var next := c'.records[c.level + 1];
    assert c'.records == c.records + [next];
    PastCallsEnd(plan, levels, env, c.records, next, c.past, c.taken);
    if c'.level < |levels| {
      NoStepsNoCalls(plan, levels, env, levels[c'.level].tasks, c'.records[c'.level], c'.taken);
    }
  }

  lemma CountStarts(plan: Plan, levels: seq<Level>, env: Env, host: Host, manager: Manager)
    ensures Counted(plan, levels, env, manager.calls, Start(SystemOf(plan, levels, env), host, manager))
  {
    hide JobStep, JobShadow, JobSenses, JobWrites, JobMakes, JobOf, Hints, SkippedOutcomes;
    var c := Start(SystemOf(plan, levels, env), host, manager);
    if |levels| > 0 { NoStepsNoCalls(plan, levels, env, levels[0].tasks, c.records[0], c.taken); }
  }

  lemma {:induction false} CallsAreCounted(plan: Plan, levels: seq<Level>, env: Env, host: Host, manager: Manager,
                                           acts: seq<Action>, c: Config<Local, Manager>)
    requires LevelsApart(SystemOf(plan, levels, env))
    requires RunTo(SystemOf(plan, levels, env), host, manager, acts) == Some(c)
    ensures Counted(plan, levels, env, manager.calls, c)
    decreases |acts|
  {
    hide SystemOf, Do, Allowed, Counted, LevelsApart, ViewInv, Framed;
    if acts == [] {
      CountStarts(plan, levels, env, host, manager);
    } else {
      var sys, init, a := SystemOf(plan, levels, env), acts[..|acts| - 1], acts[|acts| - 1];
      var b := RunTo(sys, host, manager, init).value;
      CallsAreCounted(plan, levels, env, host, manager, init, b);
      SystemIsFramed(plan, levels, env);
      ViewsAlways(sys, host, manager, init);
      if a.Step? { StepIsCounted(plan, levels, env, manager.calls, b, a.k); }
      else if a.EndLevel? { EndIsCounted(plan, levels, env, manager.calls, b); }
      else { OthersAreCounted(plan, levels, env, manager.calls, b, a); }
    }
  }

  // ---------- the calls foretold ----------

  /** The calls a task makes, in its resource's fields: from the host and the change set it starts with. */
  ghost function TaskCalls(job: Job, h: Host, changed: set<nat>): seq<Call> {
    match job
    case Malformed => []
    case Install(names) =>
      if Filter(names, h, false) == [] then [] else [AptGetUpdate, AptGetInstall(Filter(names, h, false))]
    case Remove(names) => if Filter(names, h, true) == [] then [] else [AptGetRemove(Filter(names, h, true))]
    case Single(r) =>
      match r
      case SystemdUnit(name, content) =>
        if FileIsWanted("/etc/systemd/system/" + name, content, Some(0x1a4), None, None, h) then [] else [DaemonReload]
      case Service(name, enabled, started, restartOn) =>
        (if enabled && Cell.Enabled(name) !in h then [EnableUnit(name)] else [])
        + if !started then []
          else if Active(name) !in h then [StartUnit(name)]
          else if Fires(restartOn, changed) then [RestartUnit(name)] else []
      case Command(argv, triggerOn, _) =>
        if triggerOn.None? || Fires(triggerOn.value, changed) then [RunCommand(argv)] else []
      case _ => []
  }

  lemma DoneHasCalled(job: Job, apt: Apt, changed: set<nat>, h0: Host, v: seq<Changed>, h: Host, calls: seq<Call>)
    requires TaskDone(job, apt, changed, h0, v, h, calls)
    ensures calls == TaskCalls(job, h0, changed)
  {
    hide Fires, FileWrittenTo, FileIsWanted, InstalledFrom, DirDone, Filter;
  }

  lemma {:induction false} FilterAlike(names: seq<string>, h1: Host, h2: Host, installed: bool)
    requires forall n :: n in names ==> Same(h1, h2, Package(n))
    ensures Filter(names, h1, installed) == Filter(names, h2, installed)
  {
    if names != [] {
      assert Same(h1, h2, Package(names[0]));
      FilterAlike(names[1..], h1, h2, installed);
    }
  }

  lemma TaskCallsAlike(job: Job, h1: Host, h2: Host, changed: set<nat>)
    requires Alike(h1, h2, JobSenses(job))
    ensures TaskCalls(job, h1, changed) == TaskCalls(job, h2, changed)
  {
    hide Ancestors, Fires, Filter;
    match job
    case Malformed =>
    case Install(names) =>
      forall n | n in names ensures Same(h1, h2, Package(n)) { assert Package(n) in JobSenses(job); }
      FilterAlike(names, h1, h2, false);
    case Remove(names) =>
      forall n | n in names ensures Same(h1, h2, Package(n)) { assert Package(n) in JobSenses(job); }
      FilterAlike(names, h1, h2, true);
    case Single(r) =>
      if r.SystemdUnit? { assert Same(h1, h2, FileAt(UnitPath(r.name))); }
      if r.Service? { assert Same(h1, h2, Cell.Enabled(r.name)) && Same(h1, h2, Active(r.name)); }
  }

  /** The calls foretold for the first `n` tasks of a level. */
  ghost function LevelForetold(plan: Plan, tasks: seq<Task>, host: Host, changed: set<nat>): multiset<Call> {
    if tasks == [] then multiset{} else
      LevelForetold(plan, tasks[..|tasks| - 1], host, changed)
        + multiset(TaskCalls(JobOf(plan, tasks[|tasks| - 1]), host, changed))
  }

  /** The calls foretold for the first `n` levels, from the host a run starts on. */
  ghost function Foretold(plan: Plan, env: Env, topo: seq<seq<nat>>, levels: seq<Level>, host: Host, n: nat)
    : multiset<Call>
    requires n <= |levels|
  {
    if n == 0 then multiset{} else
      Foretold(plan, env, topo, levels, host, n - 1)
        + LevelForetold(plan, levels[n - 1].tasks, host, ActedBefore(plan, env, Due(plan, env, host), topo, n - 1))
  }

  /** A level whose tasks have all finished on their own has made the calls foretold. */
  lemma {:induction false} LevelHasCalled(plan: Plan, levels: seq<Level>, env: Env, tasks: seq<Task>, rec: Record,
                                          counts: seq<nat>, host: Host)
    requires !env.dryRun && |counts| == |tasks|
    requires forall k :: 0 <= k < |tasks| ==>
               Alone(SystemOf(plan, levels, env), tasks[k], rec.host, rec.changed, counts[k]).0.Finished?
               && Alike(host, rec.host, JobSenses(JobOf(plan, tasks[k])))
    ensures LevelCalls(plan, levels, env, tasks, rec, counts) == LevelForetold(plan, tasks, host, rec.changed)
    decreases |tasks|
  {
    hide Alone, AloneCalls, JobOf, JobSenses, TaskCalls, TaskDone, SystemOf, Alike;
    if tasks != [] {
      var last := |tasks| - 1;
      LevelHasCalled(plan, levels, env, tasks[..last], rec, counts[..last], host);
      TaskHasDone(plan, levels, env, tasks[last], rec.host, rec.changed, counts[last]);
      var (s, h) := Alone(SystemOf(plan, levels, env), tasks[last], rec.host, rec.changed, counts[last]);
      DoneHasCalled(JobOf(plan, tasks[last]), env.apt, rec.changed, rec.host, s.verdicts, h,
                    AloneCalls(plan, levels, env, tasks[last], rec.host, rec.changed, counts[last]));
      TaskCallsAlike(JobOf(plan, tasks[last]), host, rec.host, rec.changed);
    }
  }

  lemma FinishedAlone(sys: System<Local, Manager>, c: Config<Local, Manager>, j: nat, k: nat)
    requires LevelsApart(sys) && PastViews(sys, c.records, c.past, c.report)
    requires j < |c.past| && k < |sys.levels[j].tasks|
    ensures |c.past[j]| == |sys.levels[j].tasks|
    ensures Alone(sys, sys.levels[j].tasks[k], c.records[j].host, c.records[j].changed, c.past[j][k]).0.Finished?
  {
    hide Kept, Agree, AloneJoined, JoinedBag, Segment, Alone, Private;
    assert LevelView(sys, sys.levels[j], c.records[j], c.past[j], c.records[j + 1], Segment(c.records, c.report, j));
  }

  lemma {:induction false} PastIsForetold(plan: Plan, env: Env, topo: seq<seq<nat>>, levels: seq<Level>, host: Host,
                                          manager: Manager, acts: seq<Action>, c: Config<Local, Manager>, n: nat)
    requires !env.dryRun && Prepared(plan, env, topo, levels)
    requires LevelsApart(SystemOf(plan, levels, env)) && Upstream(SystemOf(plan, levels, env))
    requires RunTo(SystemOf(plan, levels, env), host, manager, acts) == Some(c)
    requires PastFits(levels, c) && |c.records| == |c.past| + 1 && n <= |c.past|
    ensures PastCalls(plan, levels, env, c.records, c.past[..n]) == Foretold(plan, env, topo, levels, host, n)
    decreases n
  {
    hide LevelsApart, Upstream, RunTo, SystemOf, Prepared, JobOf, Alone, LevelCalls, LevelForetold, ViewInv, Framed,
         Due, ActedBefore, JobSenses, Alike;
    if n > 0 {
      var sys, j := SystemOf(plan, levels, env), n - 1;
      PastIsForetold(plan, env, topo, levels, host, manager, acts, c, j);
      assert c.past[..n][..j] == c.past[..j];
      LevelsOfSystem(plan, env, levels);
      SystemIsFramed(plan, levels, env);
      ViewsAlways(sys, host, manager, acts);
      forall k: nat | k < |levels[j].tasks|
        ensures Alone(sys, levels[j].tasks[k], c.records[j].host, c.records[j].changed, c.past[j][k]).0.Finished?
        ensures Alike(host, c.records[j].host, JobSenses(JobOf(plan, levels[j].tasks[k])))
      {
        PastViewsOf(sys, c);
        FinishedAlone(sys, c, j, k);
        SensedAtStart(plan, env, levels, host, manager, acts, c, j, k);
      }
      LevelHasCalled(plan, levels, env, levels[j].tasks, c.records[j], c.past[j], host);
      ChangedIsForetold(plan, env, topo, levels, host, manager, acts, c, j);
    }
  }

  lemma PastViewsOf(sys: System<Local, Manager>, c: Config<Local, Manager>)
    requires ViewInv(sys, c)
    ensures PastViews(sys, c.records, c.past, c.report)
  {
  }

  /** A completed apply run calls exactly what its plan and the host at its start foretell, each call
      as often as that: whatever the schedule. */
  lemma CallsAreForetold(plan: Plan, env: Env, topo: seq<seq<nat>>, levels: seq<Level>, host: Host, manager: Manager,
                         acts: seq<Action>, c: Config<Local, Manager>)
    requires !env.dryRun && Prepared(plan, env, topo, levels)
    requires LevelsApart(SystemOf(plan, levels, env)) && Upstream(SystemOf(plan, levels, env))
    requires RunTo(SystemOf(plan, levels, env), host, manager, acts) == Some(c) && c.phase == Completed
    ensures multiset(c.manager.calls)
            == multiset(manager.calls) + Foretold(plan, env, topo, levels, host, |levels|)
  {
    hide LevelsApart, Upstream, RunTo, Prepared, LevelCalls, PastCalls, Foretold, JobOf, JobStep, JobShadow, JobSenses,
         JobWrites, JobMakes, Hints;
    CallsAreCounted(plan, levels, env, host, manager, acts, c);
    ShapeAlways(SystemOf(plan, levels, env), host, manager, acts);
    PastIsForetold(plan, env, topo, levels, host, manager, acts, c, |levels|);
    assert c.past[..|levels|] == c.past;
  }

  // ---------- one service ----------

  ghost function CallsAt(plan: Plan, env: Env, topo: seq<seq<nat>>, levels: seq<Level>, host: Host, i: nat, m: nat)
    : seq<Call>
    requires i < |levels| && m < |levels[i].tasks|
  {
    TaskCalls(JobOf(plan, levels[i].tasks[m]), host, ActedBefore(plan, env, Due(plan, env, host), topo, i))
  }

  lemma {:induction false} NoneInLevel(plan: Plan, tasks: seq<Task>, host: Host, changed: set<nat>, x: Call)
    requires forall m :: 0 <= m < |tasks| ==> x !in TaskCalls(JobOf(plan, tasks[m]), host, changed)
    ensures LevelForetold(plan, tasks, host, changed)[x] == 0
    decreases |tasks|
  {
    hide JobOf, TaskCalls;
    if tasks != [] {
      NoneInLevel(plan, tasks[..|tasks| - 1], host, changed, x);
      assert x !in multiset(TaskCalls(JobOf(plan, tasks[|tasks| - 1]), host, changed));
    }
  }

  lemma {:induction false} OneInLevel(plan: Plan, tasks: seq<Task>, host: Host, changed: set<nat>, x: Call, k: nat)
    requires k < |tasks|
    requires forall m :: 0 <= m < |tasks| && m != k ==> x !in TaskCalls(JobOf(plan, tasks[m]), host, changed)
    ensures LevelForetold(plan, tasks, host, changed)[x]
            == multiset(TaskCalls(JobOf(plan, tasks[k]), host, changed))[x]
    decreases |tasks|
  {
    hide JobOf, TaskCalls;
    var last := |tasks| - 1;
    if k == last {
      NoneInLevel(plan, tasks[..last], host, changed, x);
    } else {
      OneInLevel(plan, tasks[..last], host, changed, x, k);
      assert x !in multiset(TaskCalls(JobOf(plan, tasks[last]), host, changed));
    }
  }

  /** A call that one task alone may make is made as often as that task makes it. */
  lemma {:induction false} OneForetold(plan: Plan, env: Env, topo: seq<seq<nat>>, levels: seq<Level>, host: Host,
                                       x: Call, j: nat, k: nat, n: nat)
    requires n <= |levels| && j < |levels| && k < |levels[j].tasks|
    requires forall i: nat, m: nat :: i < n && m < |levels[i].tasks| && (i, m) != (j, k) ==>
               x !in CallsAt(plan, env, topo, levels, host, i, m)
    ensures Foretold(plan, env, topo, levels, host, n)[x]
            == if j < n then multiset(CallsAt(plan, env, topo, levels, host, j, k))[x] else 0
    decreases n
  {
    hide JobOf, TaskCalls, LevelForetold, ActedBefore, Due;
    if n > 0 {
      OneForetold(plan, env, topo, levels, host, x, j, k, n - 1);
      var changed := ActedBefore(plan, env, Due(plan, env, host), topo, n - 1);
      var tasks := levels[n - 1].tasks;
      forall m | 0 <= m < |tasks| && (j == n - 1 ==> m != k)
        ensures x !in TaskCalls(JobOf(plan, tasks[m]), host, changed) {
        assert x !in CallsAt(plan, env, topo, levels, host, n - 1, m);
      }
      if j == n - 1 { OneInLevel(plan, levels[n - 1].tasks, host, changed, x, k); }
      else { NoneInLevel(plan, levels[n - 1].tasks, host, changed, x); }
    }
  }

  predicate ConcernsUnit(x: Call, name: string) {
    x == EnableUnit(name) || x == StartUnit(name) || x == RestartUnit(name)
  }

  lemma OnlyItsService(job: Job, h: Host, changed: set<nat>, x: Call, name: string)
    requires ConcernsUnit(x, name) && x in TaskCalls(job, h, changed)
    ensures job.Single? && job.resource.Service? && job.resource.name == name
  {
    hide Fires, FileIsWanted, Filter;
  }

  lemma ServiceCallCounts(name: string, enabled: bool, started: bool, restartOn: seq<nat>, h: Host, changed: set<nat>)
    ensures var calls := multiset(TaskCalls(Single(Service(name, enabled, started, restartOn)), h, changed));
            && calls[EnableUnit(name)] == (if enabled && Cell.Enabled(name) !in h then 1 else 0)
            && calls[StartUnit(name)] == (if started && Active(name) !in h then 1 else 0)
            && calls[RestartUnit(name)] == (if started && Active(name) in h && Fires(restartOn, changed) then 1 else 0)
  {
    hide Fires;
  }

  lemma OneServiceCalls(plan: Plan, env: Env, topo: seq<seq<nat>>, levels: seq<Level>, host: Host, x: Call, j: nat,
                        k: nat, i: nat)
    requires Prepared(plan, env, topo, levels) && j < |levels| && k < |levels[j].tasks| && i in levels[j].tasks[k].ids
    requires i < |plan| && plan[i].resource.Service? && ConcernsUnit(x, plan[i].resource.name)
    requires forall u :: 0 <= u < |plan| && u != i && plan[u].resource.Service? ==>
               plan[u].resource.name != plan[i].resource.name
    ensures Foretold(plan, env, topo, levels, host, |levels|)[x]
            == multiset(CallsAt(plan, env, topo, levels, host, j, k))[x]
  {
    hide Prepared, Foretold, JobOf, TaskCalls, Due, ActedBefore;
    forall a: nat, m: nat | a < |levels| && m < |levels[a].tasks| && (a, m) != (j, k)
      ensures x !in CallsAt(plan, env, topo, levels, host, a, m)
    {
      OtherTasksAreOthers(plan, env, topo, levels, j, k, i, a, m);
      if x in CallsAt(plan, env, topo, levels, host, a, m) {
        OnlyItsService(JobOf(plan, levels[a].tasks[m]), host,
                       ActedBefore(plan, env, Due(plan, env, host), topo, a), x, plan[i].resource.name);
      }
    }
    OneForetold(plan, env, topo, levels, host, x, j, k, |levels|);
  }

  /** A completed apply run restarts a service that is to run once if it was running at the start and
      one of the ids it lists changed in an earlier level, starts it once if it was not running, and
      enables it once if that is wanted and was not so; otherwise it does none of these. No other
      service of the plan may have the same name. */
  lemma ServiceIsCalledFor(plan: Plan, env: Env, topo: seq<seq<nat>>, levels: seq<Level>, host: Host, manager: Manager,
                           acts: seq<Action>, c: Config<Local, Manager>, j: nat, i: nat)
    requires !env.dryRun && Prepared(plan, env, topo, levels)
    requires LevelsApart(SystemOf(plan, levels, env)) && Upstream(SystemOf(plan, levels, env))
    requires RunTo(SystemOf(plan, levels, env), host, manager, acts) == Some(c) && c.phase == Completed
    requires j < |topo| && i in topo[j] && i < |plan| && plan[i].resource.Service?
    requires !(plan[i].skip == InContainer && env.container)
    requires forall u :: 0 <= u < |plan| && u != i && plan[u].resource.Service? ==>
               plan[u].resource.name != plan[i].resource.name
    ensures j < |c.records|
    ensures var r, calls, acted := plan[i].resource, multiset(c.manager.calls) - multiset(manager.calls),
                                   c.records[j].changed;
            && calls[RestartUnit(r.name)]
               == (if r.started && Active(r.name) in host && Fires(r.restartOn, acted) then 1 else 0)
            && calls[StartUnit(r.name)] == (if r.started && Active(r.name) !in host then 1 else 0)
            && calls[EnableUnit(r.name)] == (if r.enabled && Cell.Enabled(r.name) !in host then 1 else 0)
  {
    hide LevelsApart, Upstream, RunTo, Prepared, Foretold, JobOf, SystemOf, TaskCalls, Fires, Due, ActedBefore, Skips;
    var r := plan[i].resource;
    LevelsOf(plan, env, topo, levels);
    LevelsOfSystem(plan, env, levels);
    ShapeAlways(SystemOf(plan, levels, env), host, manager, acts);
    CallsAreForetold(plan, env, topo, levels, host, manager, acts, c);
    ChangedIsForetold(plan, env, topo, levels, host, manager, acts, c, j);
    var k := TaskOfService(plan, env, topo, levels, j, i);
    OneServiceCalls(plan, env, topo, levels, host, RestartUnit(r.name), j, k, i);
    OneServiceCalls(plan, env, topo, levels, host, StartUnit(r.name), j, k, i);
    OneServiceCalls(plan, env, topo, levels, host, EnableUnit(r.name), j, k, i);
    ServiceCallCounts(r.name, r.enabled, r.started, r.restartOn, host, c.records[j].changed);
  }

  lemma TaskOfService(plan: Plan, env: Env, topo: seq<seq<nat>>, levels: seq<Level>, j: nat, i: nat) returns (k: nat)
    requires Prepared(plan, env, topo, levels) && j < |topo| && i in topo[j] && i < |plan|
    requires plan[i].resource.Service? && !(plan[i].skip == InContainer && env.container)
    ensures k < |levels[j].tasks| && levels[j].tasks[k].ids == [i]
    ensures JobOf(plan, levels[j].tasks[k]) == Single(plan[i].resource)
  {
    hide JobOf, Layered, Partition, Members;
    assert Grouping(plan, env, topo[j], levels[j]);
    k := TaskOf(plan, env, topo[j], levels[j], i);
    TaskOfLevel(plan, env, topo, levels, j, k);
    OneFamily(plan, env, topo[j], levels[j].tasks[k], i);
    TaskOfOne(plan, env, topo, levels, j, k, 0);
  }

  lemma OtherTasksAreOthers(plan: Plan, env: Env, topo: seq<seq<nat>>, levels: seq<Level>, j: nat, k: nat, i: nat,
                            a: nat, m: nat)
    requires Prepared(plan, env, topo, levels) && j < |levels| && k < |levels[j].tasks| && i in levels[j].tasks[k].ids
    requires a < |levels| && m < |levels[a].tasks| && (a, m) != (j, k) && i < |plan| && plan[i].resource.Service?
    requires forall u :: 0 <= u < |plan| && u != i && plan[u].resource.Service? ==>
               plan[u].resource.name != plan[i].resource.name
    ensures var job := JobOf(plan, levels[a].tasks[m]);
            !(job.Single? && job.resource.Service? && job.resource.name == plan[i].resource.name)
  {
    hide JobOf, Layered, Members, Skips, JobStep, JobShadow, JobSenses, JobWrites, JobMakes, Hints;
    TaskOfLevel(plan, env, topo, levels, a, m);
    ProperTaskFits(plan, env, topo[a], levels[a].tasks[m]);
    LevelsOf(plan, env, topo, levels);
    assert Position(SystemOf(plan, levels, env), a, m) && Position(SystemOf(plan, levels, env), j, k);
    OwnIds(plan, env, topo, levels, a, m, j, k, i);
    var job := JobOf(plan, levels[a].tasks[m]);
    if job.Single? { assert levels[a].tasks[m].ids == [levels[a].tasks[m].ids[0]]; }
  }

  // ---------- the definition a unit runs with ----------

  predicate StartsUnit(x: Call, name: string) { x == StartUnit(name) || x == RestartUnit(name) }

  /** Action `x` of the run is the step that starts or restarts the unit, with what the service
      manager had loaded for it; and the unit has not been started or restarted since. */
  ghost predicate StartedAt(plan: Plan, levels: seq<Level>, env: Env, host: Host, manager: Manager, acts: seq<Action>,
                            c: Config<Local, Manager>, name: string, x: int) {
    && 0 <= x < |acts|
    && var before := RunTo(SystemOf(plan, levels, env), host, manager, acts[..x]);
       var after := RunTo(SystemOf(plan, levels, env), host, manager, acts[..x + 1]);
       && before.Some? && after.Some?
       && |after.value.manager.calls| == |before.value.manager.calls| + 1 <= |c.manager.calls|
       && after.value.manager.calls <= c.manager.calls
       && StartsUnit(c.manager.calls[|before.value.manager.calls|], name)
       && (forall y :: |after.value.manager.calls| <= y < |c.manager.calls| ==> !StartsUnit(c.manager.calls[y], name))
       && var path := "/etc/systemd/system/" + name;
          name in c.manager.running
          && c.manager.running[name]
             == if path in before.value.manager.loaded then Some(before.value.manager.loaded[path]) else None
  }

  ghost predicate NotStarted(manager: Manager, c: Config<Local, Manager>, name: string) {
    && manager.calls <= c.manager.calls
    && (forall y :: |manager.calls| <= y < |c.manager.calls| ==> !StartsUnit(c.manager.calls[y], name))
    && (name in c.manager.running <==> name in manager.running)
    && (name in manager.running ==> c.manager.running[name] == manager.running[name])
  }

  lemma ShadowRuns(job: Job, local: Local, h: Host, m: Manager, name: string)
    ensures var m' := JobShadow(job, local, h, m);
            var path := "/etc/systemd/system/" + name;
            if exists x :: x in CallsOf(job, local) && StartsUnit(x, name)
            then |CallsOf(job, local)| == 1 && StartsUnit(CallsOf(job, local)[0], name) && name in m'.running
                 && m'.running[name] == if path in m.loaded then Some(m.loaded[path]) else None
            else (name in m'.running <==> name in m.running)
                 && (name in m.running ==> m'.running[name] == m.running[name])
  {
    if job.Single? && job.resource.Service? && local.ServiceStart? && (local.restart || local.start)
       && job.resource.name == name {
      assert StartsUnit(CallsOf(job, local)[0], name) && CallsOf(job, local)[0] in CallsOf(job, local);
    }
  }

  /** In every reachable configuration a unit runs with the definition that was loaded when the run
      last started or restarted it, and if the run did not, with what it ran with before. */
  lemma {:induction false} RunningSince(plan: Plan, levels: seq<Level>, env: Env, host: Host, manager: Manager,
                                        acts: seq<Action>, c: Config<Local, Manager>, name: string)
    requires RunTo(SystemOf(plan, levels, env), host, manager, acts) == Some(c)
    ensures NotStarted(manager, c, name) || exists x :: StartedAt(plan, levels, env, host, manager, acts, c, name, x)
    decreases |acts|
  {
    hide SystemOf, Do, Allowed, StartsUnit, NotStarted, StartedAt;
    if acts == [] {
      NotYet(plan, levels, env, host, manager, name);
    } else {
      var init, a := acts[..|acts| - 1], acts[|acts| - 1];
      var b := RunTo(SystemOf(plan, levels, env), host, manager, init).value;
      RunningSince(plan, levels, env, host, manager, init, b, name);
      if a.Step? { StepRuns(plan, levels, env, host, manager, acts, b, c, name); }
      else { ManagerStays(SystemOf(plan, levels, env), b, a); StillRuns(plan, levels, env, host, manager, acts, b, c,
                                                                        name); }
    }
  }

  lemma NotYet(plan: Plan, levels: seq<Level>, env: Env, host: Host, manager: Manager, name: string)
    ensures NotStarted(manager, Start(SystemOf(plan, levels, env), host, manager), name)
  {
    hide SkippedOutcomes, JobOf, JobStep, JobShadow, JobSenses, JobWrites, JobMakes, Hints;
  }

  lemma ManagerStays(sys: System<Local, Manager>, c: Config<Local, Manager>, a: Action)
    requires Allowed(sys, c, a) && !a.Step?
    ensures Do(sys, c, a).manager == c.manager
  {
    hide Outcomes, SkippedOutcomes, YesIds;
  }

  /** More calls, none of which starts the unit, change nothing. */
  lemma StillRuns(plan: Plan, levels: seq<Level>, env: Env, host: Host, manager: Manager, acts: seq<Action>,
                  b: Config<Local, Manager>, c: Config<Local, Manager>, name: string)
    requires acts != []
    requires var init := acts[..|acts| - 1];
             NotStarted(manager, b, name) || exists x :: StartedAt(plan, levels, env, host, manager, init, b, name, x)
    requires b.manager.calls <= c.manager.calls
    requires forall y :: |b.manager.calls| <= y < |c.manager.calls| ==> !StartsUnit(c.manager.calls[y], name)
    requires name in c.manager.running <==> name in b.manager.running
    requires name in b.manager.running ==> c.manager.running[name] == b.manager.running[name]
    ensures NotStarted(manager, c, name) || exists x :: StartedAt(plan, levels, env, host, manager, acts, c, name, x)
  {
    hide SystemOf, RunTo, StartsUnit;
    var init := acts[..|acts| - 1];
    if x :| StartedAt(plan, levels, env, host, manager, init, b, name, x) {
      assert init[..x] == acts[..x] && init[..x + 1] == acts[..x + 1];
      assert StartedAt(plan, levels, env, host, manager, acts, c, name, x);
    }
  }

  lemma StepRuns(plan: Plan, levels: seq<Level>, env: Env, host: Host, manager: Manager, acts: seq<Action>,
                 b: Config<Local, Manager>, c: Config<Local, Manager>, name: string)
    requires acts != [] && acts[|acts| - 1].Step?
    requires var init := acts[..|acts| - 1];
             && RunTo(SystemOf(plan, levels, env), host, manager, init) == Some(b)
             && (NotStarted(manager, b, name)
                 || exists x :: StartedAt(plan, levels, env, host, manager, init, b, name, x))
    requires RunTo(SystemOf(plan, levels, env), host, manager, acts) == Some(c)
    ensures NotStarted(manager, c, name) || exists x :: StartedAt(plan, levels, env, host, manager, acts, c, name, x)
  {
    hide JobStep, JobShadow, JobSenses, JobWrites, JobMakes, JobOf, Hints, Apply, NotStarted, CallsOf, StartsUnit;
    var k := acts[|acts| - 1].k;
    var job, local := JobOf(plan, levels[b.level].tasks[k]), b.states[k].local;
    ShadowRuns(job, local, b.host, b.manager, name);
    ShadowCalls(job, local, b.host, b.manager);
    assert c.manager == JobShadow(job, local, b.host, b.manager);
    if exists y :: y in CallsOf(job, local) && StartsUnit(y, name) {
      assert acts[..|acts|] == acts;
      assert StartedAt(plan, levels, env, host, manager, acts, c, name, |acts| - 1);
    } else {
      StillRuns(plan, levels, env, host, manager, acts, b, c, name);
    }
  }
}
