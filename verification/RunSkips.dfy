/** Which resources a run leaves out, and which share a task, in terms of their fields: `skip`
    and the container flag decide the former, the kind of resource the latter. Nothing is asked
    of the footprints, and runs may fail. */
module RunSkips {
  import opened HostModel
  import opened Run
  import opened RunReport
  import opened TopoLevels
  import opened Backends
  import opened BackendRuns
  import opened WholePlan

  // ---------- no task says Skipped ----------

  lemma BatchesSayYesOrNo(names: seq<string>, h: Host, a: Changed, b: Changed)
    requires a != Skipped && b != Skipped
    ensures Skipped !in Backends.BatchVerdicts(names, h, a, b)
  {
  }

  lemma StepSaysYesOrNo(job: Job, env: Env, local: Local, h: Host, changed: set<nat>)
    requires Skipped !in Committed(local)
    ensures match JobStep(job, env, local, h, changed)
            case Next(next, _) => Skipped !in Committed(next)
            case Finish(v, _) => Skipped !in v
            case Fail => true
  {
    hide Ancestors, TmpPath, Filter, Backends.BatchVerdicts, Packages, ParentAt, Chowned, AncestorIsFile;
    if !Sensing(local) {
      ActingKeepsVerdict(job, env, local, h, changed);
    } else if job.Install? {
      BatchesSayYesOrNo(job.names, h, No, Yes);
    } else if job.Remove? {
      BatchesSayYesOrNo(job.names, h, Yes, No);
    }
  }

  predicate SaysYesOrNo(s: TaskState<Local>) {
    match s
    case Running(local) => Skipped !in Committed(local)
    case Finished(v) => Skipped !in v
    case Joined(v) => Skipped !in v
    case _ => true
  }

  ghost predicate AllSayYesOrNo(c: Config<Local, Manager>) {
    forall k :: 0 <= k < |c.states| ==> SaysYesOrNo(c.states[k])
  }

  // ---------- where outcomes come from ----------

  ghost predicate LeftOut(levels: seq<Level>, upTo: nat, i: nat) {
    exists j :: 0 <= j <= upTo && j < |levels| && i in levels[j].skipped
  }

  ghost predicate Tasked(levels: seq<Level>, upTo: nat, i: nat) {
    exists j, k :: 0 <= j <= upTo && j < |levels| && 0 <= k < |levels[j].tasks| && i in levels[j].tasks[k].ids
  }

  ghost predicate Comes(levels: seq<Level>, upTo: nat, o: Outcome) {
    if o.changed == Skipped then LeftOut(levels, upTo, o.id) else Tasked(levels, upTo, o.id)
  }

  ghost predicate AllCome(levels: seq<Level>, c: Config<Local, Manager>) {
    forall o :: o in c.report ==> Comes(levels, c.level, o)
  }

  lemma ComesLater(levels: seq<Level>, a: nat, b: nat, o: Outcome)
    requires Comes(levels, a, o) && a <= b
    ensures Comes(levels, b, o)
  {
    if o.changed != Skipped {
      var j, k :| 0 <= j <= a && j < |levels| && 0 <= k < |levels[j].tasks| && o.id in levels[j].tasks[k].ids;
    }
  }

  lemma SkippedCome(sys: System<Local, Manager>, levels: seq<Level>, level: nat, o: Outcome)
    requires level < |levels| && o in SkippedOutcomes(sys.hints, levels[level].skipped)
    ensures Comes(levels, level, o)
  {
    SkippedIds(sys.hints, levels[level].skipped);
    IdIsListed(SkippedOutcomes(sys.hints, levels[level].skipped), o);
  }

  lemma {:induction false} VerdictsCome(hints: seq<string>, ids: seq<nat>, verdicts: seq<Changed>, o: Outcome)
    requires |ids| == |verdicts| && o in Outcomes(hints, ids, verdicts) && Skipped !in verdicts
    ensures o.id in ids && o.changed != Skipped
    decreases |ids|
  {
    if o != Outcome(ids[0], Hint(hints, ids[0]), verdicts[0]) { VerdictsCome(hints, ids[1..], verdicts[1..], o); }
  }

  lemma StepKeepsSaying(plan: Plan, levels: seq<Level>, env: Env, c: Config<Local, Manager>, k: nat)
    requires AllSayYesOrNo(c) && AllCome(levels, c) && Allowed(SystemOf(plan, levels, env), c, Step(k))
    ensures var c' := Do(SystemOf(plan, levels, env), c, Step(k)); AllSayYesOrNo(c') && AllCome(levels, c')
  {
    hide JobStep, JobShadow, JobSenses, JobWrites, JobMakes, JobOf, Hints, Apply, Committed, Comes;
    assert SaysYesOrNo(c.states[k]);
    StepSaysYesOrNo(JobOf(plan, levels[c.level].tasks[k]), env, c.states[k].local, c.host, c.changed);
  }

  lemma JoinKeepsSaying(plan: Plan, levels: seq<Level>, env: Env, c: Config<Local, Manager>, k: nat)
    requires AllSayYesOrNo(c) && AllCome(levels, c) && Allowed(SystemOf(plan, levels, env), c, Join(k))
    ensures var c' := Do(SystemOf(plan, levels, env), c, Join(k)); AllSayYesOrNo(c') && AllCome(levels, c')
  {
    hide JobStep, JobShadow, JobSenses, JobWrites, JobMakes, JobOf, Hints, Committed;
    var sys := SystemOf(plan, levels, env);
    assert SaysYesOrNo(c.states[k]);
    if c.states[k].Finished? {
      var v := c.states[k].verdicts;
      forall o | o in Outcomes(sys.hints, levels[c.level].tasks[k].ids, v) ensures Comes(levels, c.level, o) {
        VerdictsCome(sys.hints, levels[c.level].tasks[k].ids, v, o);
      }
    }
  }

  lemma BeginKeepsSaying(sys: System<Local, Manager>, level: nat, host: Host, manager: Manager, changed: set<nat>,
                         report: seq<Outcome>, records: seq<Record>, past: seq<seq<nat>>)
    requires forall o :: o in report ==> Comes(sys.levels, level, o)
    ensures var c' := BeginLevel(sys, level, host, manager, changed, report, records, past);
            AllSayYesOrNo(c') && AllCome(sys.levels, c')
  {
    hide Comes, SkippedOutcomes;
    if level < |sys.levels| {
      forall o | o in SkippedOutcomes(sys.hints, sys.levels[level].skipped) ensures Comes(sys.levels, level, o) {
        SkippedCome(sys, sys.levels, level, o);
      }
    }
  }

  lemma ActionKeepsSaying(plan: Plan, levels: seq<Level>, env: Env, c: Config<Local, Manager>, a: Action)
    requires AllSayYesOrNo(c) && AllCome(levels, c) && Allowed(SystemOf(plan, levels, env), c, a)
    ensures var c' := Do(SystemOf(plan, levels, env), c, a); AllSayYesOrNo(c') && AllCome(levels, c')
  {
    hide JobStep, JobShadow, JobSenses, JobWrites, JobMakes, JobOf, Hints, Comes, YesIds, Outcomes, BeginLevel;
    if a.Step? { StepKeepsSaying(plan, levels, env, c, a.k); }
    else if a.Join? { JoinKeepsSaying(plan, levels, env, c, a.k); }
    else if a.EndLevel? {
      forall o | o in c.report ensures Comes(levels, c.level + 1, o) { ComesLater(levels, c.level, c.level + 1, o); }
      BeginKeepsSaying(SystemOf(plan, levels, env), c.level + 1, c.host, c.manager,
                       c.changed + YesIds(c.report[c.records[c.level].from..]), c.report, c.records,
                       c.past + [c.taken]);
    }
  }

  lemma {:induction false} OutcomesCome(plan: Plan, levels: seq<Level>, env: Env, host: Host, manager: Manager,
                                        acts: seq<Action>, c: Config<Local, Manager>)
    requires RunTo(SystemOf(plan, levels, env), host, manager, acts) == Some(c)
    ensures AllSayYesOrNo(c) && AllCome(levels, c)
    decreases |acts|
  {
    hide SystemOf, Do, Allowed, AllSayYesOrNo, AllCome, BeginLevel;
    if acts == [] {
      LevelsOfSystem(plan, env, levels);
      BeginKeepsSaying(SystemOf(plan, levels, env), 0, host, manager, {}, [], [], []);
    } else {
      var before := RunTo(SystemOf(plan, levels, env), host, manager, acts[..|acts| - 1]).value;
      OutcomesCome(plan, levels, env, host, manager, acts[..|acts| - 1], before);
      ActionKeepsSaying(plan, levels, env, before, acts[|acts| - 1]);
    }
  }

  // ---------- the theorems ----------

  /** In every reachable configuration of an apply run or a dry run, an outcome is Skipped if and
      only if its resource asks to be skipped in a container and this is one. */
  lemma SkippedIffInContainer(plan: Plan, env: Env, topo: seq<seq<nat>>, levels: seq<Level>, host: Host,
                              manager: Manager, acts: seq<Action>, c: Config<Local, Manager>, o: Outcome)
    requires Prepared(plan, env, topo, levels)
    requires RunTo(SystemOf(plan, levels, env), host, manager, acts) == Some(c) && o in c.report
    ensures o.id < |plan| && (o.changed == Skipped <==> plan[o.id].skip == InContainer && env.container)
  {
    hide RunTo, SystemOf, Layered, Partition, Members;
    OutcomesCome(plan, levels, env, host, manager, acts, c);
    assert Comes(levels, c.level, o);
    if o.changed == Skipped {
      var j :| 0 <= j <= c.level && j < |levels| && o.id in levels[j].skipped;
      assert Grouping(plan, env, topo[j], levels[j]);
      SkippedAreSkipped(plan, env, topo[j]);
    } else {
      var j, k :| 0 <= j <= c.level && j < |levels| && 0 <= k < |levels[j].tasks| && o.id in levels[j].tasks[k].ids;
      assert Grouping(plan, env, topo[j], levels[j]) && ProperTask(plan, env, topo[j], levels[j].tasks[k]);
    }
  }

  /** So outside a container nothing is skipped, and a resource that never asks for it is
      converged by every completed run. */
  lemma NeverIsConverged(plan: Plan, env: Env, topo: seq<seq<nat>>, levels: seq<Level>, host: Host, manager: Manager,
                         acts: seq<Action>, c: Config<Local, Manager>, i: nat)
    requires Prepared(plan, env, topo, levels) && i < |plan| && (plan[i].skip == Never || !env.container)
    requires RunTo(SystemOf(plan, levels, env), host, manager, acts) == Some(c) && c.phase == Completed
    ensures exists o :: o in c.report && o.id == i && (o.changed == Yes || o.changed == No)
    ensures !env.container ==> Count(c.report, Skipped) == 0
  {
    hide RunTo, SystemOf, Prepared, Count, Ids;
    PlanReportConserved(plan, env, topo, levels, host, manager, acts, c);
    assert i in Ids(c.report);
    var m := OutcomeAt(c.report, i);
    SkippedIffInContainer(plan, env, topo, levels, host, manager, acts, c, c.report[m]);
    CountIsPositions(c.report, Skipped);
    if !env.container {
      forall m | 0 <= m < |c.report| ensures c.report[m].changed != Skipped {
        SkippedIffInContainer(plan, env, topo, levels, host, manager, acts, c, c.report[m]);
      }
      assert (set m | 0 <= m < |c.report| && c.report[m].changed == Skipped) == {};
    }
  }

  lemma OutcomeAt(report: seq<Outcome>, i: nat) returns (m: nat)
    requires i in Ids(report)
    ensures m < |report| && report[m].id == i
  {
    m :| m < |Ids(report)| && Ids(report)[m] == i;
  }

  /** Which resources of a level share a task: packages to install, packages to remove, and
      nothing else. */
  lemma TasksAreByKind(plan: Plan, env: Env, level: seq<nat>, lv: Level, t: Task, i: nat, j: nat)
    requires Known(plan, level) && Grouping(plan, env, level, lv) && t in lv.tasks && i in t.ids
    requires j in level && !(plan[j].skip == InContainer && env.container)
    ensures i in level && i < |plan| && j < |plan|
    ensures j in t.ids <==> (|| j == i || (plan[i].resource.AptPackage? && plan[j].resource.AptPackage?)
                             || (plan[i].resource.AbsentAptPackage? && plan[j].resource.AbsentAptPackage?))
  {
    hide SkippedOf;
    assert ProperTask(plan, env, level, t);
    OneFamily(plan, env, level, t, i);
    if j in t.ids { OneFamily(plan, env, level, t, j); }
    if FamilyOf(plan[i].resource) == FamilyOf(plan[j].resource) { AllMembers(plan, env, level, j); }
  }

  lemma {:induction false} AllMembers(plan: Plan, env: Env, level: seq<nat>, j: nat)
    requires Known(plan, level) && j in level && j < |plan| && !Skips(plan[j], env)
    ensures j in Members(plan, env, level, FamilyOf(plan[j].resource))
    decreases |level|
  {
    hide Skips, FamilyOf;
    var init := level[..|level| - 1];
    if j in init { AllMembers(plan, env, init, j); }
  }
}
