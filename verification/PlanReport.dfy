/** What a run of a plan reports, read off the plan and the host it starts on: in a first
    run, in a dry run, and in a second run after a completed one. */
module PlanReport {
  import opened HostModel
  import opened TopoLevels
  import opened Run
  import opened RunReport
  import opened RunSchedule
  import opened RunViews
  import opened RunModes
  import opened RunOrder
  import opened Backends
  import opened BackendRuns
  import opened WholePlan

  /** The resources that have something to mend on this host. */
  function Due(plan: Plan, env: Env, host: Host): set<nat> {
    set i | 0 <= i < |plan| && !Skips(plan[i], env) && NeedsWork(plan[i].resource, host)
  }

  /** What reports Yes in a run, where `due` is what has something to mend: a command without
      `trigger_on`, what is due, and whatever lists such a resource of a strictly earlier level. */
  ghost predicate Acts(plan: Plan, env: Env, due: set<nat>, topo: seq<seq<nat>>, j: nat, i: nat)
    decreases j
  {
    && i < |plan| && !Skips(plan[i], env)
    && (|| (plan[i].resource.Command? && plan[i].resource.triggerOn.None?)
        || i in due
        || exists t, a: nat ::
             a < j && a < |topo| && t in topo[a] && t in Triggers(plan[i].resource) && Acts(plan, env, due, topo, a, t))
  }

  /** Some id of the list acts in an earlier level. */
  ghost predicate SomeActs(plan: Plan, env: Env, due: set<nat>, topo: seq<seq<nat>>, j: nat, ids: seq<nat>) {
    exists t, a: nat :: a < j && a < |topo| && t in topo[a] && t in ids && Acts(plan, env, due, topo, a, t)
  }

  ghost predicate ReportsActing(plan: Plan, env: Env, due: set<nat>, topo: seq<seq<nat>>, j: nat, o: Outcome) {
    && o.id < |plan|
    && (o.changed == Skipped <==> Skips(plan[o.id], env))
    && (o.changed == Yes <==> Acts(plan, env, due, topo, j, o.id))
  }

  // ---------- one level ----------

  /** A foreseen outcome, read off the plan. */
  lemma ForeseenIsTriggered(plan: Plan, env: Env, host: Host, topo: seq<seq<nat>>, levels: seq<Level>, j: nat,
                            changed: set<nat>, o: Outcome)
    requires Prepared(plan, env, topo, levels) && j < |topo|
    requires Foreseen(VerdictsOf(plan), levels[j], host, changed, o)
    ensures o.id < |plan|
    ensures o.changed == Skipped <==> Skips(plan[o.id], env)
    ensures o.changed == Yes <==>
            (!Skips(plan[o.id], env) && (Retriggered(plan[o.id].resource, changed)
                                         || NeedsWork(plan[o.id].resource, host)))
  {
    hide Layered, Partition, NeedsWork, Retriggered, Verdicts;
    assert Grouping(plan, env, topo[j], levels[j]);
    LevelIsSplit(plan, env, topo[j]);
    SkippedAreSkipped(plan, env, topo[j]);
    if !(o.changed == Skipped && o.id in levels[j].skipped) {
      var verdicts := VerdictsOf(plan);
      var k, x :| 0 <= k < |levels[j].tasks| && 0 <= x < |levels[j].tasks[k].ids|
        == |verdicts(levels[j].tasks[k], host, changed)|
                  && o.id == levels[j].tasks[k].ids[x] && o.changed == verdicts(levels[j].tasks[k], host, changed)[x];
      TaskOutcome(plan, env, topo[j], levels[j].tasks[k], host, changed, x);
    }
  }

  lemma TaskOutcome(plan: Plan, env: Env, level: seq<nat>, t: Task, host: Host, changed: set<nat>, x: nat)
    requires Known(plan, level) && ProperTask(plan, env, level, t)
    requires x < |t.ids| == |Verdicts(JobOf(plan, t), host, changed)|
    ensures t.ids[x] < |plan| && !Skips(plan[t.ids[x]], env)
    ensures var r := plan[t.ids[x]].resource;
            Verdicts(JobOf(plan, t), host, changed)[x] ==
            if Retriggered(r, changed) || NeedsWork(r, host) then Yes else No
  {
    hide JobOf, Verdicts, JobFits;
    assert t.ids[x] in t.ids;
    ProperTaskFits(plan, env, level, t);
    JobOutcome(plan, t.ids, JobOf(plan, t), host, changed, x);
  }

  lemma JobOutcome(plan: Plan, ids: seq<nat>, job: Job, host: Host, changed: set<nat>, x: nat)
    requires JobFits(plan, ids, job) && x < |ids| == |Verdicts(job, host, changed)|
    ensures var r := plan[ids[x]].resource;
            Verdicts(job, host, changed)[x] == if Retriggered(r, changed) || NeedsWork(r, host) then Yes else No
  {
    hide FileGoal, DirectoryGoal, ServiceGoal, AnyChanged;
  }

  /** What a run reported Yes before level `j`, level by level. */
  lemma {:induction false} BeforeIsSegments(records: seq<Record>, report: seq<Outcome>, j: nat, o: Outcome)
    requires Offsets(records, report) && j < |records|
    ensures o in Before(records, report, j) <==> exists a: nat :: a < j && o in Segment(records, report, a)
    decreases j
  {
    if j > 0 {
      BeforeIsSegments(records, report, j - 1, o);
      BeforeGrows(records, report, j - 1);
    } else {
      assert Before(records, report, 0) == [];
    }
  }

  /** Whether a trigger fires in level `j`, given what is known of the earlier levels. */
  lemma FiresWhenSomeActs(plan: Plan, env: Env, due: set<nat>, topo: seq<seq<nat>>, levels: seq<Level>,
                          hints: seq<string>, records: seq<Record>, report: seq<Outcome>, j: nat, ids: seq<nat>)
    requires Partition(topo, |plan|) && Grouped(levels, topo)
    requires PastOk(hints, levels, records, report) && j < |records|
    requires forall a: nat, o :: a < j && o in Segment(records, report, a) ==> ReportsActing(plan, env, due, topo, a, o)
    ensures AnyChanged(YesIds(Before(records, report, j)), ids) <==> SomeActs(plan, env, due, topo, j, ids)
  {
    hide Acts, Segment, Before, Partition, FinishedLevel;
    YesIdsAnyChanged(Before(records, report, j), ids);
    if ReportedYes(Before(records, report, j), ids) {
      var o :| o in Before(records, report, j) && o.changed == Yes && o.id in ids;
      BeforeIsSegments(records, report, j, o);
      var a: nat :| a < j && o in Segment(records, report, a);
      assert ReportsActing(plan, env, due, topo, a, o);
      SegmentIds(hints, levels, records, report, topo, |plan|, a);
      IdIsListed(Segment(records, report, a), o);
      assert a < |topo| && o.id in topo[a] && Acts(plan, env, due, topo, a, o.id);
    }
    if SomeActs(plan, env, due, topo, j, ids) {
      var t, a: nat :| a < j && a < |topo| && t in topo[a] && t in ids && Acts(plan, env, due, topo, a, t);
      SegmentIds(hints, levels, records, report, topo, |plan|, a);
      var found := Ids(Segment(records, report, a));
      var m :| 0 <= m < |found| && found[m] == t;
      var o := Segment(records, report, a)[m];
      assert o in Segment(records, report, a) && ReportsActing(plan, env, due, topo, a, o);
      BeforeIsSegments(records, report, j, o);
      assert o.id == t && o.changed == Yes;
    }
  }

  /** Level by level, what acts reports Yes. */
  lemma {:induction false} SegmentReports(plan: Plan, env: Env, host: Host, topo: seq<seq<nat>>, levels: seq<Level>,
                                          hints: seq<string>, records: seq<Record>, report: seq<Outcome>, j: nat,
                                          o: Outcome)
    requires Prepared(plan, env, topo, levels) && PastOk(hints, levels, records, report) && |records| <= |levels| + 1
    requires forall a: nat, x :: a + 1 < |records| && x in Segment(records, report, a) ==>
               Foreseen(VerdictsOf(plan), levels[a], host, YesIds(Before(records, report, a)), x)
    requires j + 1 < |records| && o in Segment(records, report, j)
    ensures ReportsActing(plan, env, Due(plan, env, host), topo, j, o)
    decreases j
  {
    hide Prepared, PastOk, Foreseen, Segment, Before, YesIds, Skips, VerdictsOf, ReportsActing, NeedsWork, Retriggered,
         Due;
    var due := Due(plan, env, host);
    LevelsOf(plan, env, topo, levels);
    forall a: nat, x | a < j && x in Segment(records, report, a) ensures ReportsActing(plan, env, due, topo, a, x) {
      SegmentReports(plan, env, host, topo, levels, hints, records, report, a, x);
    }
    ForeseenIsTriggered(plan, env, host, topo, levels, j, YesIds(Before(records, report, j)), o);
    ActsByTriggers(plan, env, host, topo, levels, hints, records, report, j, o);
  }

  lemma LevelsOf(plan: Plan, env: Env, topo: seq<seq<nat>>, levels: seq<Level>)
    requires Prepared(plan, env, topo, levels)
    ensures |levels| == |topo| && Partition(topo, |plan|) && Grouped(levels, topo)
  {
  }

  lemma ActsByTriggers(plan: Plan, env: Env, host: Host, topo: seq<seq<nat>>, levels: seq<Level>, hints: seq<string>,
                       records: seq<Record>, report: seq<Outcome>, j: nat, o: Outcome)
    requires Partition(topo, |plan|) && Grouped(levels, topo)
    requires PastOk(hints, levels, records, report) && j < |records| && o.id < |plan|
    requires forall a: nat, x :: a < j && x in Segment(records, report, a) ==>
               ReportsActing(plan, env, Due(plan, env, host), topo, a, x)
    requires o.changed == Skipped <==> Skips(plan[o.id], env)
    requires o.changed == Yes <==>
             (!Skips(plan[o.id], env)
              && (Retriggered(plan[o.id].resource, YesIds(Before(records, report, j)))
                  || NeedsWork(plan[o.id].resource, host)))
    ensures ReportsActing(plan, env, Due(plan, env, host), topo, j, o)
  {
    hide Partition, Grouped, PastOk, Segment, Before, YesIds, NeedsWork;
    var r, due := plan[o.id].resource, Due(plan, env, host);
    FiresWhenSomeActs(plan, env, due, topo, levels, hints, records, report, j, Triggers(r));
    assert Acts(plan, env, due, topo, j, o.id) <==>
           !Skips(plan[o.id], env)
           && ((r.Command? && r.triggerOn.None?) || o.id in due || SomeActs(plan, env, due, topo, j, Triggers(r)));
  }

  // ---------- whole runs ----------

  /** What a run reports, apply run or dry run: in every reachable configuration, also after
      errors and cuts, each outcome of a finished level is Skipped for what is skipped, Yes for
      exactly what acts given what needs mending on the host at the start, and No otherwise. */
  lemma RunReports(plan: Plan, env: Env, topo: seq<seq<nat>>, levels: seq<Level>, host: Host, manager: Manager,
                   acts: seq<Action>, c: Config<Local, Manager>, j: nat, o: Outcome)
    requires Prepared(plan, env, topo, levels)
    requires LevelsApart(SystemOf(plan, levels, env)) && Upstream(SystemOf(plan, levels, env))
    requires RunTo(SystemOf(plan, levels, env), host, manager, acts) == Some(c)
    requires j + 1 < |c.records| && o in Segment(c.records, c.report, j)
    ensures j < |topo| && o.id in topo[j] && o.id < |plan|
    ensures o.changed == Skipped <==> Skips(plan[o.id], env)
    ensures o.changed == Yes <==> Acts(plan, env, Due(plan, env, host), topo, j, o.id)
  {
    hide LevelsApart, Upstream, Framed, Foretells, Foreseen, Segment, Before, Prepared, PastOk, NowOk, Acts, Due,
         JobOf, VerdictsOf, Partition, Grouped;
    var sys := SystemOf(plan, levels, env);
    SystemIsFramed(plan, levels, env);
    VerdictsAreForetold(plan, levels, env);
    LevelsOf(plan, env, topo, levels);
    InvAlways(sys, host, manager, acts);
    ShapeAlways(sys, host, manager, acts);
    forall a: nat, x | a + 1 < |c.records| && x in Segment(c.records, c.report, a)
      ensures Foreseen(VerdictsOf(plan), levels[a], host, YesIds(Before(c.records, c.report, a)), x)
    {
      OutcomesAreForeseen(sys, VerdictsOf(plan), host, manager, acts, c, a, x);
    }
    SegmentReports(plan, env, host, topo, levels, sys.hints, c.records, c.report, j, o);
    SegmentIds(sys.hints, levels, c.records, c.report, topo, |plan|, j);
    IdIsListed(Segment(c.records, c.report, j), o);
  }

  /** What has acted before level `j`. */
  ghost function ActedBefore(plan: Plan, env: Env, due: set<nat>, topo: seq<seq<nat>>, j: nat): set<nat> {
    set i | 0 <= i < |plan| && ActsEarlier(plan, env, due, topo, j, i)
  }

  ghost predicate ActsEarlier(plan: Plan, env: Env, due: set<nat>, topo: seq<seq<nat>>, j: nat, i: nat) {
    exists a: nat :: a < j && a < |topo| && i in topo[a] && Acts(plan, env, due, topo, a, i)
  }

  /** So the change set a level starts with is a function of plan and starting host as well. */
  lemma ChangedIsForetold(plan: Plan, env: Env, topo: seq<seq<nat>>, levels: seq<Level>, host: Host, manager: Manager,
                          acts: seq<Action>, c: Config<Local, Manager>, j: nat)
    requires Prepared(plan, env, topo, levels)
    requires LevelsApart(SystemOf(plan, levels, env)) && Upstream(SystemOf(plan, levels, env))
    requires RunTo(SystemOf(plan, levels, env), host, manager, acts) == Some(c) && j < |c.records|
    ensures c.records[j].changed == ActedBefore(plan, env, Due(plan, env, host), topo, j)
  {
    hide LevelsApart, Upstream, RunTo, Segment, Before, Prepared, PastOk, NowOk, Acts, Due, JobOf, Partition, Grouped,
         SystemOf;
    var sys, due := SystemOf(plan, levels, env), Due(plan, env, host);
    LevelsOf(plan, env, topo, levels);
    LevelsOfSystem(plan, env, levels);
    InvAlways(sys, host, manager, acts);
    ChangedIsReported(sys.hints, sys.levels, c.records, c.report, j);
    PastHasOffsets(sys.hints, sys.levels, c.records, c.report);
    forall i: nat
      ensures i in YesIds(Before(c.records, c.report, j)) <==> i < |plan| && ActsEarlier(plan, env, due, topo, j, i)
    {
      if i in YesIds(Before(c.records, c.report, j)) {
        var o :| o in Before(c.records, c.report, j) && o.changed == Yes && o.id == i;
        BeforeIsSegments(c.records, c.report, j, o);
        var a: nat :| a < j && o in Segment(c.records, c.report, a);
        RunReports(plan, env, topo, levels, host, manager, acts, c, a, o);
      }
      if a: nat :| i < |plan| && a < j && a < |topo| && i in topo[a] && Acts(plan, env, due, topo, a, i) {
        SegmentIds(sys.hints, levels, c.records, c.report, topo, |plan|, a);
        var o := OutcomeOf(Segment(c.records, c.report, a), i);
        RunReports(plan, env, topo, levels, host, manager, acts, c, a, o);
        BeforeIsSegments(c.records, c.report, j, o);
      }
    }
  }

  lemma PastHasOffsets(hints: seq<string>, levels: seq<Level>, records: seq<Record>, report: seq<Outcome>)
    requires PastOk(hints, levels, records, report)
    ensures Offsets(records, report)
  {
  }

  // ---------- what a completed run leaves to do ----------

  /** The files whose wanted mode the chown after the chmod undoes, among what a run reported Yes. */
  function Undone(plan: Plan, env: Env, report: seq<Outcome>): set<nat> {
    set o | o in report && o.changed == Yes && o.id < |plan| && !Skips(plan[o.id], env)
            && IsFileLike(plan[o.id].resource) && !Attainable(Spec(plan[o.id].resource)) :: o.id
  }

  lemma TaskLeaves(plan: Plan, env: Env, level: seq<nat>, levels: seq<Level>, t: Task, host: Host, changed: set<nat>,
                   n: nat, x: nat, h: Host)
    requires !env.dryRun && Reflexive(env.apt) && Known(plan, level) && ProperTask(plan, env, level, t)
    requires Alone(SystemOf(plan, levels, env), t, host, changed, n).0.Finished?
    requires x < |t.ids| == |Alone(SystemOf(plan, levels, env), t, host, changed, n).0.verdicts|
    requires Agree(Alone(SystemOf(plan, levels, env), t, host, changed, n).1, h, SystemOf(plan, levels, env).senses(t))
    ensures t.ids[x] < |plan|
    ensures var r, v := plan[t.ids[x]].resource, Alone(SystemOf(plan, levels, env), t, host, changed, n).0.verdicts[x];
            NeedsWork(r, h) <==> IsFileLike(r) && v == Yes && !Attainable(Spec(r))
  {
    hide Alone, JobStep, JobShadow, JobWrites, JobMakes, JobOf, Hints, Reflexive, Goal, FileVerdictFits, NeedsWork;
    FinishedMeansGoal(plan, levels, env, t, host, changed, n);
    var (s, left) := Alone(SystemOf(plan, levels, env), t, host, changed, n);
    assert Alike(left, h, JobSenses(JobOf(plan, t)));
    ProperTaskFits(plan, env, level, t);
    GoalLeaves(plan, t.ids, JobOf(plan, t), s.verdicts, x, left, h);
  }

  lemma GoalLeaves(plan: Plan, ids: seq<nat>, job: Job, verdicts: seq<Changed>, x: nat, left: Host, h: Host)
    requires JobFits(plan, ids, job) && x < |ids| == |verdicts|
    requires Goal(job, left) && FileVerdictFits(job, verdicts, left) && Alike(left, h, JobSenses(job))
    ensures var r := plan[ids[x]].resource;
            NeedsWork(r, h) <==> IsFileLike(r) && verdicts[x] == Yes && !Attainable(Spec(r))
  {
    hide FileGoal, FileResult, DirectoryGoal, ServiceGoal, Attainable, Ancestors, TmpPath;
    var r := plan[ids[x]].resource;
    match job
    case Install(names) => assert Same(left, h, Package(names[x]));
    case Remove(names) => assert Same(left, h, Package(names[x]));
    case Single(_) =>
      NeedsWorkAlike(r, left, h);
      if IsFileLike(r) && verdicts[x] == Yes { ResultIsGoalIff(Spec(r), left); }
    case Malformed =>
  }

  lemma NotSkippedHere(plan: Plan, env: Env, topo: seq<seq<nat>>, levels: seq<Level>, j: nat, o: Outcome)
    requires Prepared(plan, env, topo, levels) && j < |topo| && o.id < |plan| && !Skips(plan[o.id], env)
    ensures o !in SkippedOutcomes(SystemOf(plan, levels, env).hints, levels[j].skipped)
  {
    hide Layered, Partition, Skips;
    assert Grouping(plan, env, topo[j], levels[j]);
    SkippedAreSkipped(plan, env, topo[j]);
    var hints := SystemOf(plan, levels, env).hints;
    SkippedIds(hints, levels[j].skipped);
    if o in SkippedOutcomes(hints, levels[j].skipped) { IdIsListed(SkippedOutcomes(hints, levels[j].skipped), o); }
  }

  lemma TaskOfLevel(plan: Plan, env: Env, topo: seq<seq<nat>>, levels: seq<Level>, j: nat, k: nat)
    requires Prepared(plan, env, topo, levels) && j < |topo| && k < |levels[j].tasks|
    ensures Known(plan, topo[j]) && ProperTask(plan, env, topo[j], levels[j].tasks[k])
  {
    hide Layered, Partition;
    assert Grouping(plan, env, topo[j], levels[j]);
  }

  /** The host a completed apply run leaves, resource by resource. */
  lemma ResourceLeaves(plan: Plan, env: Env, topo: seq<seq<nat>>, levels: seq<Level>, host: Host, manager: Manager,
                       acts: seq<Action>, c: Config<Local, Manager>, j: nat, o: Outcome)
    requires !env.dryRun && Reflexive(env.apt) && Prepared(plan, env, topo, levels)
    requires LevelsApart(SystemOf(plan, levels, env)) && Downstream(SystemOf(plan, levels, env))
    requires RunTo(SystemOf(plan, levels, env), host, manager, acts) == Some(c) && c.phase == Completed
    requires j < |topo| && o in Segment(c.records, c.report, j) && o.id < |plan| && !Skips(plan[o.id], env)
    ensures var r := plan[o.id].resource;
            NeedsWork(r, c.host) <==> IsFileLike(r) && o.changed == Yes && !Attainable(Spec(r))
  {
    hide LevelsApart, Downstream, Framed, LevelView, Segment, Prepared, JobOf, Alone, Reflexive, NeedsWork, Attainable,
         ProperTask, Skips;
    var sys := SystemOf(plan, levels, env);
    SystemIsFramed(plan, levels, env);
    LevelsOf(plan, env, topo, levels);
    ViewsAlways(sys, host, manager, acts);
    NotSkippedHere(plan, env, topo, levels, j, o);
    var k, x := OutcomeComesFromTask(sys, c, j, o);
    TaskOfLevel(plan, env, topo, levels, j, k);
    StaysAsLeft(sys, c, j, k);
    TaskLeaves(plan, env, topo[j], levels, levels[j].tasks[k], c.records[j].host, c.records[j].changed, c.past[j][k],
               x, c.host);
  }

  /** After a completed apply run exactly those files need mending whose wanted mode the run
      itself could not attain: any other resource is as wanted. */
  lemma RunLeaves(plan: Plan, env: Env, topo: seq<seq<nat>>, levels: seq<Level>, host: Host, manager: Manager,
                  acts: seq<Action>, c: Config<Local, Manager>)
    requires !env.dryRun && Reflexive(env.apt) && Prepared(plan, env, topo, levels)
    requires LevelsApart(SystemOf(plan, levels, env)) && Downstream(SystemOf(plan, levels, env))
    requires RunTo(SystemOf(plan, levels, env), host, manager, acts) == Some(c) && c.phase == Completed
    ensures Due(plan, env, c.host) == Undone(plan, env, c.report)
  {
    hide LevelsApart, Downstream, RunTo, Segment, Prepared, NeedsWork, Attainable, Skips, IsFileLike;
    PlanReportConserved(plan, env, topo, levels, host, manager, acts, c);
    forall i: nat | i < |plan| && !Skips(plan[i], env)
      ensures NeedsWork(plan[i].resource, c.host) <==> i in Undone(plan, env, c.report)
    {
      var o := OutcomeOf(c.report, i);
      var j := LevelOfOutcome(plan, env, topo, levels, host, manager, acts, c, o);
      ResourceLeaves(plan, env, topo, levels, host, manager, acts, c, j, o);
      if i in Undone(plan, env, c.report) {
        var u :| u in c.report && u.changed == Yes && u.id == i && IsFileLike(plan[i].resource)
          && !Attainable(Spec(plan[i].resource));
        OnlyOutcome(c.report, o, u);
      }
    }
  }

  lemma OutcomeOf(report: seq<Outcome>, i: nat) returns (o: Outcome)
    requires i in Ids(report)
    ensures o in report && o.id == i
  {
    var m :| 0 <= m < |Ids(report)| && Ids(report)[m] == i;
    o := report[m];
  }

  lemma OnlyOutcome(report: seq<Outcome>, o: Outcome, u: Outcome)
    requires Distinct(Ids(report)) && o in report && u in report && o.id == u.id
    ensures o == u
  {
    var m, n :| 0 <= m < |report| && 0 <= n < |report| && report[m] == o && report[n] == u;
    assert Ids(report)[m] == Ids(report)[n];
  }

  /** Every outcome of a completed run lies in the stretch of some level. */
  lemma LevelOfOutcome(plan: Plan, env: Env, topo: seq<seq<nat>>, levels: seq<Level>, host: Host, manager: Manager,
                       acts: seq<Action>, c: Config<Local, Manager>, o: Outcome) returns (j: nat)
    requires Prepared(plan, env, topo, levels)
    requires RunTo(SystemOf(plan, levels, env), host, manager, acts) == Some(c) && c.phase == Completed && o in c.report
    ensures j < |topo| && j + 1 < |c.records| && o in Segment(c.records, c.report, j)
  {
    hide RunTo, Segment, Before, Prepared;
    var sys := SystemOf(plan, levels, env);
    LevelsOf(plan, env, topo, levels);
    InvAlways(sys, host, manager, acts);
    ShapeAlways(sys, host, manager, acts);
    AllIsBefore(sys, c);
    BeforeIsSegments(c.records, c.report, |topo|, o);
    j :| j < |topo| && o in Segment(c.records, c.report, j);
  }

  lemma AllIsBefore(sys: System<Local, Manager>, c: Config<Local, Manager>)
    requires Inv(sys, c) && c.phase == Completed && |c.records| == |sys.levels| + 1
    ensures Before(c.records, c.report, |sys.levels|) == c.report && Offsets(c.records, c.report)
  {
  }

  /** The footprint conditions do not depend on the order in which the families were walked. */
  lemma PreparedAlike(plan: Plan, env: Env, topo: seq<seq<nat>>, levels1: seq<Level>, levels2: seq<Level>)
    requires Prepared(plan, env, topo, levels1) && Prepared(plan, env, topo, levels2)
    requires LevelsApart(SystemOf(plan, levels1, env)) && Upstream(SystemOf(plan, levels1, env))
    ensures LevelsApart(SystemOf(plan, levels2, env)) && Upstream(SystemOf(plan, levels2, env))
  {
    hide Prepared, JobOf, JobStep, JobShadow, JobSenses, JobWrites, JobMakes, Hints;
    var sys1, sys2 := SystemOf(plan, levels1, env), SystemOf(plan, levels2, env);
    var rs := PreparedReorder(plan, env, topo, levels1, levels2);
    forall j, k, m | 0 <= j < |levels2| && 0 <= k < |levels2[j].tasks| && 0 <= m < |levels2[j].tasks| && m != k
      ensures Undisturbed(sys2, levels2[j].tasks[m], sys2.senses(levels2[j].tasks[k]))
    {
      var to := rs[j].to;
      assert AllPrivate(sys1, sys1.levels[j].tasks) && Private(sys1, sys1.levels[j].tasks, to[k]);
      assert Undisturbed(sys1, sys1.levels[j].tasks[to[m]], sys1.senses(sys1.levels[j].tasks[to[k]]));
    }
    forall i, k, j, m | Position(sys2, i, k) && Position(sys2, j, m) && i < j
      ensures Undisturbed(sys2, levels2[i].tasks[k], sys2.senses(levels2[j].tasks[m]))
    {
      assert Position(sys1, i, rs[i].to[k]) && Position(sys1, j, rs[j].to[m]);
      assert Undisturbed(sys1, levels1[i].tasks[rs[i].to[k]], sys1.senses(levels1[j].tasks[rs[j].to[m]]));
    }
  }

  /** Whole-plan idempotence: after a completed apply run, a second one with a fresh `Env` and
      any other walk of the families reports Yes for exactly what acts if nothing is left to
      mend but the files whose mode the first run could not attain. */
  lemma SecondRunReports(plan: Plan, env: Env, topo: seq<seq<nat>>, levels1: seq<Level>, levels2: seq<Level>,
                         host: Host, manager: Manager, manager2: Manager,
                         acts1: seq<Action>, acts2: seq<Action>, c1: Config<Local, Manager>, c2: Config<Local, Manager>,
                         j: nat, o: Outcome)
    requires !env.dryRun && Reflexive(env.apt) && Prepared(plan, env, topo, levels1)
    requires Prepared(plan, env, topo, levels2)
    requires LevelsApart(SystemOf(plan, levels1, env)) && Upstream(SystemOf(plan, levels1, env))
    requires Downstream(SystemOf(plan, levels1, env))
    requires RunTo(SystemOf(plan, levels1, env), host, manager, acts1) == Some(c1) && c1.phase == Completed
    requires RunTo(SystemOf(plan, levels2, env), c1.host, manager2, acts2) == Some(c2)
    requires j + 1 < |c2.records| && o in Segment(c2.records, c2.report, j)
    ensures j < |topo| && o.id in topo[j] && o.id < |plan|
    ensures o.changed == Skipped <==> Skips(plan[o.id], env)
    ensures o.changed == Yes <==> Acts(plan, env, Undone(plan, env, c1.report), topo, j, o.id)
  {
    hide LevelsApart, Upstream, Downstream, RunTo, Segment, Prepared, Acts, Due, Undone, SystemOf, Reordered;
    RunLeaves(plan, env, topo, levels1, host, manager, acts1, c1);
    PreparedAlike(plan, env, topo, levels1, levels2);
    RunReports(plan, env, topo, levels2, c1.host, manager2, acts2, c2, j, o);
  }
}
