/** When runs fail: if a plan can be completed at all from a host, then no run of it
    from there fails unless the world outside makes a step fail (`Crash`), whatever the
    schedule, and neither does a dry run. And a run never gets stuck. */
module RunFailures {
  import opened HostModel
  import opened Run
  import opened RunReport
  import opened RunSchedule
  import opened RunModes
  import opened RunViews

  predicate CrashFree(acts: seq<Action>) { forall i :: 0 <= i < |acts| ==> !acts[i].Crash? }

  /** Started like this, every task of level `j` finishes on its own. */
  ghost predicate CanFinish<L, M>(sys: System<L, M>, j: nat, rec: Record)
    requires j < |sys.levels|
  {
    forall k :: 0 <= k < |sys.levels[j].tasks| ==> Finishes(sys, sys.levels[j].tasks[k], rec.host, rec.changed)
  }

  ghost predicate Finishes<L, M>(sys: System<L, M>, task: Task, host: Host, changed: set<nat>) {
    exists n: nat :: Alone(sys, task, host, changed, n).0.Finished?
  }

  predicate NoneFailed<L, M>(c: Config<L, M>) {
    c.phase != Aborted && forall k :: 0 <= k < |c.states| ==> !c.states[k].Failed? && !c.states[k].Cut?
  }

  /** A step in the run does what the same step does when the task is alone. */
  lemma StepIsAlone<L(!new), M>(sys: System<L, M>, c: Config<L, M>, k: nat)
    requires Framed(sys) && LevelsApart(sys) && ViewInv(sys, c) && Allowed(sys, c, Step(k))
    ensures var rec := c.records[c.level];
            Do(sys, c, Step(k)).states[k] == Alone(sys, sys.levels[c.level].tasks[k], rec.host, rec.changed,
                                                   c.taken[k] + 1).0
  {
    hide PastViews, Kept, Framed, Apply, Private, Alone, Agree;
    ShapeOfInv(sys, c);
    var rec, tasks := c.records[c.level], sys.levels[c.level].tasks;
    assert Private(sys, tasks, k) && View(sys, tasks[k], c.states[k], rec, c.taken[k], c.host);
    AgreeBack(c.host, Alone(sys, tasks[k], rec.host, rec.changed, c.taken[k]).1, sys.senses(tasks[k]));
    UseFramed(sys, tasks[k], c.states[k].local, c.changed, c.host,
              Alone(sys, tasks[k], rec.host, rec.changed, c.taken[k]).1);
    AloneNext(sys, tasks[k], rec.host, rec.changed, c.taken[k]);
  }

  lemma FinisherNeverFails<L, M>(sys: System<L, M>, task: Task, host: Host, changed: set<nat>, n: nat)
    requires Finishes(sys, task, host, changed)
    ensures !Alone(sys, task, host, changed, n).0.Failed?
  {
    hide Alone;
    var m: nat :| Alone(sys, task, host, changed, m).0.Finished?;
    if Alone(sys, task, host, changed, n).0.Failed? { AloneUnique(sys, task, host, changed, n, m); }
  }

  lemma StepDoesNotFail<L(!new), M>(sys: System<L, M>, c: Config<L, M>, k: nat)
    requires Framed(sys) && LevelsApart(sys) && ViewInv(sys, c) && Allowed(sys, c, Step(k)) && NoneFailed(c)
    requires c.level < |sys.levels| && CanFinish(sys, c.level, c.records[c.level])
    ensures NoneFailed(Do(sys, c, Step(k)))
  {
    StepIsAlone(sys, c, k);
    hide ViewInv, Framed, LevelsApart, Alone, Apply;
    var rec := c.records[c.level];
    FinisherNeverFails(sys, sys.levels[c.level].tasks[k], rec.host, rec.changed, c.taken[k] + 1);
    StepLeavesNoCut(sys, c, k);
  }

  lemma StepLeavesNoCut<L, M>(sys: System<L, M>, c: Config<L, M>, k: nat)
    requires Allowed(sys, c, Step(k))
    ensures var c' := Do(sys, c, Step(k));
            c'.phase == c.phase && |c'.states| == |c.states| && !c'.states[k].Cut? && forall m ::
                0 <= m < |c.states| && m != k ==> c'.states[m] == c.states[m]
  {
    hide Apply;
  }

  lemma OthersDoNotFail<L, M>(sys: System<L, M>, c: Config<L, M>, a: Action)
    requires Allowed(sys, c, a) && NoneFailed(c) && !a.Step? && !a.Crash?
    ensures NoneFailed(Do(sys, c, a))
  {
    hide Apply, Outcomes, SkippedOutcomes, YesIds;
  }

  lemma {:induction false} NoFailures<L(!new), M>(sys: System<L, M>, host: Host, manager: M, acts: seq<Action>,
                                                  c: Config<L, M>)
    requires Framed(sys) && LevelsApart(sys) && CrashFree(acts)
    requires RunTo(sys, host, manager, acts) == Some(c)
    requires forall j :: 0 <= j < |c.records| && j < |sys.levels| ==> CanFinish(sys, j, c.records[j])
    ensures NoneFailed(c)
    decreases |acts|
  {
    hide ViewInv, Framed, LevelsApart, CanFinish, Do, Allowed, NoneFailed;
    if acts == [] {
      StartHasNotFailed(sys, host, manager);
    } else {
      var init, a := acts[..|acts| - 1], acts[|acts| - 1];
      var before := RunTo(sys, host, manager, init).value;
      RecordsStay(sys, before, a);
      NoFailures(sys, host, manager, init, before);
      ViewsAlways(sys, host, manager, init);
      if a.Step? {
        LevelUnderWay(sys, before, a);
        StepDoesNotFail(sys, before, a.k);
      } else {
        OthersDoNotFail(sys, before, a);
      }
    }
  }

  lemma LevelUnderWay<L, M>(sys: System<L, M>, c: Config<L, M>, a: Action)
    requires Allowed(sys, c, a)
    ensures c.level < |sys.levels| && c.level < |c.records|
  {
  }

  lemma StartHasNotFailed<L, M>(sys: System<L, M>, host: Host, manager: M)
    ensures NoneFailed(Start(sys, host, manager))
  {
  }

  lemma FinishedLevelsFinish<L, M>(sys: System<L, M>, c: Config<L, M>, j: nat)
    requires LevelsApart(sys) && PastViews(sys, c.records, c.past, c.report) && j < |c.past|
    ensures CanFinish(sys, j, c.records[j])
  {
    hide Kept, Private, Agree, JoinedBag, Segment;
    assert LevelView(sys, sys.levels[j], c.records[j], c.past[j], c.records[j + 1], Segment(c.records, c.report, j));
    var rec := c.records[j];
    forall k | 0 <= k < |sys.levels[j].tasks| ensures Finishes(sys, sys.levels[j].tasks[k], rec.host, rec.changed) {
      assert Alone(sys, sys.levels[j].tasks[k], rec.host, rec.changed, c.past[j][k]).0.Finished?;
    }
  }

  /** Failures are not a matter of scheduling: if some schedule completes, no crash-free
      schedule fails. */
  lemma SameOrderFailures<L(!new), M>(sys: System<L, M>, host: Host, manager: M, acts1: seq<Action>, acts2: seq<Action>,
                                            c1: Config<L, M>, c2: Config<L, M>)
    requires Framed(sys) && LevelsIndependent(sys)
    requires RunTo(sys, host, manager, acts1) == Some(c1) && CrashFree(acts1)
    requires RunTo(sys, host, manager, acts2) == Some(c2) && c2.phase == Completed
    ensures NoneFailed(c1)
  {
    hide Framed, LevelsIndependent, LevelsApart, PastResults, PastViews, SameSegment, CanFinish, RunTo;
    IndependentMeansApart(sys);
    ViewsAlways(sys, host, manager, acts2);
    MergeAlways(sys, host, manager, acts1);
    MergeAlways(sys, host, manager, acts2);
    FirstRecord(sys, host, manager, acts1);
    FirstRecord(sys, host, manager, acts2);
    forall j | 0 <= j < |c1.records| && j < |sys.levels| ensures CanFinish(sys, j, c1.records[j]) {
      RunsAgree(sys, c1, c2, j);
      FinishedLevelsFinish(sys, c2, j);
      SameStart(sys, j, c2.records[j], c1.records[j]);
    }
    NoFailures(sys, host, manager, acts1, c1);
  }

  lemma SameStart<L, M>(sys: System<L, M>, j: nat, a: Record, b: Record)
    requires j < |sys.levels| && CanFinish(sys, j, a) && a.host == b.host && a.changed == b.changed
    ensures CanFinish(sys, j, b)
  {
  }

  /** A plan that can be applied can be dry run: if some apply run completes, no
      crash-free dry run from the same host fails. */
  lemma SameOrderDryRun<L(!new), M(!new)>(dry: System<L, M>, live: System<L, M>, idle: L -> bool, host: Host,
                                          manager: M, acts1: seq<Action>, acts2: seq<Action>, c1: Config<L, M>,
                                          c2: Config<L, M>)
    requires SamePlan(dry, live) && Pure(dry, idle) && Predicts(dry, live)
    requires Framed(dry) && LevelsApart(dry) && Framed(live) && LevelsApart(live) && Upstream(live)
    requires RunTo(dry, host, manager, acts1) == Some(c1) && CrashFree(acts1)
    requires RunTo(live, host, manager, acts2) == Some(c2) && c2.phase == Completed
    ensures NoneFailed(c1)
  {
    hide Framed, Upstream, Predicts, Pure, LevelsApart, PastViews, Segment, CanFinish, RunTo;
    ViewsAlways(dry, host, manager, acts1);
    ViewsAlways(live, host, manager, acts2);
    FirstRecord(live, host, manager, acts2);
    DryRunChangesNothing(dry, idle, host, manager, acts1, c1);
    forall j | 0 <= j < |c1.records| && j < |dry.levels| ensures CanFinish(dry, j, c1.records[j]) {
      LevelsPredicted(dry, live, c1, c2, j);
      DryLevelFinishes(dry, live, c2, j, c1.records[j]);
    }
    NoFailures(dry, host, manager, acts1, c1);
  }

  lemma DryLevelFinishes<L(!new), M>(dry: System<L, M>, live: System<L, M>, c: Config<L, M>, j: nat, rec: Record)
    requires SamePlan(dry, live) && Predicts(dry, live) && Framed(live) && Upstream(live) && LevelsApart(live)
    requires PastViews(live, c.records, c.past, c.report) && j < |c.past|
    requires rec.host == c.records[0].host && rec.changed == c.records[j].changed
    ensures CanFinish(dry, j, rec)
  {
    hide Framed, Upstream, LevelsApart, Alone, LevelView, Agree, Predicts;
    FinishedLevelsFinish(live, c, j);
    forall k | 0 <= k < |dry.levels[j].tasks| ensures Finishes(dry, dry.levels[j].tasks[k], rec.host, rec.changed) {
      var task := live.levels[j].tasks[k];
      EarlierKeep(live, c, j, k);
      var n: nat :| Alone(live, task, c.records[j].host, rec.changed, n).0.Finished?;
      AloneAgrees(live, task, rec.host, c.records[j].host, rec.changed, n);
      PredictedFinishes(dry, live, task, rec.host, rec.changed, n);
    }
  }

  lemma PredictedFinishes<L(!new), M>(dry: System<L, M>, live: System<L, M>, task: Task, host: Host, changed: set<nat>,
                                      n: nat)
    requires Predicts(dry, live) && Alone(live, task, host, changed, n).0.Finished?
    ensures Finishes(dry, task, host, changed)
  {
    hide Alone;
    var verdicts := Alone(live, task, host, changed, n).0.verdicts;
    assert Comes(dry, task, host, changed, verdicts);
    var i: nat :| Alone(dry, task, host, changed, i).0 == Finished(verdicts);
  }

  // ---------- a run never gets stuck ----------

  /** Only an aborted run cuts tasks off. */
  lemma {:induction false} NoCutsBeforeAbort<L, M>(sys: System<L, M>, host: Host, manager: M, acts: seq<Action>,
                                                   c: Config<L, M>)
    requires RunTo(sys, host, manager, acts) == Some(c) && c.phase != Aborted
    ensures forall k :: 0 <= k < |c.states| ==> !c.states[k].Cut?
    decreases |acts|
  {
    hide Do, Allowed;
    if acts != [] {
      var before := RunTo(sys, host, manager, acts[..|acts| - 1]).value;
      if before.phase != Aborted { NoCutsBeforeAbort(sys, host, manager, acts[..|acts| - 1], before); }
      NoNewCuts(sys, before, acts[|acts| - 1]);
    }
  }

  lemma NoNewCuts<L, M>(sys: System<L, M>, c: Config<L, M>, a: Action)
    requires Allowed(sys, c, a) && Do(sys, c, a).phase != Aborted
    requires c.phase != Aborted ==> forall k :: 0 <= k < |c.states| ==> !c.states[k].Cut?
    ensures forall k :: 0 <= k < |Do(sys, c, a).states| ==> !Do(sys, c, a).states[k].Cut?
  {
    hide Apply, Outcomes, SkippedOutcomes, YesIds;
  }

  lemma OneMore<L, M>(sys: System<L, M>, host: Host, manager: M, acts: seq<Action>, c: Config<L, M>, a: Action)
    requires RunTo(sys, host, manager, acts) == Some(c)
    ensures RunTo(sys, host, manager, acts + [a]) == if Allowed(sys, c, a) then Some(Do(sys, c, a)) else None
  {
    hide Do, Allowed;
    assert (acts + [a])[..|acts|] == acts;
  }

  /** The schedule is free: at every point of every run any waiting task may be spawned, any running
      one may take its next step or crash, once none waits any that has ended may be joined, and after
      an error any that is still alive may be cut. */
  lemma ScheduleIsFree<L, M>(sys: System<L, M>, host: Host, manager: M, acts: seq<Action>, c: Config<L, M>, k: nat)
    requires RunTo(sys, host, manager, acts) == Some(c) && c.level < |sys.levels| && k < |c.states|
    ensures c.states[k].Running? ==>
              && RunTo(sys, host, manager, acts + [Step(k)]).Some?
              && RunTo(sys, host, manager, acts + [Crash(k)]) == Some(c.(states := c.states[k := Failed]))
    ensures c.phase == InLevel && c.states[k].Waiting? ==>
              RunTo(sys, host, manager, acts + [Spawn(k)]) == Some(c.(states := c.states[k := Running(sys.start)]))
    ensures c.phase == InLevel && (c.states[k].Finished? || c.states[k].Failed?)
            && (forall m :: 0 <= m < |c.states| ==> !c.states[m].Waiting?) ==>
              RunTo(sys, host, manager, acts + [Join(k)]).Some?
    ensures c.phase == Aborted && (c.states[k].Running? || c.states[k].Finished?) ==>
              RunTo(sys, host, manager, acts + [CutOff(k)]) == Some(c.(states := c.states[k := Cut]))
  {
    hide RunTo;
    ShapeAlways(sys, host, manager, acts);
    OneMore(sys, host, manager, acts, c, Step(k));
    OneMore(sys, host, manager, acts, c, Crash(k));
    OneMore(sys, host, manager, acts, c, Spawn(k));
    OneMore(sys, host, manager, acts, c, Join(k));
    OneMore(sys, host, manager, acts, c, CutOff(k));
  }

  /** Until a run is completed or aborted, something can happen next. */
  lemma NeverStuck<L, M>(sys: System<L, M>, host: Host, manager: M, acts: seq<Action>, c: Config<L, M>)
    returns (a: Action)
    requires RunTo(sys, host, manager, acts) == Some(c) && c.phase == InLevel
    ensures Allowed(sys, c, a) && !a.Crash?
  {
    NoCutsBeforeAbort(sys, host, manager, acts, c);
    ShapeAlways(sys, host, manager, acts);
    hide RunTo;
    if k :| 0 <= k < |c.states| && c.states[k].Waiting? {
      a := Spawn(k);
    } else if k :| 0 <= k < |c.states| && c.states[k].Running? {
      a := Step(k);
    } else if k :| 0 <= k < |c.states| && (c.states[k].Failed? || c.states[k].Finished?) {
      a := Join(k);
    } else {
      a := EndLevel;
    }
  }
}
