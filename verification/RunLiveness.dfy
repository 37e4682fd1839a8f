/** Runs make progress: from every crash-free point of a run, a level whose tasks can
    finish on their own gets finished, whichever enabled action is taken next. */
module RunLiveness {
  import opened HostModel
  import opened Run
  import opened RunReport
  import opened RunSchedule
  import opened RunViews
  import opened RunFailures

  /** Bounds on the steps that the tasks of the level need. */
  ghost predicate Bounds<L, M>(sys: System<L, M>, j: nat, rec: Record, ns: seq<nat>)
    requires j < |sys.levels|
  {
    && |ns| == |sys.levels[j].tasks|
    && forall k :: 0 <= k < |ns| ==> Alone(sys, sys.levels[j].tasks[k], rec.host, rec.changed, ns[k]).0.Finished?
  }

  function Rank<L>(s: TaskState<L>): nat {
    match s
    case Waiting => 3
    case Running(_) => 2
    case Finished(_) => 1
    case _ => 0
  }

  function TaskLeft<L>(s: TaskState<L>, taken: nat, n: nat): nat {
    Rank(s) + if taken < n then n - taken else 0
  }

  /** How much is left to do in the level. */
  function Left<L>(states: seq<TaskState<L>>, taken: seq<nat>, ns: seq<nat>): nat
    requires |states| == |taken| == |ns|
  {
    if states == [] then 0 else TaskLeft(states[0], taken[0], ns[0]) + Left(states[1..], taken[1..], ns[1..])
  }

  lemma {:induction false} LeftUpdates<L>(states: seq<TaskState<L>>, taken: seq<nat>, ns: seq<nat>, k: nat,
                                          s: TaskState<L>, t: nat)
    requires |states| == |taken| == |ns| && k < |states|
    ensures Left(states[k := s], taken[k := t], ns) - Left(states, taken, ns)
            == TaskLeft(s, t, ns[k]) - TaskLeft(states[k], taken[k], ns[k])
    decreases |states|
  {
    hide TaskLeft;
    if k == 0 {
      assert states[k := s][1..] == states[1..] && taken[k := t][1..] == taken[1..];
    } else {
      assert states[k := s][1..] == states[1..][k - 1 := s] && taken[k := t][1..] == taken[1..][k - 1 := t];
      LeftUpdates(states[1..], taken[1..], ns[1..], k - 1, s, t);
    }
  }

  lemma RunExtends<L, M>(sys: System<L, M>, host: Host, manager: M, acts: seq<Action>, c: Config<L, M>, a: Action)
    requires RunTo(sys, host, manager, acts) == Some(c) && Allowed(sys, c, a)
    ensures RunTo(sys, host, manager, acts + [a]) == Some(Do(sys, c, a))
  {
    hide Do, Allowed;
    assert (acts + [a])[..|acts + [a]| - 1] == acts;
  }

  /** Every action within the level changes one task and leaves it less to do. */
  lemma ActionChangesOne<L, M>(sys: System<L, M>, c: Config<L, M>, a: Action, n: nat)
    requires Allowed(sys, c, a) && c.phase == InLevel && NoneFailed(c) && !a.EndLevel? && !a.Crash?
    requires a.Step? ==> c.taken[a.k] < n
    ensures var c' := Do(sys, c, a);
            && c'.level == c.level && c'.phase == InLevel && c'.records == c.records
            && a.k < |c.states| == |c.taken| == |c'.states| == |c'.taken|
            && c'.states == c.states[a.k := c'.states[a.k]] && c'.taken == c.taken[a.k := c'.taken[a.k]]
            && TaskLeft(c'.states[a.k], c'.taken[a.k], n) < TaskLeft(c.states[a.k], c.taken[a.k], n)
  {
    hide Apply, Outcomes;
  }

  lemma ActionMakesProgress<L(!new), M>(sys: System<L, M>, c: Config<L, M>, a: Action, ns: seq<nat>)
    requires LevelsApart(sys) && ViewInv(sys, c) && Allowed(sys, c, a) && c.phase == InLevel && NoneFailed(c)
    requires !a.EndLevel? && !a.Crash? && Bounds(sys, c.level, c.records[c.level], ns)
    requires |c.states| == |c.taken| == |ns|
    ensures var c' := Do(sys, c, a);
            && c'.level == c.level && c'.phase == InLevel && c'.records == c.records
            && |c'.states| == |c'.taken| == |ns| && Left(c'.states, c'.taken, ns) < Left(c.states, c.taken, ns)
  {
    hide ViewInv, LevelsApart, Do, Left, NoneFailed, TaskLeft, Bounds, Shape;
    if a.Step? { RunningHasStepsLeft(sys, c, a.k, ns); }
    var c' := Do(sys, c, a);
    ActionChangesOne(sys, c, a, ns[a.k]);
    LeftUpdates(c.states, c.taken, ns, a.k, c'.states[a.k], c'.taken[a.k]);
  }

  lemma RunningHasStepsLeft<L(!new), M>(sys: System<L, M>, c: Config<L, M>, k: nat, ns: seq<nat>)
    requires LevelsApart(sys) && ViewInv(sys, c) && Allowed(sys, c, Step(k))
    requires Bounds(sys, c.level, c.records[c.level], ns)
    ensures c.taken[k] < ns[k]
  {
    hide Inv, Kept, PastViews, Private, Agree, Alone;
    var rec, task := c.records[c.level], sys.levels[c.level].tasks[k];
    assert Private(sys, sys.levels[c.level].tasks, k);
    assert TaskMatches(c.states[k], Alone(sys, task, rec.host, rec.changed, c.taken[k]).0, c.taken[k]);
    if ns[k] <= c.taken[k] { AloneDone(sys, task, rec.host, rec.changed, ns[k], c.taken[k]); }
  }

  lemma ActionDoesNotFail<L(!new), M>(sys: System<L, M>, c: Config<L, M>, a: Action)
    requires Framed(sys) && LevelsApart(sys) && ViewInv(sys, c) && Allowed(sys, c, a) && NoneFailed(c) && !a.Crash?
    requires c.level < |sys.levels| && CanFinish(sys, c.level, c.records[c.level])
    ensures NoneFailed(Do(sys, c, a))
  {
    hide ViewInv, Framed, LevelsApart, CanFinish, NoneFailed, Do;
    if a.Step? { StepDoesNotFail(sys, c, a.k); } else { OthersDoNotFail(sys, c, a); }
  }

  lemma EndLevelMovesOn<L, M>(sys: System<L, M>, c: Config<L, M>)
    requires Allowed(sys, c, EndLevel)
    ensures var c' := Do(sys, c, EndLevel); c'.level == c.level + 1 && c.records <= c'.records
  {
    hide YesIds, SkippedOutcomes;
  }

  lemma InLevelHasLevel<L, M>(sys: System<L, M>, host: Host, manager: M, acts: seq<Action>, c: Config<L, M>)
    requires RunTo(sys, host, manager, acts) == Some(c) && c.phase == InLevel
    ensures c.level < |sys.levels| && c.level < |c.records| && |c.states| == |c.taken| == |sys.levels[c.level].tasks|
  {
    ShapeAlways(sys, host, manager, acts);
  }

  lemma {:induction false} LevelFinishesWithin<L(!new), M>(sys: System<L, M>, host: Host, manager: M,
                                                           acts: seq<Action>, c: Config<L, M>, ns: seq<nat>)
                                                             returns (more: seq<Action>, next: Config<L, M>)
    requires Framed(sys) && LevelsApart(sys)
    requires RunTo(sys, host, manager, acts) == Some(c) && c.phase == InLevel && NoneFailed(c)
    requires c.level < |sys.levels| && c.level < |c.records| && |c.states| == |c.taken| == |ns|
    requires Bounds(sys, c.level, c.records[c.level], ns) && CanFinish(sys, c.level, c.records[c.level])
    ensures RunTo(sys, host, manager, acts + more) == Some(next) && CrashFree(more)
    ensures NoneFailed(next) && next.level == c.level + 1 && c.records <= next.records
    decreases Left(c.states, c.taken, ns)
  {
    hide Framed, LevelsApart, RunTo, NoneFailed, Bounds, CanFinish, Do, Allowed, ViewInv, Left;
    ViewsAlways(sys, host, manager, acts);
    var a := NeverStuck(sys, host, manager, acts, c);
    RunExtends(sys, host, manager, acts, c, a);
    ActionDoesNotFail(sys, c, a);
    if a.EndLevel? {
      EndLevelMovesOn(sys, c);
      more, next := [a], Do(sys, c, a);
    } else {
      ActionMakesProgress(sys, c, a, ns);
      var rest;
      rest, next := LevelFinishesWithin(sys, host, manager, acts + [a], Do(sys, c, a), ns);
      more := [a] + rest;
      assert acts + [a] + rest == acts + more;
    }
  }

  ghost function SomeBounds<L, M>(sys: System<L, M>, tasks: seq<Task>, host: Host, changed: set<nat>): (ns: seq<nat>)
    requires forall k :: 0 <= k < |tasks| ==> Finishes(sys, tasks[k], host, changed)
    ensures |ns| == |tasks| && forall k :: 0 <= k < |ns| ==> Alone(sys, tasks[k], host, changed, ns[k]).0.Finished?
  {
    if tasks == [] then [] else
      assert Finishes(sys, tasks[0], host, changed);
      var n: nat :| Alone(sys, tasks[0], host, changed, n).0.Finished?;
      [n] + SomeBounds(sys, tasks[1..], host, changed)
  }

  /** From any crash-free point of a level whose tasks can finish on their own, the run can
      go on, without a crash, to the end of the level. */
  lemma LevelCanAlwaysFinish<L(!new), M>(sys: System<L, M>, host: Host, manager: M, acts: seq<Action>, c: Config<L, M>)
    returns (more: seq<Action>, next: Config<L, M>)
    requires Framed(sys) && LevelsApart(sys)
    requires RunTo(sys, host, manager, acts) == Some(c) && c.phase == InLevel && NoneFailed(c)
    requires c.level < |sys.levels| && c.level < |c.records| && CanFinish(sys, c.level, c.records[c.level])
    ensures RunTo(sys, host, manager, acts + more) == Some(next) && CrashFree(more)
    ensures NoneFailed(next) && next.level == c.level + 1 && c.records <= next.records
  {
    hide Framed, LevelsApart, RunTo, NoneFailed, Alone;
    var rec := c.records[c.level];
    var ns := SomeBounds(sys, sys.levels[c.level].tasks, rec.host, rec.changed);
    InLevelHasLevel(sys, host, manager, acts, c);
    more, next := LevelFinishesWithin(sys, host, manager, acts, c, ns);
  }

  lemma CompletedElsewhere<L(!new), M>(sys: System<L, M>, host: Host, manager: M, acts1: seq<Action>,
                                       acts2: seq<Action>, c1: Config<L, M>, c2: Config<L, M>)
    requires Framed(sys) && LevelsIndependent(sys)
    requires RunTo(sys, host, manager, acts1) == Some(c1) && c1.phase == InLevel
    requires RunTo(sys, host, manager, acts2) == Some(c2) && c2.phase == Completed
    ensures c1.level < |sys.levels| && c1.level < |c1.records| && CanFinish(sys, c1.level, c1.records[c1.level])
  {
    hide Framed, LevelsIndependent, LevelsApart, PastResults, PastViews, SameSegment, CanFinish, RunTo;
    IndependentMeansApart(sys);
    ViewsAlways(sys, host, manager, acts2);
    InLevelHasLevel(sys, host, manager, acts1, c1);
    MergeAlways(sys, host, manager, acts1);
    MergeAlways(sys, host, manager, acts2);
    FirstRecord(sys, host, manager, acts1);
    FirstRecord(sys, host, manager, acts2);
    RunsAgree(sys, c1, c2, c1.level);
    FinishedLevelsFinish(sys, c2, c1.level);
    SameStart(sys, c1.level, c2.records[c1.level], c1.records[c1.level]);
  }

  lemma NotStuckMeansDone<L, M>(sys: System<L, M>, host: Host, manager: M, acts: seq<Action>, c: Config<L, M>)
    requires RunTo(sys, host, manager, acts) == Some(c) && NoneFailed(c)
    ensures c.phase == InLevel || c.phase == Completed
    ensures c.level <= |sys.levels|
  {
    ShapeAlways(sys, host, manager, acts);
  }

  lemma CrashFreeConcat(a: seq<Action>, b: seq<Action>)
    requires CrashFree(a) && CrashFree(b)
    ensures CrashFree(a + b)
  {
  }

  /** If some schedule completes, every crash-free run from the same host can still be
      completed, from wherever it is. */
  lemma {:induction false} SameOrderCompletion<L(!new), M>(sys: System<L, M>, host: Host, manager: M,
                                                           acts1: seq<Action>, acts2: seq<Action>, c1: Config<L, M>,
                                                           c2: Config<L, M>)
    returns (more: seq<Action>, last: Config<L, M>)
    requires Framed(sys) && LevelsIndependent(sys)
    requires RunTo(sys, host, manager, acts1) == Some(c1) && CrashFree(acts1)
    requires RunTo(sys, host, manager, acts2) == Some(c2) && c2.phase == Completed
    ensures RunTo(sys, host, manager, acts1 + more) == Some(last) && CrashFree(more) && last.phase == Completed
    decreases |sys.levels| - c1.level
  {
    hide Framed, LevelsIndependent, LevelsApart, RunTo, NoneFailed, CanFinish, CrashFree;
    IndependentMeansApart(sys);
    SameOrderFailures(sys, host, manager, acts1, acts2, c1, c2);
    NotStuckMeansDone(sys, host, manager, acts1, c1);
    if c1.phase == Completed {
      more, last := [], c1;
      assert acts1 + [] == acts1;
      NothingCrashes();
    } else {
      CompletedElsewhere(sys, host, manager, acts1, acts2, c1, c2);
      var step, next := LevelCanAlwaysFinish(sys, host, manager, acts1, c1);
      CrashFreeConcat(acts1, step);
      var rest;
      rest, last := SameOrderCompletion(sys, host, manager, acts1 + step, acts2, next, c2);
      CrashFreeConcat(step, rest);
      more := step + rest;
      assert acts1 + step + rest == acts1 + more;
    }
  }

  /** A task that has just been spawned may take its first `n` steps in a row, as if alone. */
  lemma {:induction false} OneTaskRuns<L, M>(sys: System<L, M>, host: Host, manager: M, acts: seq<Action>,
                                             c: Config<L, M>, k: nat, n: nat)
    returns (more: seq<Action>, next: Config<L, M>)
    requires RunTo(sys, host, manager, acts) == Some(c) && c.phase == InLevel
    requires c.level < |sys.levels| && k < |c.states| == |sys.levels[c.level].tasks|
    requires c.states[k] == Running(sys.start)
    requires forall i: nat :: i < n ==> Alone(sys, sys.levels[c.level].tasks[k], c.host, c.changed, i).0.Running?
    ensures RunTo(sys, host, manager, acts + more) == Some(next) && CrashFree(more)
    ensures next.level == c.level && next.phase == InLevel && next.changed == c.changed
    ensures next.records == c.records && next.report == c.report
    ensures var (s, h) := Alone(sys, sys.levels[c.level].tasks[k], c.host, c.changed, n);
            next.states == c.states[k := s] && next.host == h
    decreases n
  {
    hide RunTo, Alone, Apply;
    var task := sys.levels[c.level].tasks[k];
    if n == 0 {
      more, next := [], c;
      assert acts + [] == acts;
      NothingDoneYet(sys, task, c.host, c.changed);
    } else {
      var init, mid := OneTaskRuns(sys, host, manager, acts, c, k, n - 1);
      ShapeAlways(sys, host, manager, acts + init);
      assert Alone(sys, task, c.host, c.changed, n - 1).0.Running?;
      AloneNext(sys, task, c.host, c.changed, n - 1);
      RunExtends(sys, host, manager, acts + init, mid, Step(k));
      more, next := init + [Step(k)], Do(sys, mid, Step(k));
      assert acts + init + [Step(k)] == acts + more;
    }
  }

  lemma NothingDoneYet<L, M>(sys: System<L, M>, task: Task, host: Host, changed: set<nat>)
    ensures Alone(sys, task, host, changed, 0) == (Running(sys.start), host)
  {
  }

  lemma NothingCrashes()
    ensures CrashFree([])
  {
  }
}
