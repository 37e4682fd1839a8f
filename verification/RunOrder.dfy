/** The family map of a level is walked in an arbitrary order (src/executor.rs:152-195), so
    two runs of one plan may list the tasks of a level differently. The order is only a
    matter of names: a run over one list is a run over the other with its tasks renamed,
    and everything that compares runs holds across both choices, of schedule and of order. */
module RunOrder {
  import opened HostModel
  import opened Run
  import opened RunReport
  import opened RunSchedule
  import opened RunViews
  import opened RunModes
  import opened RunFailures
  import opened RunLiveness

  /** Task `k` of the second list is task `to[k]` of the first, and the other way `back`. */
  datatype Renaming = Renaming(to: seq<nat>, back: seq<nat>)

  predicate Renames(r: Renaming, tasks1: seq<Task>, tasks2: seq<Task>) {
    && |r.to| == |r.back| == |tasks1| == |tasks2|
    && (forall k :: 0 <= k < |tasks2| ==> r.to[k] < |tasks1| && tasks2[k] == tasks1[r.to[k]] && r.back[r.to[k]] == k)
    && (forall m :: 0 <= m < |tasks1| ==> r.back[m] < |tasks2| && r.to[r.back[m]] == m)
  }

  /** The same system but for the order of the tasks of each level. */
  ghost predicate Reordered<L(!new), M(!new)>(sys1: System<L, M>, sys2: System<L, M>, rs: seq<Renaming>) {
    && sys1.hints == sys2.hints && sys1.start == sys2.start
    && (forall task, local, h: Host, changed :: sys1.step(task, local, h, changed)
                                                == sys2.step(task, local, h, changed))
    && (forall task, local, h: Host, m :: sys1.shadow(task, local, h, m) == sys2.shadow(task, local, h, m))
    && |sys1.levels| == |sys2.levels| == |rs|
    && forall j :: 0 <= j < |rs| ==>
         sys1.levels[j].skipped == sys2.levels[j].skipped && Renames(rs[j], sys1.levels[j].tasks, sys2.levels[j].tasks)
  }

  function Permuted<T>(s: seq<T>, back: seq<nat>): (r: seq<T>)
    ensures |r| == |s|
    ensures |s| == |back| ==> forall m :: 0 <= m < |s| ==> r[m] == s[if back[m] < |s| then back[m] else 0]
  {
    if |s| == |back| then seq(|s|, m requires 0 <= m < |s| => s[if back[m] < |s| then back[m] else 0]) else s
  }

  function NowPermuted<T>(s: seq<T>, rs: seq<Renaming>, level: nat): seq<T> {
    if level < |rs| then Permuted(s, rs[level].back) else s
  }

  function PastPermuted(past: seq<seq<nat>>, rs: seq<Renaming>): (r: seq<seq<nat>>)
    ensures |r| == |past|
    ensures forall j :: 0 <= j < |r| ==> r[j] == NowPermuted(past[j], rs, j)
  {
    seq(|past|, j requires 0 <= j < |past| => NowPermuted(past[j], rs, j))
  }

  /** The configuration with the tasks of each level in the first order. */
  function RenamedConfig<L, M>(rs: seq<Renaming>, c: Config<L, M>): Config<L, M> {
    c.(states := NowPermuted(c.states, rs, c.level), taken := NowPermuted(c.taken, rs, c.level),
       past := PastPermuted(c.past, rs))
  }

  function RenamedTask(r: Renaming, k: nat): nat { if k < |r.to| then r.to[k] else k }

  function RenamedAction(r: Renaming, a: Action): Action {
    match a
    case Spawn(k) => Spawn(RenamedTask(r, k))
    case Step(k) => Step(RenamedTask(r, k))
    case Crash(k) => Crash(RenamedTask(r, k))
    case Join(k) => Join(RenamedTask(r, k))
    case CutOff(k) => CutOff(RenamedTask(r, k))
    case EndLevel => EndLevel
  }

  lemma PermutedUpdate<T>(r: Renaming, tasks1: seq<Task>, tasks2: seq<Task>, s: seq<T>, k: nat, x: T)
    requires Renames(r, tasks1, tasks2) && |s| == |tasks2| && k < |s|
    ensures Permuted(s[k := x], r.back) == Permuted(s, r.back)[r.to[k] := x]
    ensures Permuted(s, r.back)[r.to[k]] == s[k]
  {
  }

  lemma AllowedRenamed<L(!new), M(!new)>(sys1: System<L, M>, sys2: System<L, M>, rs: seq<Renaming>, c: Config<L, M>,
                                         a: Action)
    requires Reordered(sys1, sys2, rs) && Allowed(sys2, c, a)
    ensures c.level < |rs| && Allowed(sys1, RenamedConfig(rs, c), RenamedAction(rs[c.level], a))
  {
    var r, c1 := rs[c.level], RenamedConfig(rs, c);
    var tasks1, tasks2 := sys1.levels[c.level].tasks, sys2.levels[c.level].tasks;
    assert Renames(r, tasks1, tasks2);
    forall m | 0 <= m < |c1.states| ensures c1.states[m] == c.states[r.back[m]] && tasks1[m] == tasks2[r.back[m]] {}
    assert Shape(sys1, c1);
  }

  /** An action that changes one task's state, and perhaps its step count. */
  lemma OneTaskRenamed<L(!new), M(!new)>(sys1: System<L, M>, sys2: System<L, M>, rs: seq<Renaming>, c: Config<L, M>,
                                         k: nat, s: TaskState<L>, n: nat)
    requires Reordered(sys1, sys2, rs) && c.level < |rs| && |c.states| == |c.taken| == |sys2.levels[c.level].tasks|
    requires k < |c.states|
    ensures var (r, c1) := (rs[c.level], RenamedConfig(rs, c));
            && r.to[k] < |c1.states| == |c1.taken| && c1.states[r.to[k]] == c.states[k]
               && c1.taken[r.to[k]] == c.taken[k]
            && RenamedTask(r, k) == r.to[k] && sys1.levels[c.level].tasks[r.to[k]] == sys2.levels[c.level].tasks[k]
            && NowPermuted(c.states[k := s], rs, c.level) == c1.states[r.to[k] := s]
            && NowPermuted(c.taken[k := n], rs, c.level) == c1.taken[r.to[k] := n]
  {
    hide Permuted, PastPermuted;
    var r := rs[c.level];
    assert Renames(r, sys1.levels[c.level].tasks, sys2.levels[c.level].tasks);
    PermutedUpdate(r, sys1.levels[c.level].tasks, sys2.levels[c.level].tasks, c.states, k, s);
    PermutedUpdate(r, sys1.levels[c.level].tasks, sys2.levels[c.level].tasks, c.taken, k, n);
  }

  lemma StepRenamed<L(!new), M(!new)>(sys1: System<L, M>, sys2: System<L, M>, rs: seq<Renaming>, c: Config<L, M>,
                                      k: nat)
    requires Reordered(sys1, sys2, rs) && Allowed(sys2, c, Step(k))
    requires c.level < |rs| && Allowed(sys1, RenamedConfig(rs, c), RenamedAction(rs[c.level], Step(k)))
    ensures Do(sys1, RenamedConfig(rs, c), RenamedAction(rs[c.level], Step(k)))
            == RenamedConfig(rs, Do(sys2, c, Step(k)))
  {
    hide Apply, Outcomes, NowPermuted, PastPermuted, Renames;
    var c' := Do(sys2, c, Step(k));
    OneTaskRenamed(sys1, sys2, rs, c, k, c'.states[k], c.taken[k] + 1);
  }

  lemma StateChangeRenamed<L(!new), M(!new)>(sys1: System<L, M>, sys2: System<L, M>, rs: seq<Renaming>,
                                             c: Config<L, M>, a: Action)
    requires Reordered(sys1, sys2, rs) && Allowed(sys2, c, a) && !a.EndLevel? && !a.Step?
    requires c.level < |rs| && Allowed(sys1, RenamedConfig(rs, c), RenamedAction(rs[c.level], a))
    ensures Do(sys1, RenamedConfig(rs, c), RenamedAction(rs[c.level], a)) == RenamedConfig(rs, Do(sys2, c, a))
  {
    hide Apply, Outcomes, NowPermuted, PastPermuted, Renames;
    var c' := Do(sys2, c, a);
    OneTaskRenamed(sys1, sys2, rs, c, a.k, c'.states[a.k], c.taken[a.k]);
  }

  lemma EndLevelRenamed<L(!new), M(!new)>(sys1: System<L, M>, sys2: System<L, M>, rs: seq<Renaming>, c: Config<L, M>)
    requires Reordered(sys1, sys2, rs) && Allowed(sys2, c, EndLevel)
    requires c.level < |rs| && Allowed(sys1, RenamedConfig(rs, c), EndLevel)
    ensures Do(sys1, RenamedConfig(rs, c), EndLevel) == RenamedConfig(rs, Do(sys2, c, EndLevel))
  {
    hide YesIds, SkippedOutcomes;
    var c1, c' := RenamedConfig(rs, c), Do(sys2, c, EndLevel);
    PastPermutedSnoc(c.past, c.taken, rs);
    if c.level + 1 < |rs| {
      SameSize(sys1, sys2, rs, c.level + 1);
      AllTheSame<TaskState<L>>(|sys2.levels[c.level + 1].tasks|, Waiting, rs[c.level + 1].back);
      AllTheSame<nat>(|sys2.levels[c.level + 1].tasks|, 0, rs[c.level + 1].back);
    }
  }

  lemma SameSize<L(!new), M(!new)>(sys1: System<L, M>, sys2: System<L, M>, rs: seq<Renaming>, j: nat)
    requires Reordered(sys1, sys2, rs) && j < |rs|
    ensures |sys1.levels[j].tasks| == |sys2.levels[j].tasks|
  {
    assert Renames(rs[j], sys1.levels[j].tasks, sys2.levels[j].tasks);
  }

  lemma AllTheSame<T>(n: nat, x: T, back: seq<nat>)
    ensures Permuted(seq(n, _ => x), back) == seq(n, _ => x)
  {
  }

  lemma PastPermutedSnoc(past: seq<seq<nat>>, taken: seq<nat>, rs: seq<Renaming>)
    ensures PastPermuted(past + [taken], rs) == PastPermuted(past, rs) + [NowPermuted(taken, rs, |past|)]
  {
    hide NowPermuted;
  }

  lemma StartRenamed<L(!new), M(!new)>(sys1: System<L, M>, sys2: System<L, M>, rs: seq<Renaming>, host: Host,
                                       manager: M)
    requires Reordered(sys1, sys2, rs)
    ensures RenamedConfig(rs, Start(sys2, host, manager)) == Start(sys1, host, manager)
  {
    if |rs| > 0 {
      SameSize(sys1, sys2, rs, 0);
      AllTheSame<TaskState<L>>(|sys2.levels[0].tasks|, Waiting, rs[0].back);
      AllTheSame<nat>(|sys2.levels[0].tasks|, 0, rs[0].back);
    }
    assert PastPermuted([], rs) == [];
  }

  lemma RenamedIsCrashFree(r: Renaming, a: Action)
    ensures RenamedAction(r, a).Crash? <==> a.Crash?
  {
  }

  /** A run over one order is a run over the other: same host, service manager, change set,
      report and records, only the tasks go by other names. */
  lemma {:induction false} RunRenamed<L(!new), M(!new)>(sys1: System<L, M>, sys2: System<L, M>, rs: seq<Renaming>,
                                                        host: Host, manager: M, acts: seq<Action>, c: Config<L, M>)
    returns (acts1: seq<Action>)
    requires Reordered(sys1, sys2, rs) && RunTo(sys2, host, manager, acts) == Some(c)
    ensures RunTo(sys1, host, manager, acts1) == Some(RenamedConfig(rs, c))
    ensures CrashFree(acts) ==> CrashFree(acts1)
    decreases |acts|
  {
    hide Reordered, Do, Allowed, RenamedConfig, RenamedAction;
    if acts == [] {
      StartRenamed(sys1, sys2, rs, host, manager);
      acts1 := [];
    } else {
      var before, a := RunTo(sys2, host, manager, acts[..|acts| - 1]).value, acts[|acts| - 1];
      var init := RunRenamed(sys1, sys2, rs, host, manager, acts[..|acts| - 1], before);
      AllowedRenamed(sys1, sys2, rs, before, a);
      var a1 := RenamedAction(rs[before.level], a);
      if a.EndLevel? { EndIsEnd(rs[before.level], a); EndLevelRenamed(sys1, sys2, rs, before); }
      else if a.Step? { StepRenamed(sys1, sys2, rs, before, a.k); }
      else { StateChangeRenamed(sys1, sys2, rs, before, a); }
      RunExtends(sys1, host, manager, init, RenamedConfig(rs, before), a1);
      RenamedIsCrashFree(rs[before.level], a);
      acts1 := init + [a1];
    }
  }

  lemma EndIsEnd(r: Renaming, a: Action)
    requires a.EndLevel?
    ensures RenamedAction(r, a) == EndLevel
  {
  }

  // ---------- theorems across orders ----------

  /** Schedule independence: any two completed runs from the same host, whatever their
      schedules and the orders of their tasks, end in the same host and change set, and
      their reports differ only by a permutation inside the segment of each level. */
  lemma ScheduleIndependence<L(!new), M(!new)>(sys1: System<L, M>, sys2: System<L, M>, rs: seq<Renaming>, host: Host,
                                               manager: M, acts1: seq<Action>, acts2: seq<Action>, c1: Config<L, M>,
                                               c2: Config<L, M>)
    requires Framed(sys1) && LevelsIndependent(sys1) && Reordered(sys1, sys2, rs)
    requires RunTo(sys1, host, manager, acts1) == Some(c1) && c1.phase == Completed
    requires RunTo(sys2, host, manager, acts2) == Some(c2) && c2.phase == Completed
    ensures c1.host == c2.host && c1.changed == c2.changed && |c1.report| == |c2.report|
    ensures forall j: nat :: j < |sys1.levels| ==> SameSegment(c1, c2, j)
  {
    hide Framed, LevelsIndependent, Reordered, RunTo, NowPermuted, PastPermuted;
    var acts := RunRenamed(sys1, sys2, rs, host, manager, acts2, c2);
    SameOrderSameResult(sys1, host, manager, acts1, acts, c1, RenamedConfig(rs, c2));
    forall j: nat | j < |sys1.levels| ensures SameSegment(c1, c2, j) {
      assert SameSegment(c1, RenamedConfig(rs, c2), j);
    }
  }

  /** Dry-run fidelity: a completed dry run and a completed apply run from the same host
      report the same outcomes, level by level, triggered commands and restarts included.
      Tasks of one level may write the same cells, as long as no other task senses them. */
  lemma DryRunFidelity<L(!new), M(!new)>(dry: System<L, M>, live1: System<L, M>, live: System<L, M>, rs: seq<Renaming>,
                                         idle: L -> bool, host: Host, manager: M, acts1: seq<Action>,
                                         acts2: seq<Action>, c1: Config<L, M>, c2: Config<L, M>)
    requires SamePlan(dry, live1) && Pure(dry, idle) && Predicts(dry, live1) && Reordered(live1, live, rs)
    requires Framed(dry) && LevelsApart(dry) && Framed(live1) && LevelsApart(live1) && Upstream(live1)
    requires RunTo(dry, host, manager, acts1) == Some(c1) && c1.phase == Completed
    requires RunTo(live, host, manager, acts2) == Some(c2) && c2.phase == Completed
    ensures c1.host == host && c1.changed == c2.changed
    ensures forall j: nat :: j < |dry.levels| ==>
              multiset(Segment(c1.records, c1.report, j)) == multiset(Segment(c2.records, c2.report, j))
  {
    hide Framed, LevelsApart, Upstream, Pure, Predicts, Reordered, RunTo, NowPermuted, PastPermuted, Segment;
    DryRunChangesNothing(dry, idle, host, manager, acts1, c1);
    var acts := RunRenamed(live1, live, rs, host, manager, acts2, c2);
    SameOrderFidelity(dry, live1, idle, host, manager, acts1, acts, c1, RenamedConfig(rs, c2));
  }

  /** Failures are not a matter of scheduling or order: if some run completes, no crash-free
      run from the same host is ever aborted. */
  lemma FailuresAreNotScheduled<L(!new), M(!new)>(sys1: System<L, M>, sys2: System<L, M>, rs: seq<Renaming>,
                                                  host: Host, manager: M, acts1: seq<Action>, acts2: seq<Action>,
                                                  c1: Config<L, M>, c2: Config<L, M>)
    requires Framed(sys1) && LevelsIndependent(sys1) && Reordered(sys1, sys2, rs)
    requires RunTo(sys1, host, manager, acts1) == Some(c1) && CrashFree(acts1)
    requires RunTo(sys2, host, manager, acts2) == Some(c2) && c2.phase == Completed
    ensures NoneFailed(c1)
  {
    hide Framed, LevelsIndependent, Reordered, RunTo, NowPermuted, PastPermuted, CrashFree, NoneFailed;
    var acts := RunRenamed(sys1, sys2, rs, host, manager, acts2, c2);
    SameOrderFailures(sys1, host, manager, acts1, acts, c1, RenamedConfig(rs, c2));
  }

  /** If some run completes, every crash-free run from the same host can still be completed,
      from wherever it is. */
  lemma EveryRunCanComplete<L(!new), M(!new)>(sys1: System<L, M>, sys2: System<L, M>, rs: seq<Renaming>, host: Host,
                                              manager: M, acts1: seq<Action>, acts2: seq<Action>, c1: Config<L, M>,
                                              c2: Config<L, M>)
    returns (more: seq<Action>, last: Config<L, M>)
    requires Framed(sys1) && LevelsIndependent(sys1) && Reordered(sys1, sys2, rs)
    requires RunTo(sys1, host, manager, acts1) == Some(c1) && CrashFree(acts1)
    requires RunTo(sys2, host, manager, acts2) == Some(c2) && c2.phase == Completed
    ensures RunTo(sys1, host, manager, acts1 + more) == Some(last) && CrashFree(more) && last.phase == Completed
  {
    hide Framed, LevelsIndependent, Reordered, RunTo, NowPermuted, PastPermuted, CrashFree;
    var acts := RunRenamed(sys1, sys2, rs, host, manager, acts2, c2);
    more, last := SameOrderCompletion(sys1, host, manager, acts1, acts, c1, RenamedConfig(rs, c2));
  }

  /** A plan that can be applied can be dry run: if some apply run completes, no crash-free
      dry run from the same host is ever aborted. */
  lemma DryRunDoesNotFail<L(!new), M(!new)>(dry: System<L, M>, live1: System<L, M>, live: System<L, M>,
                                            rs: seq<Renaming>, idle: L -> bool, host: Host, manager: M,
                                            acts1: seq<Action>, acts2: seq<Action>, c1: Config<L, M>, c2: Config<L, M>)
    requires SamePlan(dry, live1) && Pure(dry, idle) && Predicts(dry, live1) && Reordered(live1, live, rs)
    requires Framed(dry) && LevelsApart(dry) && Framed(live1) && LevelsApart(live1) && Upstream(live1)
    requires RunTo(dry, host, manager, acts1) == Some(c1) && CrashFree(acts1)
    requires RunTo(live, host, manager, acts2) == Some(c2) && c2.phase == Completed
    ensures NoneFailed(c1)
  {
    hide Framed, LevelsApart, Upstream, Pure, Predicts, Reordered, RunTo, NowPermuted, PastPermuted, CrashFree,
         NoneFailed;
    var acts := RunRenamed(live1, live, rs, host, manager, acts2, c2);
    SameOrderDryRun(dry, live1, idle, host, manager, acts1, acts, c1, RenamedConfig(rs, c2));
  }
}
