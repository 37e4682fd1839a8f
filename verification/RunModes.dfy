/** Whole runs: a dry run against an apply run, what a run reports, and what it leaves. They rest
    on footprint conditions: what a task senses is not touched before it runs, nor, for what a run
    leaves, after it has run. */
module RunModes {
  import opened HostModel
  import opened Run
  import opened RunReport
  import opened RunSchedule
  import opened RunViews

  predicate Position<L, M>(sys: System<L, M>, j: int, k: int) {
    0 <= j < |sys.levels| && 0 <= k < |sys.levels[j].tasks|
  }

  /** No task writes or makes a cell that a task of a later level senses. */
  ghost predicate Upstream<L, M>(sys: System<L, M>) {
    forall i, k, j, m :: Position(sys, i, k) && Position(sys, j, m) && i < j ==>
      Undisturbed(sys, sys.levels[i].tasks[k], sys.senses(sys.levels[j].tasks[m]))
  }

  /** No task writes a cell that a task of an earlier level senses, nor makes one, unless
      the earlier task has seen to it that it is there. */
  ghost predicate Downstream<L, M>(sys: System<L, M>) {
    forall i, k, j, m :: Position(sys, i, k) && Position(sys, j, m) && i > j ==>
      LeavesBe(sys, sys.levels[i].tasks[k], sys.levels[j].tasks[m])
  }

  ghost predicate LeavesBe<L, M>(sys: System<L, M>, later: Task, earlier: Task) {
    forall c :: c in sys.senses(earlier) ==> c !in sys.writes(later)
                                             && (c in sys.makes(later) ==> Establishes(sys, earlier, c))
  }

  /** Wherever the task finishes, the cell exists afterwards. */
  ghost predicate Establishes<L, M>(sys: System<L, M>, task: Task, c: Cell) {
    forall host: Host, changed, n: nat :: Alone(sys, task, host, changed, n).0.Finished? ==>
        c in Alone(sys, task, host, changed, n).1
  }

  /** Making a cell that exists already changes nothing. */
  ghost predicate Spares<L, M>(sys: System<L, M>, task: Task, cells: iset<Cell>, host: Host) {
    forall c :: c in cells ==> c !in sys.writes(task) && (c in sys.makes(task) ==> c in host)
  }

  // ---------- cells nobody touches ----------

  /** A level leaves alone the cells that none of its tasks touches. */
  lemma LevelKeeps<L(!new), M>(sys: System<L, M>, level: Level, before: Record, counts: seq<nat>, after: Record,
                               segment: seq<Outcome>, cells: iset<Cell>)
    requires LevelView(sys, level, before, counts, after, segment)
    requires forall t :: t in level.tasks ==> Spares(sys, t, cells, before.host)
    ensures Agree(before.host, after.host, cells)
  {
    hide JoinedBag, AloneJoined, AllPrivate;
    forall c | c in cells ensures Same(before.host, after.host, c) {
      forall m | 0 <= m < |level.tasks| ensures c !in sys.writes(level.tasks[m])
        && (c in sys.makes(level.tasks[m]) ==> c in before.host) {
        assert level.tasks[m] in level.tasks;
      }
      assert Unwritten(sys, level.tasks, c);
      assert KeptAt(sys, level.tasks, before.host, after.host, c);
    }
  }

  /** So do several levels in a row. */
  lemma {:induction false} LevelsKeep<L(!new), M>(sys: System<L, M>, c: Config<L, M>, a: nat, b: nat, cells: iset<Cell>)
    requires PastViews(sys, c.records, c.past, c.report) && a <= b <= |c.past|
    requires forall j, k :: a <= j < b && Position(sys, j, k) ==>
               Spares(sys, sys.levels[j].tasks[k], cells, c.records[a].host)
    ensures Agree(c.records[a].host, c.records[b].host, cells)
    decreases b
  {
    hide LevelView, Spares, Agree;
    if a == b {
      AgreeWithItself(c.records[a].host, cells);
    } else {
      LevelsKeep(sys, c, a, b - 1, cells);
      var tasks, host := sys.levels[b - 1].tasks, c.records[b - 1].host;
      forall t | t in tasks ensures Spares(sys, t, cells, host) {
        var k :| 0 <= k < |tasks| && tasks[k] == t;
        assert Position(sys, b - 1, k);
        StillSpares(sys, t, cells, c.records[a].host, host);
      }
      LevelKeeps(sys, sys.levels[b - 1], c.records[b - 1], c.past[b - 1], c.records[b],
                 Segment(c.records, c.report, b - 1), cells);
      AgreeTransitive(c.records[a].host, c.records[b - 1].host, c.records[b].host, cells);
    }
  }

  lemma AgreeWithItself(h: Host, cells: iset<Cell>)
    ensures Agree(h, h, cells)
  {
  }

  lemma StillSpares<L, M>(sys: System<L, M>, task: Task, cells: iset<Cell>, h1: Host, h2: Host)
    requires Spares(sys, task, cells, h1) && Agree(h1, h2, cells)
    ensures Spares(sys, task, cells, h2)
  {
    forall c | c in cells && c in sys.makes(task) ensures c in h2 { assert Same(h1, h2, c); }
  }

  /** What a task senses is not touched before its level starts. */
  lemma EarlierKeep<L(!new), M>(sys: System<L, M>, c: Config<L, M>, j: nat, k: nat)
    requires Upstream(sys) && PastViews(sys, c.records, c.past, c.report)
    requires j <= |c.past| && j < |sys.levels| && k < |sys.levels[j].tasks|
    ensures Agree(c.records[0].host, c.records[j].host, sys.senses(sys.levels[j].tasks[k]))
  {
    hide Agree, LevelView;
    assert Position(sys, j, k);
    LevelsKeep(sys, c, 0, j, sys.senses(sys.levels[j].tasks[k]));
  }

  /** Nor after its level has ended with the cells in place that the task establishes. */
  lemma LaterKeep<L(!new), M>(sys: System<L, M>, c: Config<L, M>, j: nat, k: nat)
    requires Downstream(sys) && PastViews(sys, c.records, c.past, c.report)
    requires j < |c.past| && k < |sys.levels[j].tasks|
    requires forall x :: x in sys.senses(sys.levels[j].tasks[k]) && Establishes(sys, sys.levels[j].tasks[k], x) ==>
               x in c.records[j + 1].host
    ensures Agree(c.records[j + 1].host, c.records[|c.past|].host, sys.senses(sys.levels[j].tasks[k]))
  {
    hide Agree, LevelView, Establishes;
    var task := sys.levels[j].tasks[k];
    var cells := sys.senses(task);
    assert Position(sys, j, k);
    forall i, m | j + 1 <= i < |c.past| && Position(sys, i, m)
      ensures Spares(sys, sys.levels[i].tasks[m], cells, c.records[j + 1].host) {
      assert LeavesBe(sys, sys.levels[i].tasks[m], task);
    }
    LevelsKeep(sys, c, j + 1, |c.past|, cells);
  }

  /** From hosts that look the same to a task, its runs alone look the same to it. */
  lemma {:induction false} AloneAgrees<L(!new), M>(sys: System<L, M>, task: Task, h1: Host, h2: Host,
                                                   changed: set<nat>, n: nat)
    requires Framed(sys) && Agree(h1, h2, sys.senses(task))
    ensures Alone(sys, task, h1, changed, n).0 == Alone(sys, task, h2, changed, n).0
    ensures Agree(Alone(sys, task, h1, changed, n).1, Alone(sys, task, h2, changed, n).1, sys.senses(task))
    decreases n
  {
    hide Framed, Agree, Apply;
    if n > 0 {
      AloneAgrees(sys, task, h1, h2, changed, n - 1);
      var (s, g1) := Alone(sys, task, h1, changed, n - 1);
      var g2 := Alone(sys, task, h2, changed, n - 1).1;
      if s.Running? {
        UseFramed(sys, task, s.local, changed, g1, g2);
        var move := sys.step(task, s.local, g1, changed);
        if !move.Fail? { ApplyKeepsAgreement(g1, g2, move.patch, sys.senses(task)); }
      }
    }
  }

  // ---------- dry runs ----------

  /** From an idle local state a task has no effect and stays idle, until it finishes. */
  ghost predicate Pure<L(!new), M(!new)>(sys: System<L, M>, idle: L -> bool) {
    && idle(sys.start)
    && (forall task, local, h: Host, changed :: idle(local) ==> PureMove(idle, sys.step(task, local, h, changed)))
    && (forall task, local, h: Host, manager :: idle(local) ==> sys.shadow(task, local, h, manager) == manager)
  }

  ghost predicate PureMove<L>(idle: L -> bool, move: Move<L>) {
    (!move.Fail? ==> move.patch == NOTHING) && (move.Next? ==> idle(move.local))
  }

  ghost predicate AllIdle<L, M>(idle: L -> bool, c: Config<L, M>) {
    forall k :: 0 <= k < |c.states| && c.states[k].Running? ==> idle(c.states[k].local)
  }

  /** In every reachable configuration of a dry run the host is as it was. */
  lemma {:induction false} DryRunChangesNothing<L(!new), M(!new)>(sys: System<L, M>, idle: L -> bool, host: Host,
                                                                  manager: M, acts: seq<Action>, c: Config<L, M>)
    requires Pure(sys, idle) && RunTo(sys, host, manager, acts) == Some(c)
    ensures c.host == host && c.manager == manager && AllIdle(idle, c)
    ensures forall i :: 0 <= i < |c.records| ==> c.records[i].host == host
    decreases |acts|
  {
    hide Pure, Do, Allowed;
    if acts != [] {
      var before := RunTo(sys, host, manager, acts[..|acts| - 1]).value;
      DryRunChangesNothing(sys, idle, host, manager, acts[..|acts| - 1], before);
      PureStep(sys, idle, before, acts[|acts| - 1]);
      NewRecord(sys, before, acts[|acts| - 1]);
    }
  }

  lemma PureStep<L(!new), M(!new)>(sys: System<L, M>, idle: L -> bool, c: Config<L, M>, a: Action)
    requires Pure(sys, idle) && Allowed(sys, c, a) && AllIdle(idle, c)
    ensures Do(sys, c, a).host == c.host && Do(sys, c, a).manager == c.manager && AllIdle(idle, Do(sys, c, a))
  {
    hide Outcomes, SkippedOutcomes, YesIds;
    if a.Step? {
      var move := sys.step(sys.levels[c.level].tasks[a.k], c.states[a.k].local, c.host, c.changed);
      assert PureMove(idle, move);
      assert Apply(c.host, NOTHING) == c.host;
    }
  }

  lemma NewRecord<L, M>(sys: System<L, M>, c: Config<L, M>, a: Action)
    requires Allowed(sys, c, a)
    ensures var r := Do(sys, c, a).records; r == c.records
                                            || (|r| > 0 && r[..|r| - 1] == c.records && r[|r| - 1].host == c.host)
  {
    hide Outcomes, SkippedOutcomes, YesIds, Apply;
  }

  /** Whatever verdicts a task applies, it also predicts. */
  ghost predicate Predicts<L(!new), M>(dry: System<L, M>, live: System<L, M>) {
    forall task, h: Host, changed, n: nat :: Alone(live, task, h, changed, n).0.Finished? ==>
      Comes(dry, task, h, changed, Alone(live, task, h, changed, n).0.verdicts)
  }

  /** Alone on this host the task eventually finishes with these verdicts. */
  ghost predicate Comes<L, M>(sys: System<L, M>, task: Task, host: Host, changed: set<nat>, verdicts: seq<Changed>) {
    exists n: nat :: Alone(sys, task, host, changed, n).0 == Finished(verdicts)
  }

  ghost predicate SamePlan<L, M>(dry: System<L, M>, live: System<L, M>) {
    dry.levels == live.levels && dry.hints == live.hints
  }

  lemma LevelPredicted<L(!new), M>(dry: System<L, M>, live: System<L, M>, c1: Config<L, M>, c2: Config<L, M>, j: nat)
    requires Framed(live) && Upstream(live) && SamePlan(dry, live) && Predicts(dry, live) && LevelsApart(dry)
    requires LevelsApart(live)
    requires PastViews(dry, c1.records, c1.past, c1.report) && PastViews(live, c2.records, c2.past, c2.report)
    requires j < |c1.past| && j < |c2.past|
    requires c1.records[j].host == c1.records[0].host == c2.records[0].host
    requires c1.records[j].changed == c2.records[j].changed
    ensures multiset(Segment(c1.records, c1.report, j)) == multiset(Segment(c2.records, c2.report, j))
    ensures c1.records[j + 1].changed == c2.records[j + 1].changed
  {
    hide Framed, Upstream, Kept, Predicts, Segment, Agree, JoinedBag, Private;
    var tasks, host, changed := live.levels[j].tasks, c1.records[j].host, c1.records[j].changed;
    var s1, s2 := Segment(c1.records, c1.report, j), Segment(c2.records, c2.report, j);
    assert LevelView(dry, dry.levels[j], c1.records[j], c1.past[j], c1.records[j + 1], s1);
    assert LevelView(live, live.levels[j], c2.records[j], c2.past[j], c2.records[j + 1], s2);
    forall k: nat | k < |tasks|
      ensures Alone(dry, tasks[k], host, changed, c1.past[j][k]).0
              == Alone(live, tasks[k], c2.records[j].host, changed, c2.past[j][k]).0
    {
      EarlierKeep(live, c2, j, k);
      AloneAgrees(live, tasks[k], host, c2.records[j].host, changed, c2.past[j][k]);
      Foretold(dry, live, tasks[k], host, changed, c1.past[j][k], c2.past[j][k]);
    }
    assert AloneJoined(dry, tasks, host, changed, c1.past[j])
           == AloneJoined(live, tasks, c2.records[j].host, changed, c2.past[j]);
    SameBagSameYes(s1, s2);
  }

  lemma Foretold<L(!new), M>(dry: System<L, M>, live: System<L, M>, task: Task, host: Host, changed: set<nat>, m: nat,
                             n: nat)
    requires Predicts(dry, live)
    requires Alone(dry, task, host, changed, m).0.Finished? && Alone(live, task, host, changed, n).0.Finished?
    ensures Alone(dry, task, host, changed, m).0 == Alone(live, task, host, changed, n).0
  {
    hide Alone;
    var verdicts := Alone(live, task, host, changed, n).0.verdicts;
    assert Comes(dry, task, host, changed, verdicts);
    var i: nat :| Alone(dry, task, host, changed, i).0 == Finished(verdicts);
    AloneUnique(dry, task, host, changed, m, i);
  }

  lemma {:induction false} LevelsPredicted<L(!new), M>(dry: System<L, M>, live: System<L, M>, c1: Config<L, M>,
                                                       c2: Config<L, M>, j: nat)
    requires Framed(live) && Upstream(live) && SamePlan(dry, live) && Predicts(dry, live) && LevelsApart(dry)
    requires LevelsApart(live)
    requires PastViews(dry, c1.records, c1.past, c1.report) && PastViews(live, c2.records, c2.past, c2.report)
    requires j <= |c1.past| && j <= |c2.past|
    requires forall i :: 0 <= i <= j ==> c1.records[i].host == c2.records[0].host
    ensures c1.records[j].changed == c2.records[j].changed
    ensures forall i: nat :: i < j ==>
              multiset(Segment(c1.records, c1.report, i)) == multiset(Segment(c2.records, c2.report, i))
    decreases j
  {
    hide Framed, Upstream, Predicts, LevelView, Segment, LevelsApart;
    if j > 0 {
      LevelsPredicted(dry, live, c1, c2, j - 1);
      LevelPredicted(dry, live, c1, c2, j - 1);
    }
  }

  /** Dry-run fidelity: a completed dry run and a completed apply run from the same
      host report the same outcomes, level by level, triggered commands and restarts
      included. */
  lemma SameOrderFidelity<L(!new), M(!new)>(dry: System<L, M>, live: System<L, M>, idle: L -> bool, host: Host,
                                            manager: M, acts1: seq<Action>, acts2: seq<Action>, c1: Config<L, M>,
                                            c2: Config<L, M>)
    requires SamePlan(dry, live) && Pure(dry, idle) && Predicts(dry, live)
    requires Framed(dry) && LevelsApart(dry) && Framed(live) && LevelsApart(live) && Upstream(live)
    requires RunTo(dry, host, manager, acts1) == Some(c1) && c1.phase == Completed
    requires RunTo(live, host, manager, acts2) == Some(c2) && c2.phase == Completed
    ensures c1.changed == c2.changed
    ensures forall i: nat :: i < |live.levels| ==>
              multiset(Segment(c1.records, c1.report, i)) == multiset(Segment(c2.records, c2.report, i))
  {
    hide Framed, Upstream, Predicts, Pure, LevelsApart, PastViews, Segment;
    ViewsAlways(dry, host, manager, acts1);
    ViewsAlways(live, host, manager, acts2);
    FirstRecord(live, host, manager, acts2);
    DryRunChangesNothing(dry, idle, host, manager, acts1, c1);
    LevelsPredicted(dry, live, c1, c2, |live.levels|);
  }

  // ---------- what a run reports ----------

  /** `verdicts` foresees what a task that runs alone reports, from the host and the change set. */
  ghost predicate Foretells<L(!new), M>(sys: System<L, M>, verdicts: (Task, Host, set<nat>) -> seq<Changed>) {
    forall task, h: Host, changed, n: nat :: Alone(sys, task, h, changed, n).0.Finished? ==>
      Alone(sys, task, h, changed, n).0.verdicts == verdicts(task, h, changed)
  }

  /** How the outcome of one resource in a run over `host` comes about. */
  ghost predicate Foreseen(verdicts: (Task, Host, set<nat>) -> seq<Changed>, level: Level, host: Host,
                           changed: set<nat>, o: Outcome) {
    || (o.changed == Skipped && o.id in level.skipped)
    || exists k, x :: 0 <= k < |level.tasks| && 0 <= x < |level.tasks[k].ids|
                      == |verdicts(level.tasks[k], host, changed)|
                      && o.id == level.tasks[k].ids[x] && o.changed == verdicts(level.tasks[k], host, changed)[x]
  }

  lemma {:induction false} BagComesFromTasks<L>(hints: seq<string>, tasks: seq<Task>, states: seq<TaskState<L>>,
                                                o: Outcome) returns (k: nat, x: nat)
    requires |tasks| == |states|
    requires forall k :: 0 <= k < |states| && states[k].Joined? ==> |states[k].verdicts| == |tasks[k].ids|
    requires o in JoinedBag(hints, tasks, states)
    ensures k < |tasks| && states[k].Joined? && x < |tasks[k].ids|
    ensures o.id == tasks[k].ids[x] && o.changed == states[k].verdicts[x]
    decreases |tasks|
  {
    if states[0].Joined? && o in multiset(Outcomes(hints, tasks[0].ids, states[0].verdicts)) {
      k := 0;
      x := OutcomeComesFrom(hints, tasks[0].ids, states[0].verdicts, o);
    } else {
      k, x := BagComesFromTasks(hints, tasks[1..], states[1..], o);
      k := k + 1;
    }
  }

  lemma {:induction false} OutcomeComesFrom(hints: seq<string>, ids: seq<nat>, verdicts: seq<Changed>, o: Outcome)
    returns (x: nat)
    requires |ids| == |verdicts| && o in Outcomes(hints, ids, verdicts)
    ensures x < |ids| && o.id == ids[x] && o.changed == verdicts[x]
  {
    if o == Outcome(ids[0], Hint(hints, ids[0]), verdicts[0]) {
      x := 0;
    } else {
      x := OutcomeComesFrom(hints, ids[1..], verdicts[1..], o);
      x := x + 1;
    }
  }

  /** At the end of the run a task's cells are as it left them. */
  lemma StaysAsLeft<L(!new), M>(sys: System<L, M>, c: Config<L, M>, j: nat, k: nat)
    requires Downstream(sys) && LevelsApart(sys)
    requires PastViews(sys, c.records, c.past, c.report) && |c.past| == |sys.levels|
    requires j < |sys.levels| && k < |sys.levels[j].tasks|
    ensures |c.past[j]| == |sys.levels[j].tasks|
    ensures var s := Alone(sys, sys.levels[j].tasks[k], c.records[j].host, c.records[j].changed, c.past[j][k]);
            s.0.Finished? && Agree(s.1, c.records[|sys.levels|].host, sys.senses(sys.levels[j].tasks[k]))
  {
    hide Downstream, Kept, Agree, AloneJoined, JoinedBag, Segment, Private;
    var tasks := sys.levels[j].tasks;
    var cells := sys.senses(tasks[k]);
    assert LevelView(sys, sys.levels[j], c.records[j], c.past[j], c.records[j + 1], Segment(c.records, c.report, j));
    var left := Alone(sys, tasks[k], c.records[j].host, c.records[j].changed, c.past[j][k]).1;
    AgreeBack(c.records[j + 1].host, left, cells);
    forall x | x in cells && Establishes(sys, tasks[k], x) ensures x in c.records[j + 1].host {
      EstablishedIsThere(sys, tasks[k], c.records[j], c.past[j][k], c.records[j + 1].host, x);
    }
    LaterKeep(sys, c, j, k);
    AgreeTransitive(left, c.records[j + 1].host, c.records[|sys.levels|].host, cells);
  }

  lemma EstablishedIsThere<L, M>(sys: System<L, M>, task: Task, before: Record, n: nat, host: Host, c: Cell)
    requires Establishes(sys, task, c) && Alone(sys, task, before.host, before.changed, n).0.Finished?
    requires c in sys.senses(task)
    requires Agree(Alone(sys, task, before.host, before.changed, n).1, host, sys.senses(task))
    ensures c in host
  {
    hide Alone;
    assert Same(Alone(sys, task, before.host, before.changed, n).1, host, c);
  }

  /** An outcome that is not Skipped is a verdict of a task that finished on its own. */
  lemma OutcomeComesFromTask<L(!new), M>(sys: System<L, M>, c: Config<L, M>, j: nat, o: Outcome)
    returns (k: nat, x: nat)
    requires LevelsApart(sys) && PastViews(sys, c.records, c.past, c.report)
    requires j < |c.past| && o in Segment(c.records, c.report, j)
    requires o !in SkippedOutcomes(sys.hints, sys.levels[j].skipped)
    ensures k < |sys.levels[j].tasks| == |c.past[j]| && x < |sys.levels[j].tasks[k].ids|
    ensures var s := Alone(sys, sys.levels[j].tasks[k], c.records[j].host, c.records[j].changed, c.past[j][k]).0;
            s.Finished? && |s.verdicts| == |sys.levels[j].tasks[k].ids|
            && o.id == sys.levels[j].tasks[k].ids[x] && o.changed == s.verdicts[x]
  {
    hide Kept, Agree, JoinedBag, Segment, Alone, Private;
    var level := sys.levels[j];
    assert LevelView(sys, level, c.records[j], c.past[j], c.records[j + 1], Segment(c.records, c.report, j));
    assert o in multiset(Segment(c.records, c.report, j));
    k, x := BagComesFromTasks(sys.hints, level.tasks,
                              AloneJoined(sys, level.tasks, c.records[j].host, c.records[j].changed, c.past[j]), o);
  }

  /** In every reachable configuration, every outcome of a finished level is the one foreseen
      from the host the run started on and the ids reported changed in earlier levels. */
  lemma OutcomesAreForeseen<L(!new), M(!new)>(sys: System<L, M>, verdicts: (Task, Host, set<nat>) -> seq<Changed>,
                                              host: Host, manager: M, acts: seq<Action>, c: Config<L, M>, j: nat,
                                              o: Outcome)
    requires Framed(sys) && Upstream(sys) && LevelsApart(sys) && Foretells(sys, verdicts)
    requires RunTo(sys, host, manager, acts) == Some(c) && j < |sys.levels| && j + 1 < |c.records|
    requires o in Segment(c.records, c.report, j)
    ensures Foreseen(verdicts, sys.levels[j], host, YesIds(Before(c.records, c.report, j)), o)
  {
    hide Framed, Upstream, LevelsApart, Segment, Before, LevelView, Agree, Alone;
    ViewsAlways(sys, host, manager, acts);
    ShapeAlways(sys, host, manager, acts);
    FirstRecord(sys, host, manager, acts);
    ChangedIsReported(sys.hints, sys.levels, c.records, c.report, j);
    var level, changed := sys.levels[j], c.records[j].changed;
    if o in SkippedOutcomes(sys.hints, level.skipped) {
      SkippedIds(sys.hints, level.skipped);
      IdIsListed(SkippedOutcomes(sys.hints, level.skipped), o);
    } else {
      var k, x := OutcomeComesFromTask(sys, c, j, o);
      EarlierKeep(sys, c, j, k);
      AloneAgrees(sys, level.tasks[k], host, c.records[j].host, changed, c.past[j][k]);
      assert Alone(sys, level.tasks[k], host, changed, c.past[j][k]).0.verdicts
             == verdicts(level.tasks[k], host, changed);
    }
  }
}
