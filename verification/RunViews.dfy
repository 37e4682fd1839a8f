/** What a task sees of the host. If no other task of its level touches what it senses, it
    goes in every run through the states it goes through alone, whatever the others do to
    each other. Nothing is asked of cells that nobody senses. */
module RunViews {
  import opened HostModel
  import opened Run
  import opened RunReport
  import opened RunSchedule

  ghost predicate Undisturbed<L, M>(sys: System<L, M>, task: Task, cells: iset<Cell>) {
    forall c :: c in cells ==> c !in sys.writes(task) && c !in sys.makes(task)
  }

  /** No other task of the level writes or makes a cell that task `k` senses. */
  ghost predicate Private<L, M>(sys: System<L, M>, tasks: seq<Task>, k: int)
    requires 0 <= k < |tasks|
  {
    forall m :: 0 <= m < |tasks| && m != k ==> Undisturbed(sys, tasks[m], sys.senses(tasks[k]))
  }

  ghost predicate AllPrivate<L, M>(sys: System<L, M>, tasks: seq<Task>) {
    forall k :: 0 <= k < |tasks| ==> Private(sys, tasks, k)
  }

  ghost predicate LevelsApart<L, M>(sys: System<L, M>) {
    forall j :: 0 <= j < |sys.levels| ==> AllPrivate(sys, sys.levels[j].tasks)
  }

  lemma IndependentMeansApart<L, M>(sys: System<L, M>)
    requires LevelsIndependent(sys)
    ensures LevelsApart(sys)
  {
    forall j, k, m | 0 <= j < |sys.levels| && 0 <= k < |sys.levels[j].tasks| && 0 <= m < |sys.levels[j].tasks| && m != k
      ensures Undisturbed(sys, sys.levels[j].tasks[m], sys.senses(sys.levels[j].tasks[k]))
    {
      assert Independent(sys, sys.levels[j].tasks[m], sys.levels[j].tasks[k]);
    }
  }

  // ---------- the level under way ----------

  /** A cell that no task writes is as it was, or a directory made on the way to something. */
  ghost predicate KeptAt<L, M>(sys: System<L, M>, tasks: seq<Task>, before: Host, now: Host, c: Cell) {
    if c in before then Same(before, now, c)
    else c in now ==> now[c] == FRESH_DIR && exists m :: 0 <= m < |tasks| && c in sys.makes(tasks[m])
  }

  ghost predicate Unwritten<L, M>(sys: System<L, M>, tasks: seq<Task>, c: Cell) {
    forall m :: 0 <= m < |tasks| ==> c !in sys.writes(tasks[m])
  }

  ghost predicate Kept<L, M>(sys: System<L, M>, tasks: seq<Task>, before: Host, now: Host) {
    forall c :: Unwritten(sys, tasks, c) ==> KeptAt(sys, tasks, before, now, c)
  }

  /** The task is where it would be alone after as many steps, and sees what it would see. */
  ghost predicate View<L, M>(sys: System<L, M>, task: Task, state: TaskState<L>, before: Record, n: nat, host: Host) {
    var (s, h) := Alone(sys, task, before.host, before.changed, n);
    TaskMatches(state, s, n) && Agree(host, h, sys.senses(task))
  }

  ghost predicate Viewed<L, M>(sys: System<L, M>, tasks: seq<Task>, states: seq<TaskState<L>>, before: Record,
                               counts: seq<nat>, host: Host)
  {
    && |tasks| == |states| == |counts|
    && Kept(sys, tasks, before.host, host)
    && forall k :: 0 <= k < |tasks| && Private(sys, tasks, k) ==>
        View(sys, tasks[k], states[k], before, counts[k], host)
  }

  lemma PatchSpares(h: Host, p: Patch, cells: iset<Cell>)
    requires forall c :: c in cells ==> c !in p.put && c !in p.del && c !in p.make
    ensures Agree(h, Apply(h, p), cells)
  {
  }

  lemma AgreeTransitive(a: Host, b: Host, c: Host, cells: iset<Cell>)
    requires Agree(a, b, cells) && Agree(b, c, cells)
    ensures Agree(a, c, cells) && Agree(c, a, cells)
  {
    forall x | x in cells ensures Same(a, c, x) { assert Same(a, b, x) && Same(b, c, x); }
    forall x | x in cells ensures Same(c, a, x) { assert Same(a, c, x); }
  }

  lemma AgreeBack(a: Host, b: Host, cells: iset<Cell>)
    requires Agree(a, b, cells)
    ensures Agree(b, a, cells)
  {
    forall c | c in cells ensures Same(b, a, c) { assert Same(a, b, c); }
  }

  /** Its own step keeps a task in view. */
  lemma OwnStepInView<L(!new), M>(sys: System<L, M>, task: Task, state: TaskState<L>, before: Record, n: nat,
                                  host: Host)
    requires Framed(sys) && View(sys, task, state, before, n, host) && state.Running?
    ensures var move := sys.step(task, state.local, host, before.changed);
            View(sys, task, After(task, move), before, n + 1, HostAfter(host, move))
  {
    hide Framed, Agree, Apply, Alone, After;
    var (s, h) := Alone(sys, task, before.host, before.changed, n);
    var move := sys.step(task, state.local, host, before.changed);
    AloneNext(sys, task, before.host, before.changed, n);
    UseFramed(sys, task, state.local, before.changed, host, h);
    AfterMatches(task, move, n + 1);
    if !move.Fail? { ApplyKeepsAgreement(host, h, move.patch, sys.senses(task)); }
  }

  /** So does another task's step that touches nothing the task senses. */
  lemma OtherStepInView<L(!new), M>(sys: System<L, M>, task: Task, state: TaskState<L>, before: Record, n: nat,
                                    host: Host, other: Task, move: Move<L>)
    requires View(sys, task, state, before, n, host)
    requires Within(sys, other, move) && Undisturbed(sys, other, sys.senses(task))
    ensures View(sys, task, state, before, n, HostAfter(host, move))
  {
    hide Agree, Apply, Alone;
    if !move.Fail? {
      PatchSpares(host, move.patch, sys.senses(task));
      AgreeBack(host, Apply(host, move.patch), sys.senses(task));
      AgreeTransitive(HostAfter(host, move), host, Alone(sys, task, before.host, before.changed, n).1,
                      sys.senses(task));
    }
  }

  lemma StepKeeps<L(!new), M>(sys: System<L, M>, tasks: seq<Task>, before: Host, host: Host, k: nat, move: Move<L>)
    requires Kept(sys, tasks, before, host) && k < |tasks| && Within(sys, tasks[k], move)
    ensures Kept(sys, tasks, before, HostAfter(host, move))
  {
    forall c | Unwritten(sys, tasks, c) ensures KeptAt(sys, tasks, before, HostAfter(host, move), c) {
      assert KeptAt(sys, tasks, before, host, c);
      assert c !in sys.writes(tasks[k]);
    }
  }

  lemma ViewedStep<L(!new), M>(sys: System<L, M>, tasks: seq<Task>, states: seq<TaskState<L>>, before: Record,
                               counts: seq<nat>, host: Host, k: nat)
    requires Framed(sys) && Viewed(sys, tasks, states, before, counts, host) && k < |tasks| && states[k].Running?
    ensures var move := sys.step(tasks[k], states[k].local, host, before.changed);
            Viewed(sys, tasks, states[k := After(tasks[k], move)], before, counts[k := counts[k] + 1],
                   HostAfter(host, move))
  {
    hide Framed, View, Kept, After, HostAfter, Undisturbed, Within;
    var move := sys.step(tasks[k], states[k].local, host, before.changed);
    StepIsWithin(sys, tasks[k], states[k].local, host, before.changed);
    StepKeeps(sys, tasks, before.host, host, k, move);
    var states', counts' := states[k := After(tasks[k], move)], counts[k := counts[k] + 1];
    forall m | 0 <= m < |tasks| && Private(sys, tasks, m)
      ensures View(sys, tasks[m], states'[m], before, counts'[m], HostAfter(host, move))
    {
      if m == k { OwnStepInView(sys, tasks[k], states[k], before, counts[k], host); }
      else { OtherStepInView(sys, tasks[m], states[m], before, counts[m], host, tasks[k], move); }
    }
  }

  lemma StepIsWithin<L(!new), M>(sys: System<L, M>, task: Task, local: L, host: Host, changed: set<nat>)
    requires Framed(sys)
    ensures Within(sys, task, sys.step(task, local, host, changed))
  {
  }

  lemma ViewedAtStart<L, M>(sys: System<L, M>, tasks: seq<Task>, before: Record)
    ensures Viewed(sys, tasks, seq(|tasks|, _ => Waiting), before, seq(|tasks|, _ => 0), before.host)
  {
  }

  // ---------- the finished levels ----------

  /** What a finished level did: to cells nobody writes; and, where all tasks are private,
      to what each task senses, and in the report. */
  ghost predicate LevelView<L, M>(sys: System<L, M>, level: Level, before: Record, counts: seq<nat>, after: Record,
                                  segment: seq<Outcome>) {
    && Kept(sys, level.tasks, before.host, after.host)
    && after.changed == before.changed + YesIds(segment)
    && (AllPrivate(sys, level.tasks) ==>
          && AllFinish(sys, level.tasks, before.host, before.changed, counts)
          && (forall k :: 0 <= k < |level.tasks| ==>
                Agree(after.host, Alone(sys, level.tasks[k], before.host, before.changed, counts[k]).1,
                      sys.senses(level.tasks[k])))
          && multiset(segment) == multiset(SkippedOutcomes(sys.hints, level.skipped))
               + JoinedBag(sys.hints, level.tasks, AloneJoined(sys, level.tasks, before.host, before.changed, counts)))
  }

  ghost predicate PastViews<L, M>(sys: System<L, M>, records: seq<Record>, past: seq<seq<nat>>, report: seq<Outcome>) {
    && Offsets(records, report) && |records| == |past| + 1 && |past| <= |sys.levels|
    && forall j: nat :: j < |past| ==>
         LevelView(sys, sys.levels[j], records[j], past[j], records[j + 1], Segment(records, report, j))
  }

  ghost predicate NowInView<L, M>(sys: System<L, M>, c: Config<L, M>)
    requires Shape(sys, c)
  {
    if c.level == |sys.levels| then c.host == c.records[c.level].host
    else Viewed(sys, sys.levels[c.level].tasks, c.states, c.records[c.level], c.taken, c.host)
  }

  ghost predicate ViewInv<L, M>(sys: System<L, M>, c: Config<L, M>) {
    Inv(sys, c) && NowInView(sys, c) && PastViews(sys, c.records, c.past, c.report)
  }

  lemma PastViewsGrow<L, M>(sys: System<L, M>, records: seq<Record>, past: seq<seq<nat>>, report: seq<Outcome>,
                            more: seq<Outcome>)
    requires PastViews(sys, records, past, report)
    ensures PastViews(sys, records, past, report + more)
  {
    hide LevelView, Segment;
    SegmentsStay(records, report, more, []);
    assert records + [] == records;
  }

  lemma PastViewsEnd<L, M>(sys: System<L, M>, records: seq<Record>, past: seq<seq<nat>>, report: seq<Outcome>,
                           counts: seq<nat>, next: Record)
    requires PastViews(sys, records, past, report) && |past| < |sys.levels| && next.from == |report|
    requires var last := records[|past|];
             LevelView(sys, sys.levels[|past|], last, counts, next, report[last.from..])
    ensures PastViews(sys, records + [next], past + [counts], report)
  {
    hide LevelView, Segment;
    var more, done := records + [next], past + [counts];
    LastSegment(records, report, next);
    SegmentsStay(records, report, [], [next]);
    assert report + [] == report;
    forall j: nat | j < |done|
      ensures LevelView(sys, sys.levels[j], more[j], done[j], more[j + 1], Segment(more, report, j))
    {
      assert j < |past| ==> Segment(more, report, j) == Segment(records, report, j);
    }
  }

  lemma StepKeepsViews<L(!new), M>(sys: System<L, M>, c: Config<L, M>, k: nat)
    requires Framed(sys) && ViewInv(sys, c) && Allowed(sys, c, Step(k))
    ensures ViewInv(sys, Do(sys, c, Step(k)))
  {
    hide Inv, Viewed, PastViews, Framed, Apply;
    InvPreserved(sys, c, Step(k));
    ShapePreserved(sys, c, Step(k));
    ShapeOfInv(sys, c);
    ViewedStep(sys, sys.levels[c.level].tasks, c.states, c.records[c.level], c.taken, c.host, k);
  }

  lemma OthersKeepViews<L, M>(sys: System<L, M>, c: Config<L, M>, a: Action)
    requires ViewInv(sys, c) && Allowed(sys, c, a) && !a.Step? && !a.EndLevel?
    ensures ViewInv(sys, Do(sys, c, a))
  {
    hide Inv, Kept, PastViews, Apply, YesIds, Agree, Private;
    InvPreserved(sys, c, a);
    ShapePreserved(sys, c, a);
    if a.Join? && c.states[a.k].Finished? {
      PastViewsGrow(sys, c.records, c.past, c.report,
                    Outcomes(sys.hints, sys.levels[c.level].tasks[a.k].ids, c.states[a.k].verdicts));
    }
  }

  lemma EndKeepsViews<L, M>(sys: System<L, M>, c: Config<L, M>)
    requires ViewInv(sys, c) && Allowed(sys, c, EndLevel)
    ensures ViewInv(sys, Do(sys, c, EndLevel))
  {
    hide Inv, Viewed, LevelView, YesIds, PastViews;
    InvPreserved(sys, c, EndLevel);
    ShapePreserved(sys, c, EndLevel);
    ShapeOfInv(sys, c);
    var segment := c.report[c.records[c.level].from..];
    var next := Record(c.host, c.changed + YesIds(segment), |c.report|);
    LevelComesInView(sys, c, next);
    PastViewsEnd(sys, c.records, c.past, c.report, c.taken, next);
    if c.level + 1 < |sys.levels| {
      PastViewsGrow(sys, c.records + [next], c.past + [c.taken], c.report,
                    SkippedOutcomes(sys.hints, sys.levels[c.level + 1].skipped));
      ViewedAtStart(sys, sys.levels[c.level + 1].tasks, next);
    }
  }

  lemma LevelComesInView<L, M>(sys: System<L, M>, c: Config<L, M>, next: Record)
    requires ViewInv(sys, c) && Allowed(sys, c, EndLevel)
    requires next.host == c.host && next.changed == c.changed + YesIds(c.report[c.records[c.level].from..])
    ensures LevelView(sys, sys.levels[c.level], c.records[c.level], c.taken, next, c.report[c.records[c.level].from..])
  {
    hide PastViews, PastOk, Kept, Agree, Alone;
    var rec, tasks := c.records[c.level], sys.levels[c.level].tasks;
    if AllPrivate(sys, tasks) {
      JoinedAreAlone(sys, tasks, c.states, rec.host, rec.changed, c.taken);
    }
  }

  lemma ViewsPreserved<L(!new), M>(sys: System<L, M>, c: Config<L, M>, a: Action)
    requires Framed(sys) && ViewInv(sys, c) && Allowed(sys, c, a)
    ensures ViewInv(sys, Do(sys, c, a))
  {
    hide ViewInv, Do, Framed;
    if a.Step? { StepKeepsViews(sys, c, a.k); }
    else if a.EndLevel? { EndKeepsViews(sys, c); }
    else { OthersKeepViews(sys, c, a); }
  }

  lemma ViewsBegin<L, M>(sys: System<L, M>, host: Host, manager: M)
    ensures ViewInv(sys, Start(sys, host, manager))
  {
    hide Inv, Viewed;
    LevelBegins(sys, 0, host, manager, {}, [], [], []);
    if |sys.levels| > 0 { ViewedAtStart(sys, sys.levels[0].tasks, Record(host, {}, 0)); }
  }

  /** In every run of every system: private tasks are as they would be alone. */
  lemma {:induction false} ViewsAlways<L(!new), M>(sys: System<L, M>, host: Host, manager: M, acts: seq<Action>)
    requires Framed(sys)
    ensures var r := RunTo(sys, host, manager, acts); r.Some? ==> ViewInv(sys, r.value)
  {
    hide ViewInv, Do, Framed, Allowed;
    if acts == [] {
      ViewsBegin(sys, host, manager);
    } else {
      ViewsAlways(sys, host, manager, acts[..|acts| - 1]);
      var c := RunTo(sys, host, manager, acts[..|acts| - 1]);
      if c.Some? && Allowed(sys, c.value, acts[|acts| - 1]) {
        ViewsPreserved(sys, c.value, acts[|acts| - 1]);
      }
    }
  }
}
