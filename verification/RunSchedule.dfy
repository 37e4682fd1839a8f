/** Schedule independence: when the tasks of a level do not touch what the others
    sense or write, every schedule of a run gives the same result. The proof
    compares each task with the same task run alone from the start of its level. */
module RunSchedule {
  import opened HostModel
  import opened Run
  import opened RunReport

  // ---------- a task on its own ----------

  function After<L>(task: Task, move: Move<L>): TaskState<L> {
    match move
    case Next(next, _) => Running(next)
    case Finish(v, _) => if |v| == |task.ids| then Finished(v) else Failed
    case Fail => Failed
  }

  function HostAfter<L>(host: Host, move: Move<L>): Host {
    if move.Fail? then host else Apply(host, move.patch)
  }

  /** State and host after a task has taken up to `n` steps with nothing else running. */
  function Alone<L, M>(sys: System<L, M>, task: Task, host: Host, changed: set<nat>, n: nat): (TaskState<L>, Host) {
    if n == 0 then (Running(sys.start), host) else
    var (s, h) := Alone(sys, task, host, changed, n - 1);
    if !s.Running? then (s, h) else
    var move := sys.step(task, s.local, h, changed);
    (After(task, move), HostAfter(h, move))
  }

  /** The footprints are honest: a step depends only on what the task senses, and
      its patch stays within what the task writes or makes. */
  ghost predicate Framed<L(!new), M>(sys: System<L, M>) {
    && (forall task, local, changed, h1: Host, h2: Host :: Agree(h1, h2, sys.senses(task)) ==>
          sys.step(task, local, h1, changed) == sys.step(task, local, h2, changed))
    && (forall task, local, changed, h: Host :: Within(sys, task, sys.step(task, local, h, changed)))
  }

  lemma UseFramed<L(!new), M>(sys: System<L, M>, task: Task, local: L, changed: set<nat>, h1: Host, h2: Host)
    requires Framed(sys) && Agree(h1, h2, sys.senses(task))
    ensures sys.step(task, local, h1, changed) == sys.step(task, local, h2, changed)
    ensures Within(sys, task, sys.step(task, local, h1, changed))
  {
  }

  ghost predicate Within<L, M>(sys: System<L, M>, task: Task, move: Move<L>) {
    !move.Fail? ==> WithinPatch(sys, task, move.patch)
  }

  ghost predicate WithinPatch<L, M>(sys: System<L, M>, task: Task, p: Patch) {
    && (forall c :: c in p.put || c in p.del ==> c in sys.writes(task))
    && (forall c :: c in p.make ==> c in sys.makes(task))
  }

  /** Two tasks do not conflict. Both may make the same directory. */
  ghost predicate Independent<L, M>(sys: System<L, M>, t: Task, u: Task) {
    && (forall c :: c in sys.writes(t) ==> c !in sys.senses(u) && c !in sys.writes(u) && c !in sys.makes(u))
    && (forall c :: c in sys.makes(t) ==> c !in sys.senses(u) && c !in sys.writes(u))
  }

  ghost predicate LevelsIndependent<L, M>(sys: System<L, M>) {
    forall j, k, m :: 0 <= j < |sys.levels| && 0 <= k < |sys.levels[j].tasks| && 0 <= m < |sys.levels[j].tasks|
                      && k != m ==>
      Independent(sys, sys.levels[j].tasks[k], sys.levels[j].tasks[m])
  }

  /** A task alone changes only its own cells, apart from directories it makes. */
  ghost predicate Confined<L, M>(sys: System<L, M>, task: Task, before: Host, after: Host) {
    forall c :: c !in sys.writes(task) ==>
      if c in before then Same(before, after, c)
      else c in after ==> c in sys.makes(task) && after[c] == FRESH_DIR
  }

  lemma {:induction false} AloneConfined<L(!new), M>(sys: System<L, M>, task: Task, host: Host, changed: set<nat>,
                                                     n: nat)
    requires Framed(sys)
    ensures Confined(sys, task, host, Alone(sys, task, host, changed, n).1)
    decreases n
  {
    if n > 0 {
      AloneConfined(sys, task, host, changed, n - 1);
      var (s, h) := Alone(sys, task, host, changed, n - 1);
      if s.Running? {
        assert Within(sys, task, sys.step(task, s.local, h, changed));
      }
    }
  }

  lemma AloneNext<L, M>(sys: System<L, M>, task: Task, host: Host, changed: set<nat>, n: nat)
    requires Alone(sys, task, host, changed, n).0.Running?
    ensures var (s, h) := Alone(sys, task, host, changed, n);
            var move := sys.step(task, s.local, h, changed);
            Alone(sys, task, host, changed, n + 1) == (After(task, move), HostAfter(h, move))
  {
  }

  lemma AfterMatches<L>(task: Task, move: Move<L>, n: nat)
    ensures TaskMatches(After(task, move), After(task, move), n)
  {
  }

  /** A task that is done stays done. */
  lemma {:induction false} AloneDone<L, M>(sys: System<L, M>, task: Task, host: Host, changed: set<nat>, n: nat, m: nat)
    requires n <= m && !Alone(sys, task, host, changed, n).0.Running?
    ensures Alone(sys, task, host, changed, m) == Alone(sys, task, host, changed, n)
    decreases m
  {
    if n < m { AloneDone(sys, task, host, changed, n, m - 1); }
  }

  /** So the result of a task on its own does not depend on when one looks. */
  lemma AloneUnique<L, M>(sys: System<L, M>, task: Task, host: Host, changed: set<nat>, n: nat, m: nat)
    requires !Alone(sys, task, host, changed, n).0.Running? && !Alone(sys, task, host, changed, m).0.Running?
    ensures Alone(sys, task, host, changed, m) == Alone(sys, task, host, changed, n)
  {
    if n <= m { AloneDone(sys, task, host, changed, n, m); } else { AloneDone(sys, task, host, changed, m, n); }
  }

  // ---------- merging what the tasks did ----------

  /** `host` is the level's starting host with the work of every task laid over it;
      `solo[k]` is the host task `k` would have made alone. */
  ghost predicate MergedAt<L, M>(sys: System<L, M>, tasks: seq<Task>, start: Host, solo: seq<Host>, host: Host, c: Cell)
    requires |solo| == |tasks|
  {
    && (forall k :: 0 <= k < |tasks| && c in sys.writes(tasks[k]) ==> Same(host, solo[k], c))
    && ((forall k :: 0 <= k < |tasks| ==> c !in sys.writes(tasks[k])) ==>
          if c in start then Same(host, start, c)
          else (c in host <==> exists k :: 0 <= k < |solo| && c in solo[k]) && (c in host ==> host[c] == FRESH_DIR))
  }

  ghost predicate Merged<L, M>(sys: System<L, M>, tasks: seq<Task>, start: Host, solo: seq<Host>, host: Host)
    requires |solo| == |tasks|
  {
    forall c :: MergedAt(sys, tasks, start, solo, host, c)
  }

  lemma MergedUnique<L, M>(sys: System<L, M>, tasks: seq<Task>, start: Host, solo: seq<Host>, h1: Host, h2: Host)
    requires |solo| == |tasks| && Merged(sys, tasks, start, solo, h1) && Merged(sys, tasks, start, solo, h2)
    ensures h1 == h2
  {
    forall c ensures Same(h1, h2, c) {
      assert MergedAt(sys, tasks, start, solo, h1, c) && MergedAt(sys, tasks, start, solo, h2, c);
    }
    AgreeEverywhere(h1, h2);
  }

  ghost predicate PairwiseIndependent<L, M>(sys: System<L, M>, tasks: seq<Task>) {
    forall k, m :: 0 <= k < |tasks| && 0 <= m < |tasks| && k != m ==> Independent(sys, tasks[k], tasks[m])
  }

  /** In the merged host each task still senses what it would sense alone. */
  lemma MergedAgrees<L, M>(sys: System<L, M>, tasks: seq<Task>, start: Host, solo: seq<Host>, host: Host, k: nat)
    requires |solo| == |tasks| && k < |tasks| && PairwiseIndependent(sys, tasks)
    requires Merged(sys, tasks, start, solo, host)
    requires forall m :: 0 <= m < |tasks| ==> Confined(sys, tasks[m], start, solo[m])
    ensures Agree(host, solo[k], sys.senses(tasks[k]))
  {
    forall c | c in sys.senses(tasks[k]) ensures Same(host, solo[k], c) {
      assert MergedAt(sys, tasks, start, solo, host, c);
      if c !in sys.writes(tasks[k]) {
        forall m | 0 <= m < |tasks| ensures c !in sys.writes(tasks[m]) {
          assert m != k ==> Independent(sys, tasks[m], tasks[k]);
        }
        forall m | 0 <= m < |tasks| && m != k && c !in start ensures c !in solo[m] {
          assert Independent(sys, tasks[m], tasks[k]);
        }
      }
    }
  }

  /** Letting task `k` take a step in the merged host is letting it take it alone. */
  lemma MergedStep<L, M>(sys: System<L, M>, tasks: seq<Task>, start: Host, solo: seq<Host>, host: Host, k: nat,
                         p: Patch)
    requires |solo| == |tasks| && k < |tasks| && PairwiseIndependent(sys, tasks)
    requires Merged(sys, tasks, start, solo, host)
    requires Confined(sys, tasks[k], start, solo[k])
    requires WithinPatch(sys, tasks[k], p)
    ensures Merged(sys, tasks, start, solo[k := Apply(solo[k], p)], Apply(host, p))
  {
    var solo' := solo[k := Apply(solo[k], p)];
    var host' := Apply(host, p);
    forall c ensures MergedAt(sys, tasks, start, solo', host', c) {
      assert MergedAt(sys, tasks, start, solo, host, c);
      forall m | 0 <= m < |tasks| && c in sys.writes(tasks[m]) ensures Same(host', solo'[m], c) {
        assert Same(host, solo[m], c);
        if m != k {
          assert Independent(sys, tasks[m], tasks[k]);
          assert c !in p.put && c !in p.del && c !in p.make;
        }
      }
      if (forall m :: 0 <= m < |tasks| ==> c !in sys.writes(tasks[m])) && c !in start {
        assert solo'[k] == Apply(solo[k], p);
        assert forall m :: 0 <= m < |tasks| && m != k ==> solo'[m] == solo[m];
        if c in p.make {
          assert c in solo'[k];
        }
      }
    }
  }

  // ---------- every reachable configuration is a merge ----------

  function SoloHosts<L, M>(sys: System<L, M>, tasks: seq<Task>, start: Host, changed: set<nat>,
                           counts: seq<nat>): (r: seq<Host>)
    requires |counts| == |tasks|
    ensures |r| == |tasks|
    ensures forall k :: 0 <= k < |r| ==> r[k] == Alone(sys, tasks[k], start, changed, counts[k]).1
  {
    if tasks == [] then [] else
      [Alone(sys, tasks[0], start, changed, counts[0]).1] + SoloHosts(sys, tasks[1..], start, changed, counts[1..])
  }

  lemma SoloHostsUpdate<L, M>(sys: System<L, M>, tasks: seq<Task>, start: Host, changed: set<nat>, counts: seq<nat>,
                              k: nat, n: nat)
    requires |counts| == |tasks| && k < |tasks|
    ensures SoloHosts(sys, tasks, start, changed, counts[k := n])
            == SoloHosts(sys, tasks, start, changed, counts)[k := Alone(sys, tasks[k], start, changed, n).1]
  {
  }

  /** The state of a task in the run, against its state alone after as many steps. */
  ghost predicate TaskMatches<L>(state: TaskState<L>, alone: TaskState<L>, steps: nat) {
    match state
    case Waiting => steps == 0
    case Running(_) => alone == state
    case Finished(v) => alone == Finished(v)
    case Joined(v) => alone == Finished(v)
    case _ => true
  }

  ghost predicate NowMerged<L, M>(sys: System<L, M>, tasks: seq<Task>, states: seq<TaskState<L>>, start: Host,
                                  changed: set<nat>, counts: seq<nat>, host: Host)
  {
    && |tasks| == |states| == |counts|
    && (forall k :: 0 <= k < |tasks| ==> TaskMatches(states[k], Alone(sys, tasks[k], start, changed, counts[k]).0,
                                                     counts[k]))
    && Merged(sys, tasks, start, SoloHosts(sys, tasks, start, changed, counts), host)
  }

  /** All tasks have finished on their own after these many steps. */
  ghost predicate AllFinish<L, M>(sys: System<L, M>, tasks: seq<Task>, start: Host, changed: set<nat>,
                                  counts: seq<nat>) {
    && |counts| == |tasks|
    && forall k :: 0 <= k < |tasks| ==>
         var s := Alone(sys, tasks[k], start, changed, counts[k]).0;
         s.Finished? && |s.verdicts| == |tasks[k].ids|
  }

  ghost function AloneJoined<L, M>(sys: System<L, M>, tasks: seq<Task>, start: Host, changed: set<nat>,
                                   counts: seq<nat>)
    : (r: seq<TaskState<L>>)
    requires AllFinish(sys, tasks, start, changed, counts)
    ensures |r| == |tasks|
    ensures forall k :: 0 <= k < |r| ==> r[k] == Joined(Alone(sys, tasks[k], start, changed, counts[k]).0.verdicts)
  {
    if tasks == [] then [] else
      [Joined(Alone(sys, tasks[0], start, changed, counts[0]).0.verdicts)]
        + AloneJoined(sys, tasks[1..], start, changed, counts[1..])
  }

  lemma AllFinishUnique<L, M>(sys: System<L, M>, tasks: seq<Task>, start: Host, changed: set<nat>, c1: seq<nat>,
                              c2: seq<nat>)
    requires AllFinish(sys, tasks, start, changed, c1) && AllFinish(sys, tasks, start, changed, c2)
    ensures AloneJoined(sys, tasks, start, changed, c1) == AloneJoined(sys, tasks, start, changed, c2)
    ensures SoloHosts(sys, tasks, start, changed, c1) == SoloHosts(sys, tasks, start, changed, c2)
  {
    forall k | 0 <= k < |tasks|
      ensures Alone(sys, tasks[k], start, changed, c1[k]) == Alone(sys, tasks[k], start, changed, c2[k])
    {
      AloneUnique(sys, tasks[k], start, changed, c1[k], c2[k]);
    }
  }

  /** What a level did, in terms of its tasks alone: the next host, the next change
      set and the bag of outcomes in its segment of the report. */
  ghost predicate LevelResult<L, M>(sys: System<L, M>, level: Level, before: Record, counts: seq<nat>, after: Record,
                                    segment: seq<Outcome>) {
    && AllFinish(sys, level.tasks, before.host, before.changed, counts)
    && Merged(sys, level.tasks, before.host, SoloHosts(sys, level.tasks, before.host, before.changed, counts),
              after.host)
    && after.changed == before.changed + YesIds(segment)
    && multiset(segment) == multiset(SkippedOutcomes(sys.hints, level.skipped))
         + JoinedBag(sys.hints, level.tasks, AloneJoined(sys, level.tasks, before.host, before.changed, counts))
  }

  lemma LevelResultUnique<L, M>(sys: System<L, M>, level: Level, before: Record, n1: seq<nat>, n2: seq<nat>,
                                a1: Record, a2: Record, s1: seq<Outcome>, s2: seq<Outcome>)
    requires LevelResult(sys, level, before, n1, a1, s1) && LevelResult(sys, level, before, n2, a2, s2)
    ensures a1.host == a2.host && a1.changed == a2.changed && multiset(s1) == multiset(s2)
  {
    assert |n1| == |n2| == |level.tasks|;
    hide Merged, AllFinish;
    AllFinishUnique(sys, level.tasks, before.host, before.changed, n1, n2);
    MergedUnique(sys, level.tasks, before.host, SoloHosts(sys, level.tasks, before.host, before.changed, n1), a1.host,
                 a2.host);
    SameBagSameYes(s1, s2);
  }

  lemma SameBagSameYes(s1: seq<Outcome>, s2: seq<Outcome>)
    requires multiset(s1) == multiset(s2)
    ensures YesIds(s1) == YesIds(s2)
  {
    forall o ensures o in s1 <==> o in s2 {
      assert o in s1 <==> o in multiset(s1);
      assert o in s2 <==> o in multiset(s2);
    }
  }

  // ---------- the invariant ----------

  /** The finished levels each came out as their tasks alone would make them. */
  ghost predicate PastResults<L, M>(sys: System<L, M>, records: seq<Record>, past: seq<seq<nat>>,
                                    report: seq<Outcome>) {
    && Offsets(records, report) && |records| == |past| + 1 && |past| <= |sys.levels|
    && forall j: nat :: j < |past| ==>
         LevelResult(sys, sys.levels[j], records[j], past[j], records[j + 1], Segment(records, report, j))
  }

  ghost predicate NowOnHost<L, M>(sys: System<L, M>, c: Config<L, M>)
    requires Shape(sys, c)
  {
    var rec := c.records[c.level];
    if c.level == |sys.levels| then c.host == rec.host
    else NowMerged(sys, sys.levels[c.level].tasks, c.states, rec.host, rec.changed, c.taken, c.host)
  }

  ghost predicate MergeInv<L, M>(sys: System<L, M>, c: Config<L, M>) {
    Inv(sys, c) && NowOnHost(sys, c) && PastResults(sys, c.records, c.past, c.report)
  }

  lemma PastResultsGrow<L, M>(sys: System<L, M>, records: seq<Record>, past: seq<seq<nat>>, report: seq<Outcome>,
                              more: seq<Outcome>)
    requires PastResults(sys, records, past, report)
    ensures PastResults(sys, records, past, report + more)
  {
    hide LevelResult, Segment;
    SegmentsStay(records, report, more, []);
    assert records + [] == records;
  }

  lemma PastResultsEnd<L, M>(sys: System<L, M>, records: seq<Record>, past: seq<seq<nat>>, report: seq<Outcome>,
                             counts: seq<nat>, next: Record)
    requires PastResults(sys, records, past, report) && |past| < |sys.levels| && next.from == |report|
    requires var last := records[|past|];
             LevelResult(sys, sys.levels[|past|], last, counts, next, report[last.from..])
    ensures PastResults(sys, records + [next], past + [counts], report)
  {
    hide LevelResult, Segment;
    var more, done := records + [next], past + [counts];
    LastSegment(records, report, next);
    SegmentsStay(records, report, [], [next]);
    assert report + [] == report;
    forall j: nat | j < |done|
      ensures LevelResult(sys, sys.levels[j], more[j], done[j], more[j + 1], Segment(more, report, j))
    {
      assert j < |past| ==> Segment(more, report, j) == Segment(records, report, j);
    }
  }

  lemma {:induction false} MergedAtStart<L, M>(sys: System<L, M>, level: Level, start: Host, changed: set<nat>)
    ensures NowMerged(sys, level.tasks, seq(|level.tasks|, _ => Waiting), start, changed, seq(|level.tasks|, _ => 0),
                      start)
  {
  }

  lemma NowMergedStep<L(!new), M>(sys: System<L, M>, tasks: seq<Task>, states: seq<TaskState<L>>, start: Host,
                                  changed: set<nat>, counts: seq<nat>, host: Host, k: nat)
    requires Framed(sys) && PairwiseIndependent(sys, tasks)
    requires NowMerged(sys, tasks, states, start, changed, counts, host)
    requires k < |tasks| && states[k].Running?
    ensures var move := sys.step(tasks[k], states[k].local, host, changed);
            NowMerged(sys, tasks, states[k := After(tasks[k], move)], start, changed, counts[k := counts[k] + 1],
                      HostAfter(host, move))
  {
    hide Merged, PairwiseIndependent, Framed, Alone, After, SoloHosts, HostAfter;
    var move := sys.step(tasks[k], states[k].local, host, changed);
    StepAsAlone(sys, tasks, states, start, changed, counts, host, k);
    AfterMatches(tasks[k], move, counts[k] + 1);
    StepMerges(sys, tasks, start, changed, counts, host, k, move);
  }

  /** The step sees of the host what it would see alone. */
  lemma StepAsAlone<L(!new), M>(sys: System<L, M>, tasks: seq<Task>, states: seq<TaskState<L>>, start: Host,
                                changed: set<nat>, counts: seq<nat>, host: Host, k: nat)
    requires Framed(sys) && PairwiseIndependent(sys, tasks)
    requires NowMerged(sys, tasks, states, start, changed, counts, host)
    requires k < |tasks| && states[k].Running?
    ensures var move := sys.step(tasks[k], states[k].local, host, changed);
            && Within(sys, tasks[k], move)
            && Alone(sys, tasks[k], start, changed, counts[k] + 1)
               == (After(tasks[k], move), HostAfter(Alone(sys, tasks[k], start, changed, counts[k]).1, move))
  {
    hide Merged, PairwiseIndependent, Agree, Framed, Within, Alone, After, HostAfter;
    assert TaskMatches(states[k], Alone(sys, tasks[k], start, changed, counts[k]).0, counts[k]);
    AloneNext(sys, tasks[k], start, changed, counts[k]);
    SensesItsOwn(sys, tasks, start, changed, counts, host, k);
    UseFramed(sys, tasks[k], states[k].local, changed, host, SoloHosts(sys, tasks, start, changed, counts)[k]);
  }

  lemma StepMerges<L(!new), M>(sys: System<L, M>, tasks: seq<Task>, start: Host, changed: set<nat>,
                               counts: seq<nat>, host: Host, k: nat, move: Move<L>)
    requires Framed(sys) && PairwiseIndependent(sys, tasks)
    requires |counts| == |tasks| && k < |tasks|
    requires Merged(sys, tasks, start, SoloHosts(sys, tasks, start, changed, counts), host)
    requires Within(sys, tasks[k], move)
    requires Alone(sys, tasks[k], start, changed, counts[k] + 1).1
             == HostAfter(Alone(sys, tasks[k], start, changed, counts[k]).1, move)
    ensures Merged(sys, tasks, start, SoloHosts(sys, tasks, start, changed, counts[k := counts[k] + 1]),
                   HostAfter(host, move))
  {
    hide Merged, Confined, PairwiseIndependent, Apply, Framed, WithinPatch, Alone;
    var solo := SoloHosts(sys, tasks, start, changed, counts);
    SoloHostsUpdate(sys, tasks, start, changed, counts, k, counts[k] + 1);
    if move.Fail? {
      assert solo[k := solo[k]] == solo;
    } else {
      AloneConfined(sys, tasks[k], start, changed, counts[k]);
      MergedStep(sys, tasks, start, solo, host, k, move.patch);
    }
  }

  lemma SensesItsOwn<L(!new), M>(sys: System<L, M>, tasks: seq<Task>, start: Host, changed: set<nat>, counts: seq<nat>,
                                 host: Host, k: nat)
    requires Framed(sys) && PairwiseIndependent(sys, tasks) && |counts| == |tasks| && k < |tasks|
    requires Merged(sys, tasks, start, SoloHosts(sys, tasks, start, changed, counts), host)
    ensures Agree(host, SoloHosts(sys, tasks, start, changed, counts)[k], sys.senses(tasks[k]))
  {
    hide Merged, Confined, PairwiseIndependent, Agree, Framed;
    var solo := SoloHosts(sys, tasks, start, changed, counts);
    forall m | 0 <= m < |tasks| ensures Confined(sys, tasks[m], start, solo[m]) {
      AloneConfined(sys, tasks[m], start, changed, counts[m]);
    }
    MergedAgrees(sys, tasks, start, solo, host, k);
  }

  lemma LevelIsIndependent<L, M>(sys: System<L, M>, j: nat)
    requires LevelsIndependent(sys) && j < |sys.levels|
    ensures PairwiseIndependent(sys, sys.levels[j].tasks)
  {
  }

  lemma StepKeepsMerge<L(!new), M>(sys: System<L, M>, c: Config<L, M>, k: nat)
    requires Framed(sys) && LevelsIndependent(sys)
    requires MergeInv(sys, c) && Allowed(sys, c, Step(k))
    ensures MergeInv(sys, Do(sys, c, Step(k)))
  {
    hide Inv, NowMerged, PastResults, Framed, LevelsIndependent, Apply, PairwiseIndependent;
    InvPreserved(sys, c, Step(k));
    ShapePreserved(sys, c, Step(k));
    ShapeOfInv(sys, c);
    LevelIsIndependent(sys, c.level);
    var rec := c.records[c.level];
    NowMergedStep(sys, sys.levels[c.level].tasks, c.states, rec.host, rec.changed, c.taken, c.host, k);
  }

  /** Spawning, crashing, joining and cutting tasks touch neither host nor step counts. */
  lemma OthersKeepMerge<L, M>(sys: System<L, M>, c: Config<L, M>, a: Action)
    requires MergeInv(sys, c) && Allowed(sys, c, a) && !a.Step? && !a.EndLevel?
    ensures MergeInv(sys, Do(sys, c, a))
  {
    hide Inv, Merged, PastResults, SoloHosts, Apply, YesIds;
    InvPreserved(sys, c, a);
    ShapePreserved(sys, c, a);
    if a.Join? && c.states[a.k].Finished? {
      PastResultsGrow(sys, c.records, c.past, c.report,
                      Outcomes(sys.hints, sys.levels[c.level].tasks[a.k].ids, c.states[a.k].verdicts));
    }
  }

  lemma EndKeepsMerge<L, M>(sys: System<L, M>, c: Config<L, M>)
    requires MergeInv(sys, c) && Allowed(sys, c, EndLevel)
    ensures MergeInv(sys, Do(sys, c, EndLevel))
  {
    hide Inv, Merged, NowMerged, LevelResult, YesIds, PastResults;
    InvPreserved(sys, c, EndLevel);
    ShapePreserved(sys, c, EndLevel);
    ShapeOfInv(sys, c);
    var segment := c.report[c.records[c.level].from..];
    var next := Record(c.host, c.changed + YesIds(segment), |c.report|);
    LevelComesOut(sys, c, next);
    PastResultsEnd(sys, c.records, c.past, c.report, c.taken, next);
    if c.level + 1 < |sys.levels| {
      PastResultsGrow(sys, c.records + [next], c.past + [c.taken], c.report,
                      SkippedOutcomes(sys.hints, sys.levels[c.level + 1].skipped));
      MergedAtStart(sys, sys.levels[c.level + 1], c.host, next.changed);
    }
  }

  lemma ShapeOfInv<L, M>(sys: System<L, M>, c: Config<L, M>)
    requires Inv(sys, c)
    ensures Shape(sys, c) && c.changed == c.records[c.level].changed
  {
  }

  lemma LevelComesOut<L, M>(sys: System<L, M>, c: Config<L, M>, next: Record)
    requires MergeInv(sys, c) && Allowed(sys, c, EndLevel)
    requires next.host == c.host && next.changed == c.changed + YesIds(c.report[c.records[c.level].from..])
    ensures LevelResult(sys, sys.levels[c.level], c.records[c.level], c.taken, next,
                        c.report[c.records[c.level].from..])
  {
    hide PastResults, PastOk, Merged;
    var rec := c.records[c.level];
    JoinedAreAlone(sys, sys.levels[c.level].tasks, c.states, rec.host, rec.changed, c.taken);
  }

  lemma JoinedAreAlone<L, M>(sys: System<L, M>, tasks: seq<Task>, states: seq<TaskState<L>>, start: Host,
                             changed: set<nat>, counts: seq<nat>)
    requires |tasks| == |states| == |counts|
    requires forall k :: 0 <= k < |states| ==> states[k].Joined? && |states[k].verdicts| == |tasks[k].ids|
    requires forall k :: 0 <= k < |tasks| ==> TaskMatches(states[k], Alone(sys, tasks[k], start, changed, counts[k]).0,
                                                          counts[k])
    ensures AllFinish(sys, tasks, start, changed, counts)
    ensures AloneJoined(sys, tasks, start, changed, counts) == states
  {
  }

  lemma MergePreserved<L(!new), M>(sys: System<L, M>, c: Config<L, M>, a: Action)
    requires Framed(sys) && LevelsIndependent(sys)
    requires MergeInv(sys, c) && Allowed(sys, c, a)
    ensures MergeInv(sys, Do(sys, c, a))
  {
    hide MergeInv, Do, Framed, LevelsIndependent;
    if a.Step? { StepKeepsMerge(sys, c, a.k); }
    else if a.EndLevel? { EndKeepsMerge(sys, c); }
    else { OthersKeepMerge(sys, c, a); }
  }

  lemma MergeBegins<L, M>(sys: System<L, M>, host: Host, manager: M)
    ensures MergeInv(sys, Start(sys, host, manager))
  {
    hide Merged, Inv;
    LevelBegins(sys, 0, host, manager, {}, [], [], []);
    if |sys.levels| > 0 { MergedAtStart(sys, sys.levels[0], host, {}); }
  }

  lemma {:induction false} MergeAlways<L(!new), M>(sys: System<L, M>, host: Host, manager: M, acts: seq<Action>)
    requires Framed(sys) && LevelsIndependent(sys)
    ensures var r := RunTo(sys, host, manager, acts); r.Some? ==> MergeInv(sys, r.value)
  {
    hide MergeInv, Do, Framed, LevelsIndependent, Allowed;
    if acts == [] {
      MergeBegins(sys, host, manager);
    } else {
      MergeAlways(sys, host, manager, acts[..|acts| - 1]);
      var c := RunTo(sys, host, manager, acts[..|acts| - 1]);
      if c.Some? && Allowed(sys, c.value, acts[|acts| - 1]) {
        MergePreserved(sys, c.value, acts[|acts| - 1]);
      }
    }
  }

  // ---------- two runs of the same plan ----------

  /** Level `j` takes up the same stretch of both reports, with the same outcomes in some order. */
  ghost predicate SameSegment<L, M>(c1: Config<L, M>, c2: Config<L, M>, j: nat) {
    && j + 1 < |c1.records| && j + 1 < |c2.records|
    && c1.records[j].from == c2.records[j].from && c1.records[j + 1].from == c2.records[j + 1].from
    && multiset(Segment(c1.records, c1.report, j)) == multiset(Segment(c2.records, c2.report, j))
  }

  ghost predicate SameRecord(a: Record, b: Record) {
    a.host == b.host && a.changed == b.changed && a.from == b.from
  }

  /** One more level that both runs have finished came out the same. */
  lemma LevelsAgree<L, M>(sys: System<L, M>, c1: Config<L, M>, c2: Config<L, M>, j: nat)
    requires PastResults(sys, c1.records, c1.past, c1.report) && PastResults(sys, c2.records, c2.past, c2.report)
    requires j < |c1.past| && j < |c2.past| && SameRecord(c1.records[j], c2.records[j])
    ensures SameRecord(c1.records[j + 1], c2.records[j + 1]) && SameSegment(c1, c2, j)
  {
    hide LevelResult;
    var s1, s2 := Segment(c1.records, c1.report, j), Segment(c2.records, c2.report, j);
    LevelResultUnique(sys, sys.levels[j], c1.records[j], c1.past[j], c2.past[j], c1.records[j + 1], c2.records[j + 1],
                      s1, s2);
    assert |s1| == |multiset(s1)| == |multiset(s2)| == |s2|;
  }

  lemma {:induction false} RunsAgree<L, M>(sys: System<L, M>, c1: Config<L, M>, c2: Config<L, M>, j: nat)
    requires PastResults(sys, c1.records, c1.past, c1.report) && PastResults(sys, c2.records, c2.past, c2.report)
    requires j <= |c1.past| && j <= |c2.past| && SameRecord(c1.records[0], c2.records[0])
    ensures SameRecord(c1.records[j], c2.records[j])
    ensures forall i: nat :: i < j ==> SameSegment(c1, c2, i)
    decreases j
  {
    hide SameRecord, SameSegment, LevelResult;
    if j > 0 {
      RunsAgree(sys, c1, c2, j - 1);
      LevelsAgree(sys, c1, c2, j - 1);
    }
  }

  /** Schedule independence: any two completed runs from the same host end in the same
      host and change set, and their reports differ only by a permutation inside the
      segment of each level. */
  lemma SameOrderSameResult<L(!new), M>(sys: System<L, M>, host: Host, manager: M, acts1: seq<Action>,
                                        acts2: seq<Action>, c1: Config<L, M>, c2: Config<L, M>)
    requires Framed(sys) && LevelsIndependent(sys)
    requires RunTo(sys, host, manager, acts1) == Some(c1) && c1.phase == Completed
    requires RunTo(sys, host, manager, acts2) == Some(c2) && c2.phase == Completed
    ensures c1.host == c2.host && c1.changed == c2.changed && |c1.report| == |c2.report|
    ensures forall j: nat :: j < |sys.levels| ==> SameSegment(c1, c2, j)
  {
    hide Framed, LevelsIndependent, PastResults, SameSegment;
    MergeAlways(sys, host, manager, acts1);
    MergeAlways(sys, host, manager, acts2);
    FirstRecord(sys, host, manager, acts1);
    FirstRecord(sys, host, manager, acts2);
    RunsAgree(sys, c1, c2, |sys.levels|);
  }

  lemma {:induction false} FirstRecord<L, M>(sys: System<L, M>, host: Host, manager: M, acts: seq<Action>)
    requires RunTo(sys, host, manager, acts).Some?
    ensures var c := RunTo(sys, host, manager, acts).value; |c.records| > 0 && c.records[0] == Record(host, {}, 0)
  {
    hide Do, Allowed;
    if acts != [] {
      FirstRecord(sys, host, manager, acts[..|acts| - 1]);
      RecordsStay(sys, RunTo(sys, host, manager, acts[..|acts| - 1]).value, acts[|acts| - 1]);
    }
  }

  lemma RecordsStay<L, M>(sys: System<L, M>, c: Config<L, M>, a: Action)
    requires Allowed(sys, c, a)
    ensures c.records <= Do(sys, c, a).records
  {
    hide Shape, Outcomes, SkippedOutcomes, Apply, YesIds;
  }
}
