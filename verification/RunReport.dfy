/** What the report and the change set of a run say, in every reachable
    configuration and for every schedule: conservation of outcomes, dependencies
    before dependents, and triggers read from finished levels only. */
module RunReport {
  import opened HostModel
  import opened Run
  import opened TopoLevels

  // ---------- the ids of a level and of a report ----------

  function Flatten(tasks: seq<Task>): seq<nat> {
    if tasks == [] then [] else tasks[0].ids + Flatten(tasks[1..])
  }

  function LevelIds(level: Level): seq<nat> {
    level.skipped + Flatten(level.tasks)
  }

  function Ids(outcomes: seq<Outcome>): (r: seq<nat>)
    ensures |r| == |outcomes|
    ensures forall i :: 0 <= i < |r| ==> r[i] == outcomes[i].id
  {
    if outcomes == [] then [] else [outcomes[0].id] + Ids(outcomes[1..])
  }

  lemma {:induction false} IdsConcat(a: seq<Outcome>, b: seq<Outcome>)
    ensures Ids(a + b) == Ids(a) + Ids(b)
  {
    forall i | 0 <= i < |a| + |b| ensures Ids(a + b)[i] == (Ids(a) + Ids(b))[i] {
      assert (a + b)[i] == if i < |a| then a[i] else b[i - |a|];
    }
  }

  lemma {:induction false} SkippedIds(hints: seq<string>, ids: seq<nat>)
    ensures Ids(SkippedOutcomes(hints, ids)) == ids
    ensures YesIds(SkippedOutcomes(hints, ids)) == {}
    ensures forall o :: o in SkippedOutcomes(hints, ids) ==> o.changed == Skipped && o.hint == Hint(hints, o.id)
  {
    if ids != [] { SkippedIds(hints, ids[1..]); }
  }

  lemma {:induction false} OutcomeIds(hints: seq<string>, ids: seq<nat>, verdicts: seq<Changed>)
    requires |ids| == |verdicts|
    ensures Ids(Outcomes(hints, ids, verdicts)) == ids
    ensures forall o :: o in Outcomes(hints, ids, verdicts) ==> o.hint == Hint(hints, o.id)
  {
    if ids != [] { OutcomeIds(hints, ids[1..], verdicts[1..]); }
  }

  // ---------- outcomes of the tasks joined so far ----------

  /** The outcomes contributed by the joined tasks, as a bag: join order is arbitrary. */
  ghost function JoinedBag<L>(hints: seq<string>, tasks: seq<Task>, states: seq<TaskState<L>>): multiset<Outcome>
    requires |tasks| == |states|
    requires forall k :: 0 <= k < |states| && states[k].Joined? ==> |states[k].verdicts| == |tasks[k].ids|
  {
    if tasks == [] then multiset{} else
      (if states[0].Joined? then multiset(Outcomes(hints, tasks[0].ids, states[0].verdicts)) else multiset{})
      + JoinedBag(hints, tasks[1..], states[1..])
  }

  lemma {:induction false} JoinedBagUpdate<L>(hints: seq<string>, tasks: seq<Task>, states: seq<TaskState<L>>, k: nat,
                                              s: TaskState<L>)
    requires |tasks| == |states| && k < |tasks|
    requires forall m :: 0 <= m < |states| && states[m].Joined? ==> |states[m].verdicts| == |tasks[m].ids|
    requires !states[k].Joined?
    requires s.Joined? ==> |s.verdicts| == |tasks[k].ids|
    ensures JoinedBag(hints, tasks, states[k := s]) ==
            JoinedBag(hints, tasks, states) + if s.Joined? then multiset(Outcomes(hints, tasks[k].ids, s.verdicts))
                                              else multiset{}
    decreases |tasks|
  {
    if k == 0 {
      assert states[0 := s][1..] == states[1..];
    } else {
      assert states[k := s][1..] == states[1..][k - 1 := s];
      JoinedBagUpdate(hints, tasks[1..], states[1..], k - 1, s);
    }
  }

  lemma {:induction false} JoinedBagNone<L>(hints: seq<string>, tasks: seq<Task>, states: seq<TaskState<L>>)
    requires |tasks| == |states|
    requires forall k :: 0 <= k < |states| ==> states[k].Waiting?
    ensures JoinedBag(hints, tasks, states) == multiset{}
    decreases |tasks|
  {
    if tasks != [] { JoinedBagNone(hints, tasks[1..], states[1..]); }
  }

  /** The same outcomes in task order, once every task is joined. */
  function AllOutcomes<L>(hints: seq<string>, tasks: seq<Task>, states: seq<TaskState<L>>): seq<Outcome>
    requires |tasks| == |states|
    requires forall k :: 0 <= k < |states| ==> states[k].Joined? && |states[k].verdicts| == |tasks[k].ids|
  {
    if tasks == [] then [] else
      Outcomes(hints, tasks[0].ids, states[0].verdicts) + AllOutcomes(hints, tasks[1..], states[1..])
  }

  lemma {:induction false} AllJoined<L>(hints: seq<string>, tasks: seq<Task>, states: seq<TaskState<L>>)
    requires |tasks| == |states|
    requires forall k :: 0 <= k < |states| ==> states[k].Joined? && |states[k].verdicts| == |tasks[k].ids|
    ensures JoinedBag(hints, tasks, states) == multiset(AllOutcomes(hints, tasks, states))
    ensures Ids(AllOutcomes(hints, tasks, states)) == Flatten(tasks)
    ensures forall o :: o in AllOutcomes(hints, tasks, states) ==> o.hint == Hint(hints, o.id)
    decreases |tasks|
  {
    if tasks != [] {
      AllJoined(hints, tasks[1..], states[1..]);
      OutcomeIds(hints, tasks[0].ids, states[0].verdicts);
      IdsConcat(Outcomes(hints, tasks[0].ids, states[0].verdicts), AllOutcomes(hints, tasks[1..], states[1..]));
    }
  }

  lemma {:induction false} PermutedIds(a: seq<Outcome>, b: seq<Outcome>)
    requires multiset(a) == multiset(b)
    ensures multiset(Ids(a)) == multiset(Ids(b))
    decreases |a|
  {
    hide Ids;
    if a == [] {
      assert |multiset(b)| == |b|;
    } else {
      assert a[0] in multiset(b);
      var k :| 0 <= k < |b| && b[k] == a[0];
      var left, right := b[..k], b[k + 1..];
      assert a == [a[0]] + a[1..];
      assert b == left + ([b[k]] + right);
      assert multiset(a[1..]) == multiset(a) - multiset{a[0]};
      assert multiset(left + ([b[k]] + right)) == multiset(left) + multiset{b[k]} + multiset(right);
      PermutedIds(a[1..], left + right);
      IdsConcat([a[0]], a[1..]);
      IdsConcat(left, right);
      IdsConcat(left, [b[k]] + right);
      IdsConcat([b[k]], right);
    }
  }

  // ---------- the invariant of a run ----------

  /** The stretch of the report that level `j` takes up, once it is finished. */
  function Segment(records: seq<Record>, report: seq<Outcome>, j: nat): seq<Outcome> {
    if j + 1 < |records| && records[j].from <= records[j + 1].from <= |report|
    then report[records[j].from..records[j + 1].from] else []
  }

  /** What was reported before level `j` started. */
  function Before(records: seq<Record>, report: seq<Outcome>, j: nat): seq<Outcome> {
    if j < |records| && records[j].from <= |report| then report[..records[j].from] else []
  }

  ghost predicate Offsets(records: seq<Record>, report: seq<Outcome>) {
    && |records| > 0 && records[0].from == 0 && records[0].changed == {}
    && (forall j, k :: 0 <= j <= k < |records| ==> records[j].from <= records[k].from <= |report|)
  }

  lemma BeforeGrows(records: seq<Record>, report: seq<Outcome>, j: nat)
    requires Offsets(records, report) && j + 1 < |records|
    ensures Before(records, report, j + 1) == Before(records, report, j) + Segment(records, report, j)
  {
  }

  lemma SegmentsStay(records: seq<Record>, report: seq<Outcome>, more: seq<Outcome>, next: seq<Record>)
    requires Offsets(records, report)
    ensures forall j: nat :: j + 1 < |records| ==>
              Segment(records + next, report + more, j) == Segment(records, report, j)
  {
    forall j: nat | j + 1 < |records|
      ensures Segment(records + next, report + more, j) == Segment(records, report, j)
    {
      assert (records + next)[j] == records[j] && (records + next)[j + 1] == records[j + 1];
      assert (report + more)[records[j].from..records[j + 1].from] == report[records[j].from..records[j + 1].from];
    }
  }

  lemma LastSegment(records: seq<Record>, report: seq<Outcome>, next: Record)
    requires Offsets(records, report) && next.from == |report|
    ensures Segment(records + [next], report, |records| - 1) == report[records[|records| - 1].from..]
    ensures Offsets(records + [next], report)
  {
  }

  /** A finished level: its segment of the report holds its ids, each with its own
      hint, and the next change set adds exactly the ids that changed. */
  ghost predicate FinishedLevel(hints: seq<string>, level: Level, before: Record, after: Record,
                                segment: seq<Outcome>) {
    && multiset(Ids(segment)) == multiset(LevelIds(level))
    && (forall o :: o in segment ==> o.hint == Hint(hints, o.id))
    && after.changed == before.changed + YesIds(segment)
  }

  ghost predicate PastOk(hints: seq<string>, levels: seq<Level>, records: seq<Record>, report: seq<Outcome>) {
    && Offsets(records, report) && |records| <= |levels| + 1
    && forall j: nat :: j + 1 < |records| ==>
         FinishedLevel(hints, levels[j], records[j], records[j + 1], Segment(records, report, j))
  }

  /** The level under way: its segment is what was skipped and what was joined so far. */
  ghost predicate NowOk<L, M>(sys: System<L, M>, level: nat, states: seq<TaskState<L>>, segment: seq<Outcome>)
    requires level <= |sys.levels|
    requires level < |sys.levels| ==>
               |states| == |sys.levels[level].tasks|
               && forall k :: 0 <= k < |states| && states[k].Joined? ==>
                   |states[k].verdicts| == |sys.levels[level].tasks[k].ids|
  {
    if level == |sys.levels| then segment == []
    else multiset(segment) == multiset(SkippedOutcomes(sys.hints, sys.levels[level].skipped))
                              + JoinedBag(sys.hints, sys.levels[level].tasks, states)
  }

  ghost predicate Inv<L, M>(sys: System<L, M>, c: Config<L, M>) {
    && Shape(sys, c)
    && PastOk(sys.hints, sys.levels, c.records, c.report)
    && NowOk(sys, c.level, c.states, c.report[c.records[c.level].from..])
    && c.changed == c.records[c.level].changed
  }

  lemma PastGrows(hints: seq<string>, levels: seq<Level>, records: seq<Record>, report: seq<Outcome>,
                  more: seq<Outcome>)
    requires PastOk(hints, levels, records, report)
    ensures PastOk(hints, levels, records, report + more)
  {
    hide FinishedLevel, Segment;
    SegmentsStay(records, report, more, []);
    assert records + [] == records;
  }

  lemma PastEnds(hints: seq<string>, levels: seq<Level>, records: seq<Record>, report: seq<Outcome>, next: Record)
    requires PastOk(hints, levels, records, report) && |records| <= |levels| && next.from == |report|
    requires var last := records[|records| - 1];
             FinishedLevel(hints, levels[|records| - 1], last, next, report[last.from..])
    ensures PastOk(hints, levels, records + [next], report)
  {
    hide FinishedLevel, Segment;
    var more := records + [next];
    var last := records[|records| - 1];
    LastSegment(records, report, next);
    SegmentsStay(records, report, [], [next]);
    assert report + [] == report;
    forall j: nat | j + 1 < |more|
      ensures FinishedLevel(hints, levels[j], more[j], more[j + 1], Segment(more, report, j))
    {
      assert j + 1 < |records| ==> Segment(more, report, j) == Segment(records, report, j);
      assert j + 1 == |records| ==> more[j] == last && more[j + 1] == next;
    }
  }

  lemma LevelBegins<L, M>(sys: System<L, M>, level: nat, host: Host, manager: M, changed: set<nat>,
                          report: seq<Outcome>, records: seq<Record>, past: seq<seq<nat>>)
    requires level <= |sys.levels| && |records| == |past| == level
    requires PastOk(sys.hints, sys.levels, records + [Record(host, changed, |report|)], report)
    ensures Inv(sys, BeginLevel(sys, level, host, manager, changed, report, records, past))
  {
    hide PastOk;
    var c := BeginLevel(sys, level, host, manager, changed, report, records, past);
    if level < |sys.levels| {
      var skipped := SkippedOutcomes(sys.hints, sys.levels[level].skipped);
      PastGrows(sys.hints, sys.levels, c.records, report, skipped);
      JoinedBagNone(sys.hints, sys.levels[level].tasks, c.states);
      assert (report + skipped)[|report|..] == skipped;
    } else {
      assert report[|report|..] == [];
    }
  }

  /** One task of the level changes its state; joining it also appends its outcomes. */
  lemma NowUpdates<L, M>(sys: System<L, M>, level: nat, states: seq<TaskState<L>>, segment: seq<Outcome>, k: nat,
                         s: TaskState<L>)
    requires level < |sys.levels| && |states| == |sys.levels[level].tasks| && k < |states|
    requires forall m :: 0 <= m < |states| && states[m].Joined? ==>
               |states[m].verdicts| == |sys.levels[level].tasks[m].ids|
    requires NowOk(sys, level, states, segment) && !states[k].Joined?
    requires s.Joined? ==> |s.verdicts| == |sys.levels[level].tasks[k].ids|
    ensures var more := if s.Joined? then Outcomes(sys.hints, sys.levels[level].tasks[k].ids, s.verdicts) else [];
            NowOk(sys, level, states[k := s], segment + more)
  {
    JoinedBagUpdate(sys.hints, sys.levels[level].tasks, states, k, s);
    assert segment + [] == segment;
  }

  lemma JoinKeepsInv<L, M>(sys: System<L, M>, c: Config<L, M>, k: nat)
    requires Inv(sys, c) && Allowed(sys, c, Join(k)) && c.states[k].Finished?
    ensures Inv(sys, Do(sys, c, Join(k)))
  {
    hide PastOk, NowOk, SkippedOutcomes, Outcomes;
    var v := c.states[k].verdicts;
    var more := Outcomes(sys.hints, sys.levels[c.level].tasks[k].ids, v);
    var from := c.records[c.level].from;
    ShapePreserved(sys, c, Join(k));
    PastGrows(sys.hints, sys.levels, c.records, c.report, more);
    NowUpdates(sys, c.level, c.states, c.report[from..], k, Joined(v));
    assert (c.report + more)[from..] == c.report[from..] + more;
  }

  /** A level all of whose tasks are joined is a finished level. */
  lemma LevelFinishes<L, M>(sys: System<L, M>, level: nat, states: seq<TaskState<L>>, segment: seq<Outcome>,
                            before: Record, after: Record)
    requires level < |sys.levels| && |states| == |sys.levels[level].tasks|
    requires forall k :: 0 <= k < |states| ==> states[k].Joined?
                                               && |states[k].verdicts| == |sys.levels[level].tasks[k].ids|
    requires NowOk(sys, level, states, segment)
    requires after.changed == before.changed + YesIds(segment)
    ensures FinishedLevel(sys.hints, sys.levels[level], before, after, segment)
  {
    var tasks := sys.levels[level].tasks;
    var skipped := SkippedOutcomes(sys.hints, sys.levels[level].skipped);
    var all := AllOutcomes(sys.hints, tasks, states);
    AllJoined(sys.hints, tasks, states);
    SkippedIds(sys.hints, sys.levels[level].skipped);
    PermutedIds(segment, skipped + all);
    IdsConcat(skipped, all);
    forall o | o in segment ensures o.hint == Hint(sys.hints, o.id) {
      assert o in multiset(segment);
      assert o in skipped || o in all;
    }
  }

  lemma EndKeepsInv<L, M>(sys: System<L, M>, c: Config<L, M>)
    requires Inv(sys, c) && Allowed(sys, c, EndLevel)
    ensures Inv(sys, Do(sys, c, EndLevel))
  {
    hide PastOk, NowOk, YesIds, FinishedLevel, BeginLevel;
    var segment := c.report[c.records[c.level].from..];
    var changed := c.changed + YesIds(segment);
    var next := Record(c.host, changed, |c.report|);
    LevelFinishes(sys, c.level, c.states, segment, c.records[c.level], next);
    PastEnds(sys.hints, sys.levels, c.records, c.report, next);
    LevelBegins(sys, c.level + 1, c.host, c.manager, changed, c.report, c.records, c.past + [c.taken]);
  }

  /** Every other action leaves the report alone and joins nothing. */
  lemma OthersKeepInv<L, M>(sys: System<L, M>, c: Config<L, M>, a: Action)
    requires Inv(sys, c) && Allowed(sys, c, a)
    requires !a.EndLevel? && !(a.Join? && c.states[a.k].Finished?)
    ensures Inv(sys, Do(sys, c, a))
  {
    hide PastOk, NowOk, Apply;
    var c' := Do(sys, c, a);
    ShapePreserved(sys, c, a);
    if a.k < |c.states| && c.level < |sys.levels| {
      NowUpdates(sys, c.level, c.states, c.report[c.records[c.level].from..], a.k, c'.states[a.k]);
      assert c'.states == c.states[a.k := c'.states[a.k]];
      assert c.report[c.records[c.level].from..] + [] == c.report[c.records[c.level].from..];
    }
  }

  lemma InvPreserved<L, M>(sys: System<L, M>, c: Config<L, M>, a: Action)
    requires Inv(sys, c) && Allowed(sys, c, a)
    ensures Inv(sys, Do(sys, c, a))
  {
    hide Inv, Do;
    if a.Join? && c.states[a.k].Finished? {
      JoinKeepsInv(sys, c, a.k);
    } else if a.EndLevel? {
      EndKeepsInv(sys, c);
    } else {
      OthersKeepInv(sys, c, a);
    }
  }

  lemma {:induction false} InvAlways<L, M>(sys: System<L, M>, host: Host, manager: M, acts: seq<Action>)
    ensures var r := RunTo(sys, host, manager, acts); r.Some? ==> Inv(sys, r.value)
  {
    if acts == [] {
      LevelBegins(sys, 0, host, manager, {}, [], [], []);
      return;
    }
    hide Inv, Do, Allowed;
    InvAlways(sys, host, manager, acts[..|acts| - 1]);
    var c := RunTo(sys, host, manager, acts[..|acts| - 1]);
    if c.Some? && Allowed(sys, c.value, acts[|acts| - 1]) {
      InvPreserved(sys, c.value, acts[|acts| - 1]);
    }
  }

  // ---------- conservation of outcomes ----------

  /** `Report::count` */
  function Count(report: seq<Outcome>, kind: Changed): nat {
    if report == [] then 0 else (if report[0].changed == kind then 1 else 0) + Count(report[1..], kind)
  }

  /** The first `n` positions of the report that hold this outcome. */
  function Positions(report: seq<Outcome>, kind: Changed, n: nat): set<int>
    requires n <= |report|
  {
    set i | 0 <= i < n && report[i].changed == kind
  }

  lemma {:induction false} CountSnoc(report: seq<Outcome>, o: Outcome, kind: Changed)
    ensures Count(report + [o], kind) == Count(report, kind) + if o.changed == kind then 1 else 0
    decreases |report|
  {
    if report == [] {
      assert [o][1..] == [] && report + [o] == [o];
    } else {
      CountSnoc(report[1..], o, kind);
      assert (report + [o])[1..] == report[1..] + [o];
    }
  }

  lemma PositionsStep(report: seq<Outcome>, kind: Changed, n: nat)
    requires 0 < n <= |report|
    ensures Positions(report, kind, n)
            == Positions(report, kind, n - 1) + if report[n - 1].changed == kind then {n - 1} else {}
    ensures n - 1 !in Positions(report, kind, n - 1)
  {
  }

  lemma NoPositions(report: seq<Outcome>, kind: Changed)
    ensures Positions(report, kind, 0) == {} && Count([], kind) == 0
  {
  }

  lemma {:induction false} CountsPositionsUpTo(report: seq<Outcome>, kind: Changed, n: nat)
    requires n <= |report|
    ensures Count(report[..n], kind) == |Positions(report, kind, n)|
    decreases n
  {
    hide Count, Positions;
    if n == 0 {
      NoPositions(report, kind);
    } else {
      CountsPositionsUpTo(report, kind, n - 1);
      PositionsStep(report, kind, n);
      CountSnoc(report[..n - 1], report[n - 1], kind);
      assert report[..n] == report[..n - 1] + [report[n - 1]];
    }
  }

  /** It is the number of positions in the report that hold this outcome. */
  lemma CountIsPositions(report: seq<Outcome>, kind: Changed)
    ensures Count(report, kind) == |set i | 0 <= i < |report| && report[i].changed == kind|
  {
    CountsPositionsUpTo(report, kind, |report|);
    assert report[..|report|] == report;
  }

  lemma {:induction false} CountsAddUp(report: seq<Outcome>)
    ensures Count(report, Yes) + Count(report, No) + Count(report, Skipped) == |report|
  {
    if report != [] { CountsAddUp(report[1..]); }
  }

  /** The levels that ran are the topological levels of the plan, split into
      skipped resources and tasks. */
  ghost predicate Grouped(levels: seq<Level>, topo: seq<seq<nat>>) {
    && |levels| == |topo|
    && forall j :: 0 <= j < |levels| ==> multiset(LevelIds(levels[j])) == multiset(topo[j])
  }

  lemma InBag(a: seq<nat>, b: seq<nat>, x: nat)
    requires multiset(a) == multiset(b)
    ensures x in a <==> x in b
  {
    assert x in a <==> x in multiset(a);
    assert x in b <==> x in multiset(b);
  }

  /** `ids` lists what the levels hold, each id once. */
  ghost predicate ListsLevels(ids: seq<nat>, levels: seq<seq<nat>>) {
    Distinct(ids) && forall i: nat :: i in ids <==> InSomeLevel(levels, i)
  }

  ghost predicate ListsLevel(ids: seq<nat>, level: seq<nat>) {
    Distinct(ids) && forall i: nat :: i in ids <==> i in level
  }

  /** A finished level reports exactly the ids of its topological level, once each. */
  lemma SegmentIds(hints: seq<string>, levels: seq<Level>, records: seq<Record>, report: seq<Outcome>,
                   topo: seq<seq<nat>>, n: nat, j: nat)
    requires PastOk(hints, levels, records, report) && j + 1 < |records|
    requires Grouped(levels, topo) && Partition(topo, n)
    ensures ListsLevel(Ids(Segment(records, report, j)), topo[j])
  {
    hide Segment;
    var segment := Segment(records, report, j);
    assert FinishedLevel(hints, levels[j], records[j], records[j + 1], segment);
    DistinctBag(topo[j], Ids(segment));
    forall i: nat ensures i in Ids(segment) <==> i in topo[j] { InBag(Ids(segment), topo[j], i); }
  }

  lemma AppendLevel(topo: seq<seq<nat>>, n: nat, j: nat, before: seq<nat>, added: seq<nat>)
    requires Partition(topo, n) && j < |topo|
    requires ListsLevels(before, topo[..j]) && ListsLevel(added, topo[j])
    ensures ListsLevels(before + added, topo[..j + 1])
  {
    LevelsGrow(topo[..j], topo[j]);
    assert topo[..j + 1] == topo[..j] + [topo[j]];
    forall i | i in before ensures i !in added {
      var a :| 0 <= a < j && i in topo[..j][a];
      assert i in topo[a];
    }
    DistinctConcat(before, added);
  }

  lemma ReportAfter(hints: seq<string>, levels: seq<Level>, records: seq<Record>, report: seq<Outcome>,
                    topo: seq<seq<nat>>, n: nat, j: nat)
    requires PastOk(hints, levels, records, report) && j + 1 < |records|
    requires Grouped(levels, topo) && Partition(topo, n)
    requires ListsLevels(Ids(Before(records, report, j)), topo[..j])
    ensures ListsLevels(Ids(Before(records, report, j + 1)), topo[..j + 1])
  {
    SegmentIds(hints, levels, records, report, topo, n, j);
    BeforeGrows(records, report, j);
    IdsConcat(Before(records, report, j), Segment(records, report, j));
    AppendLevel(topo, n, j, Ids(Before(records, report, j)), Ids(Segment(records, report, j)));
  }

  /** What the report holds when level `j` starts: every id of the earlier levels, once. */
  lemma {:induction false} ReportBefore(hints: seq<string>, levels: seq<Level>, records: seq<Record>,
                                        report: seq<Outcome>, topo: seq<seq<nat>>, n: nat, j: nat)
    requires PastOk(hints, levels, records, report) && j < |records|
    requires Grouped(levels, topo) && Partition(topo, n)
    ensures ListsLevels(Ids(Before(records, report, j)), topo[..j])
    decreases j
  {
    hide FinishedLevel, Partition;
    if j == 0 {
      assert Before(records, report, 0) == [];
    } else {
      ReportBefore(hints, levels, records, report, topo, n, j - 1);
      ReportAfter(hints, levels, records, report, topo, n, j - 1);
    }
  }

  /** The same, for a configuration and the level it is in. */
  lemma ReportedSoFar<L, M>(sys: System<L, M>, host: Host, manager: M, acts: seq<Action>,
                            topo: seq<seq<nat>>, n: nat, c: Config<L, M>)
    requires RunTo(sys, host, manager, acts) == Some(c)
    requires Grouped(sys.levels, topo) && Partition(topo, n)
    ensures c.level <= |topo|
    ensures ListsLevels(Ids(Before(c.records, c.report, c.level)), topo[..c.level])
    ensures Before(c.records, c.report, c.level) <= c.report
    ensures c.phase == Completed ==> Before(c.records, c.report, c.level) == c.report && c.level == |topo|
  {
    InvAlways(sys, host, manager, acts);
    ReportBefore(sys.hints, sys.levels, c.records, c.report, topo, n, c.level);
  }

  lemma DistinctConcat(a: seq<nat>, b: seq<nat>)
    requires Distinct(a) && Distinct(b) && forall i :: i in a ==> i !in b
    ensures Distinct(a + b)
  {
    forall x, y | 0 <= x < y < |a + b| ensures (a + b)[x] != (a + b)[y] {
      if x < |a| <= y { assert a[x] in a && b[y - |a|] in b; }
    }
  }

  lemma DistinctSplit(a: seq<nat>, b: seq<nat>)
    requires Distinct(a + b)
    ensures Distinct(b) && forall i :: i in a ==> i !in b
  {
    forall x, y | 0 <= x < y < |b| ensures b[x] != b[y] {
      assert (a + b)[|a| + x] == b[x] && (a + b)[|a| + y] == b[y];
    }
    forall x, y | 0 <= x < |a| && 0 <= y < |b| ensures a[x] != b[y] {
      assert (a + b)[x] == a[x] && (a + b)[|a| + y] == b[y];
    }
  }

  lemma {:induction false} DistinctBag(a: seq<nat>, b: seq<nat>)
    requires multiset(a) == multiset(b) && Distinct(a)
    ensures Distinct(b)
  {
    forall x, y | 0 <= x < y < |b| ensures b[x] != b[y] {
      if b[x] == b[y] {
        assert b == b[..x] + [b[x]] + b[x + 1..y] + [b[y]] + b[y + 1..];
        assert multiset(b)[b[x]] >= 2;
        AtMostOnce(a, b[x]);
      }
    }
  }

  lemma {:induction false} AtMostOnce(a: seq<nat>, v: nat)
    requires Distinct(a)
    ensures multiset(a)[v] <= 1
  {
    if a != [] {
      AtMostOnce(a[1..], v);
      assert a == [a[0]] + a[1..];
      if v == a[0] { assert v !in a[1..]; }
    }
  }

  /** A completed run reports every resource of the plan exactly once, with its own
      hint, so its Yes, No and Skipped counts add up to the length of the plan. */
  lemma ReportConserved<L, M>(sys: System<L, M>, host: Host, manager: M, acts: seq<Action>,
                              topo: seq<seq<nat>>, n: nat, c: Config<L, M>)
    requires RunTo(sys, host, manager, acts) == Some(c) && c.phase == Completed
    requires Grouped(sys.levels, topo) && Partition(topo, n)
    ensures Distinct(Ids(c.report)) && forall i: nat :: i in Ids(c.report) <==> i < n
    ensures forall o :: o in c.report ==> o.hint == Hint(sys.hints, o.id)
    ensures Count(c.report, Yes) + Count(c.report, No) + Count(c.report, Skipped) == n
  {
    ReportedSoFar(sys, host, manager, acts, topo, n, c);
    InvAlways(sys, host, manager, acts);
    HintsKept(sys.hints, sys.levels, c.records, c.report, c.level);
    hide Inv, RunTo, Grouped;
    assert topo[..|topo|] == topo;
    CountsAddUp(c.report);
    GrowDone({}, Ids(c.report), n);
    SizeInRange(Elements(Ids(c.report)), n);
  }

  lemma {:induction false} HintsKept(hints: seq<string>, levels: seq<Level>, records: seq<Record>,
                                     report: seq<Outcome>, j: nat)
    requires PastOk(hints, levels, records, report) && j < |records|
    ensures forall o :: o in Before(records, report, j) ==> o.hint == Hint(hints, o.id)
    decreases j
  {
    if j == 0 { return; }
    HintsKept(hints, levels, records, report, j - 1);
    BeforeGrows(records, report, j - 1);
    assert FinishedLevel(hints, levels[j - 1], records[j - 1], records[j], Segment(records, report, j - 1));
    hide PastOk, Before, Segment;
  }

  // ---------- triggers ----------

  /** `Env::any_changed` */
  predicate AnyChanged(changed: set<nat>, ids: seq<nat>) {
    exists i :: i in ids && i in changed
  }

  lemma {:induction false} ChangedIsReported(hints: seq<string>, levels: seq<Level>, records: seq<Record>,
                                             report: seq<Outcome>, j: nat)
    requires PastOk(hints, levels, records, report) && j < |records|
    ensures records[j].changed == YesIds(Before(records, report, j))
    decreases j
  {
    if j == 0 { return; }
    ChangedIsReported(hints, levels, records, report, j - 1);
    BeforeGrows(records, report, j - 1);
    assert FinishedLevel(hints, levels[j - 1], records[j - 1], records[j], Segment(records, report, j - 1));
    hide PastOk, Before, Segment;
  }

  /** Whether one of `ids` was reported Yes. */
  ghost predicate ReportedYes(outcomes: seq<Outcome>, ids: seq<nat>) {
    exists o :: o in outcomes && o.changed == Yes && o.id in ids
  }

  lemma YesIdsAnyChanged(outcomes: seq<Outcome>, ids: seq<nat>)
    ensures AnyChanged(YesIds(outcomes), ids) <==> ReportedYes(outcomes, ids)
  {
    if AnyChanged(YesIds(outcomes), ids) {
      var i :| i in ids && i in YesIds(outcomes);
      var o :| o in outcomes && o.changed == Yes && o.id == i;
    }
    if ReportedYes(outcomes, ids) {
      var o :| o in outcomes && o.changed == Yes && o.id in ids;
      assert o.id in YesIds(outcomes);
    }
  }

  /** What a step of level `c.level` sees when it asks `any_changed(ids)`: whether one
      of `ids` was reported Yes by a strictly earlier level. The change set, and so
      the answer, is the one the level started with. */
  lemma TriggersReadEarlierLevels<L, M>(sys: System<L, M>, host: Host, manager: M, acts: seq<Action>,
                                        topo: seq<seq<nat>>, n: nat, c: Config<L, M>, ids: seq<nat>)
    requires RunTo(sys, host, manager, acts) == Some(c)
    requires Grouped(sys.levels, topo) && Partition(topo, n)
    ensures c.changed == c.records[c.level].changed
    ensures AnyChanged(c.changed, ids) <==> ReportedYes(Before(c.records, c.report, c.level), ids)
    ensures forall o :: o in c.report ==>
              (o in Before(c.records, c.report, c.level) <==> c.level <= |topo| && InSomeLevel(topo[..c.level], o.id))
  {
    InvAlways(sys, host, manager, acts);
    ChangedIsReported(sys.hints, sys.levels, c.records, c.report, c.level);
    var before := Before(c.records, c.report, c.level);
    YesIdsAnyChanged(before, ids);
    ReportedSoFar(sys, host, manager, acts, topo, n, c);
    forall o | o in c.report ensures o in before <==> InSomeLevel(topo[..c.level], o.id) {
      EarlierOrNow(sys, topo, n, c, o);
    }
  }

  lemma EarlierOrNow<L, M>(sys: System<L, M>, topo: seq<seq<nat>>, n: nat, c: Config<L, M>, o: Outcome)
    requires Inv(sys, c) && Grouped(sys.levels, topo) && Partition(topo, n) && o in c.report
    requires ListsLevels(Ids(Before(c.records, c.report, c.level)), topo[..c.level])
    ensures o in Before(c.records, c.report, c.level) <==> InSomeLevel(topo[..c.level], o.id)
  {
    hide NowOk, Grouped, Partition, InSomeLevel, FinishedLevel;
    var before := Before(c.records, c.report, c.level);
    assert c.report == before + c.report[c.records[c.level].from..];
    if o in before {
      IdIsListed(before, o);
    } else {
      NowIdsAreLater(sys, topo, n, c, o);
    }
  }

  lemma {:induction false} IdIsListed(outcomes: seq<Outcome>, o: Outcome)
    requires o in outcomes
    ensures o.id in Ids(outcomes)
  {
    var k :| 0 <= k < |outcomes| && outcomes[k] == o;
    assert Ids(outcomes)[k] == o.id;
  }

  /** Outcomes already reported for the level under way belong to that level. */
  lemma NowIdsAreLater<L, M>(sys: System<L, M>, topo: seq<seq<nat>>, n: nat, c: Config<L, M>, o: Outcome)
    requires Inv(sys, c) && Grouped(sys.levels, topo) && Partition(topo, n)
    requires o in c.report[c.records[c.level].from..]
    ensures c.level < |topo| && o.id in topo[c.level] && !InSomeLevel(topo[..c.level], o.id)
  {
    hide PastOk;
    assert o in multiset(c.report[c.records[c.level].from..]);
    var level := sys.levels[c.level];
    var skipped := SkippedOutcomes(sys.hints, level.skipped);
    if o in skipped {
      SkippedIds(sys.hints, level.skipped);
      IdIsListed(skipped, o);
    } else {
      JoinedBagIds(sys.hints, level.tasks, c.states, o);
    }
    InBag(LevelIds(level), topo[c.level], o.id);
    forall a | 0 <= a < c.level ensures o.id !in topo[..c.level][a] {
      assert topo[..c.level][a] == topo[a];
    }
  }

  lemma {:induction false} JoinedBagIds<L>(hints: seq<string>, tasks: seq<Task>, states: seq<TaskState<L>>, o: Outcome)
    requires |tasks| == |states|
    requires forall k :: 0 <= k < |states| && states[k].Joined? ==> |states[k].verdicts| == |tasks[k].ids|
    requires o in JoinedBag(hints, tasks, states)
    ensures o.id in Flatten(tasks)
    decreases |tasks|
  {
    if states[0].Joined? && o in multiset(Outcomes(hints, tasks[0].ids, states[0].verdicts)) {
      OutcomeIds(hints, tasks[0].ids, states[0].verdicts);
      IdIsListed(Outcomes(hints, tasks[0].ids, states[0].verdicts), o);
    } else {
      JoinedBagIds(hints, tasks[1..], states[1..], o);
    }
  }

  /** When every trigger id is a transitive dep, the answer seen inside the level is
      the verdict read off the final report. */
  lemma TriggersMatchFinalReport<L, M>(sys: System<L, M>, host: Host, manager: M, acts: seq<Action>, more: seq<Action>,
                                       g: Graph, topo: seq<seq<nat>>, c: Config<L, M>, last: Config<L, M>, i: nat,
                                       ids: seq<nat>)
    requires RunTo(sys, host, manager, acts) == Some(c)
    requires RunTo(sys, host, manager, acts + more) == Some(last) && last.phase == Completed
    requires Grouped(sys.levels, topo) && Partition(topo, |g|) && Layered(g, topo)
    requires c.level < |topo| && i in topo[c.level]
    requires forall t :: t in ids ==> exists p :: Chain(g, p) && |p| > 1 && p[0] == i && p[|p| - 1] == t
    ensures AnyChanged(c.changed, ids) <==> ReportedYes(last.report, ids)
  {
    forall t | t in ids ensures InSomeLevel(topo[..c.level], t) {
      var p :| Chain(g, p) && |p| > 1 && p[0] == i && p[|p| - 1] == t;
      ChainEndsEarlier(g, topo, c.level, p);
    }
    TriggersReadEarlierLevels(sys, host, manager, acts, topo, |g|, c, ids);
    ReportedSoFar(sys, host, manager, acts, topo, |g|, c);
    ReportedSoFar(sys, host, manager, acts + more, topo, |g|, last);
    ReportOnlyGrows(sys, host, manager, acts, more);
    hide Partition, Grouped, RunTo, InSomeLevel, Layered, Before;
    forall o | o in last.report && o.id in ids ensures o in Before(c.records, c.report, c.level) {
      OutcomeIsUnique(Before(c.records, c.report, c.level), last.report, o);
    }
    forall o | o in Before(c.records, c.report, c.level) ensures o in last.report { }
  }

  /** Where ids are listed once, an id already listed in a prefix has its outcome there. */
  lemma OutcomeIsUnique(before: seq<Outcome>, all: seq<Outcome>, o: Outcome)
    requires before <= all && Distinct(Ids(all)) && o in all && o.id in Ids(before)
    ensures o in before
  {
    var k :| 0 <= k < |all| && all[k] == o;
    var m :| 0 <= m < |before| && Ids(before)[m] == o.id;
    assert Ids(all)[m] == before[m].id && Ids(all)[k] == o.id;
  }

  lemma {:induction false} ReportOnlyGrows<L, M>(sys: System<L, M>, host: Host, manager: M, acts: seq<Action>,
                                                 more: seq<Action>)
    requires RunTo(sys, host, manager, acts + more).Some?
    ensures RunTo(sys, host, manager, acts).Some?
    ensures RunTo(sys, host, manager, acts).value.report <= RunTo(sys, host, manager, acts + more).value.report
    decreases |more|
  {
    hide Do, Allowed;
    if more == [] {
      assert acts + more == acts;
      return;
    }
    var butLast := more[..|more| - 1];
    assert (acts + more)[..|acts + more| - 1] == acts + butLast;
    ReportOnlyGrows(sys, host, manager, acts, butLast);
    ReportGrowsByStep(sys, RunTo(sys, host, manager, acts + butLast).value, more[|more| - 1]);
  }

  lemma ReportGrowsByStep<L, M>(sys: System<L, M>, c: Config<L, M>, a: Action)
    requires Allowed(sys, c, a)
    ensures c.report <= Do(sys, c, a).report
  {
    hide Shape, Outcomes, SkippedOutcomes, Apply, YesIds;
  }

  // ---------- dependencies ----------

  /** Every dep of a resource lies in a strictly earlier level. */
  ghost predicate Layered(g: Graph, topo: seq<seq<nat>>) {
    forall j, i, d :: 0 <= j < |topo| && i in topo[j] && i < |g| && d in g[i] ==> InSomeLevel(topo[..j], d)
  }

  /** That is what `compute_topo_levels` establishes. */
  lemma LevelsAreLayered(g: Graph, topo: seq<seq<nat>>)
    requires InRange(g) && Partition(topo, |g|)
    requires forall a, i :: 0 <= a < |topo| && i in topo[a] ==> LongestChain(g, i, a)
    ensures Layered(g, topo)
  {
    forall j, i, d | 0 <= j < |topo| && i in topo[j] && i < |g| && d in g[i] ensures InSomeLevel(topo[..j], d) {
      assert InSomeLevel(topo, d);
      var b :| 0 <= b < |topo| && d in topo[b];
      assert LongestChain(g, d, b) && LongestChain(g, i, j);
      var q :| ChainFrom(g, d, b, q);
      var p := [i] + q;
      assert Chain(g, p) && p[0] == i;
      assert topo[..j][b] == topo[b];
    }
  }

  lemma {:induction false} ChainEndsEarlier(g: Graph, topo: seq<seq<nat>>, j: nat, p: seq<nat>)
    requires Layered(g, topo) && j < |topo|
    requires Chain(g, p) && |p| > 1 && p[0] in topo[j]
    ensures InSomeLevel(topo[..j], p[|p| - 1])
    decreases |p|
  {
    assert p[1] in g[p[0]];
    var b :| 0 <= b < j && p[1] in topo[..j][b];
    assert p[1] in topo[b];
    if |p| > 2 {
      ChainEndsEarlier(g, topo, b, p[1..]);
      var a :| 0 <= a < b && p[|p| - 1] in topo[..b][a];
      assert topo[..j][a] == topo[a];
    } else {
      assert topo[..j][b] == topo[b];
    }
  }

  /** The task of the current level that converges `i` has been spawned. */
  ghost predicate Started<L, M>(sys: System<L, M>, c: Config<L, M>, i: nat) {
    && Shape(sys, c) && c.level < |sys.levels|
    && exists k :: 0 <= k < |c.states| && !c.states[k].Waiting? && i in sys.levels[c.level].tasks[k].ids
  }

  /** Nothing starts before its dependencies: in every reachable configuration, also
      after an error, a started resource has all its transitive deps in the report. */
  lemma DepsFinishFirst<L, M>(sys: System<L, M>, host: Host, manager: M, acts: seq<Action>,
                              g: Graph, topo: seq<seq<nat>>, c: Config<L, M>, p: seq<nat>)
    requires RunTo(sys, host, manager, acts) == Some(c)
    requires Grouped(sys.levels, topo) && Partition(topo, |g|) && Layered(g, topo)
    requires Chain(g, p) && |p| > 1 && Started(sys, c, p[0])
    ensures exists o :: o in c.report && o.id == p[|p| - 1]
  {
    var k :| 0 <= k < |c.states| && p[0] in sys.levels[c.level].tasks[k].ids;
    InFlatten(sys.levels[c.level].tasks, k, p[0]);
    InBag(LevelIds(sys.levels[c.level]), topo[c.level], p[0]);
    ChainEndsEarlier(g, topo, c.level, p);
    ReportedSoFar(sys, host, manager, acts, topo, |g|, c);
    hide Partition, Grouped, RunTo, Layered, Before;
    var ids := Ids(Before(c.records, c.report, c.level));
    var m :| 0 <= m < |ids| && ids[m] == p[|p| - 1];
    assert c.report[m] in c.report;
  }

  lemma {:induction false} InFlatten(tasks: seq<Task>, k: nat, i: nat)
    requires k < |tasks| && i in tasks[k].ids
    ensures i in Flatten(tasks)
  {
    if k > 0 { InFlatten(tasks[1..], k - 1, i); }
  }

  /** Action `x` of the run joins a task that has failed. */
  ghost predicate JoinsError<L, M>(sys: System<L, M>, host: Host, manager: M, acts: seq<Action>, x: int) {
    && 0 <= x < |acts| && acts[x].Join?
    && var c := RunTo(sys, host, manager, acts[..x]);
       c.Some? && acts[x].k < |c.value.states| && c.value.states[acts[x].k].Failed?
  }

  lemma AbortsByJoin<L, M>(sys: System<L, M>, c: Config<L, M>, a: Action)
    requires Allowed(sys, c, a)
    ensures Do(sys, c, a).phase == Aborted <==>
            c.phase == Aborted || (a.Join? && a.k < |c.states| && c.states[a.k].Failed?)
  {
    hide Apply, YesIds, Outcomes, SkippedOutcomes;
  }

  /** A run is aborted exactly once an error has been joined. */
  lemma {:induction false} AbortedIffErrorJoined<L, M>(sys: System<L, M>, host: Host, manager: M, acts: seq<Action>,
                                                       c: Config<L, M>)
    requires RunTo(sys, host, manager, acts) == Some(c)
    ensures c.phase == Aborted <==> exists x :: JoinsError(sys, host, manager, acts, x)
    decreases |acts|
  {
    hide Do, Allowed;
    if acts == [] {
      assert c == Start(sys, host, manager);
    } else {
      var init, last := acts[..|acts| - 1], |acts| - 1;
      var before := RunTo(sys, host, manager, init).value;
      AbortedIffErrorJoined(sys, host, manager, init, before);
      AbortsByJoin(sys, before, acts[last]);
      forall x | 0 <= x < last
        ensures JoinsError(sys, host, manager, init, x) == JoinsError(sys, host, manager, acts, x)
      {
        assert init[..x] == acts[..x];
      }
      assert JoinsError(sys, host, manager, acts, last) <==>
             acts[last].Join? && acts[last].k < |before.states| && before.states[acts[last].k].Failed?;
    }
  }

  /** Nothing is joined before every task of the level has been started: an error keeps no other
      task of its level from starting. */
  lemma {:induction false} AllAreStarted<L, M>(sys: System<L, M>, host: Host, manager: M, acts: seq<Action>,
                                               c: Config<L, M>)
    requires RunTo(sys, host, manager, acts) == Some(c)
    requires c.phase == Aborted || exists k :: 0 <= k < |c.states| && c.states[k].Joined?
    ensures forall k :: 0 <= k < |c.states| ==> !c.states[k].Waiting?
    decreases |acts|
  {
    hide Do, Allowed;
    if acts == [] {
      assert c == Start(sys, host, manager);
    } else {
      var before := RunTo(sys, host, manager, acts[..|acts| - 1]).value;
      if before.phase == Aborted || exists k :: 0 <= k < |before.states| && before.states[k].Joined? {
        AllAreStarted(sys, host, manager, acts[..|acts| - 1], before);
      }
      StaysStarted(sys, before, acts[|acts| - 1]);
    }
  }

  lemma StaysStarted<L, M>(sys: System<L, M>, c: Config<L, M>, a: Action)
    requires Allowed(sys, c, a)
    requires c.phase == Aborted || (exists k :: 0 <= k < |c.states| && c.states[k].Joined?) ==>
               forall k :: 0 <= k < |c.states| ==> !c.states[k].Waiting?
    ensures var c' := Do(sys, c, a);
            c'.phase == Aborted || (exists k :: 0 <= k < |c'.states| && c'.states[k].Joined?) ==>
              forall k :: 0 <= k < |c'.states| ==> !c'.states[k].Waiting?
  {
    hide Apply, YesIds, Outcomes, SkippedOutcomes;
    var c' := Do(sys, c, a);
    if a.EndLevel? {
      assert c'.phase != Aborted;
    } else if !a.Join? && exists k :: 0 <= k < |c'.states| && c'.states[k].Joined? {
      var k :| 0 <= k < |c'.states| && c'.states[k].Joined?;
      assert c.states[k].Joined?;
    }
  }

  /** After an error nothing new is started and nothing more is reported: no resource
      of a later level ever runs. */
  lemma {:induction false} AbortIsFinal<L, M>(sys: System<L, M>, host: Host, manager: M, acts: seq<Action>,
                                              more: seq<Action>, c: Config<L, M>, last: Config<L, M>)
    requires RunTo(sys, host, manager, acts) == Some(c) && c.phase == Aborted
    requires RunTo(sys, host, manager, acts + more) == Some(last)
    ensures last.phase == Aborted && last.level == c.level && last.report == c.report && last.changed == c.changed
    ensures forall i :: Started(sys, last, i) ==> Started(sys, c, i)
    decreases |more|
  {
    hide Do, Allowed, Started;
    if more == [] {
      assert acts + more == acts;
      return;
    }
    var butLast := more[..|more| - 1];
    assert (acts + more)[..|acts + more| - 1] == acts + butLast;
    var mid := RunTo(sys, host, manager, acts + butLast).value;
    AbortIsFinal(sys, host, manager, acts, butLast, c, mid);
    AbortedStep(sys, mid, more[|more| - 1]);
  }

  lemma AbortedStep<L, M>(sys: System<L, M>, c: Config<L, M>, a: Action)
    requires Allowed(sys, c, a) && c.phase == Aborted
    ensures var c' := Do(sys, c, a);
            && c'.phase == Aborted && c'.level == c.level && c'.report == c.report && c'.changed == c.changed
            && forall i :: Started(sys, c', i) ==> Started(sys, c, i)
  {
    var c' := Do(sys, c, a);
    hide Apply, YesIds;
    forall i | Started(sys, c', i) ensures Started(sys, c, i) {
      var k :| 0 <= k < |c'.states| && !c'.states[k].Waiting? && i in sys.levels[c.level].tasks[k].ids;
      assert !c.states[k].Waiting?;
    }
  }
}
