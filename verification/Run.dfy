/** The run of a plan as a transition system (`Executor::run`, `run_level`,
    `run_batched` and `run_one` in src/executor.rs; `Env::record_changed` in
    src/env.rs).

    The tasks of one level run concurrently: they are spawned in any order, take
    their steps in any interleaving, finish and are joined in any order. An error
    that is joined ends the run at once; tasks still alive then are cut at some
    later step. The theorems below hold for every such schedule. */
module Run {
  import opened HostModel

  datatype Changed = Yes | No | Skipped

  datatype Outcome = Outcome(id: nat, hint: string, changed: Changed)

  /** One spawned task: a single resource, or a whole batch family of the level. */
  datatype Task = Task(ids: seq<nat>)

  /** One topological level after grouping. */
  datatype Level = Level(skipped: seq<nat>, tasks: seq<Task>)

  /** What one step of a task does. `Fail` is a returned `BackendError`. */
  datatype Move<L> =
    | Next(local: L, patch: Patch)
    | Finish(verdicts: seq<Changed>, patch: Patch)
    | Fail

  /** Everything the executor runs. `step` sees the host and the change set;
      `shadow` updates state of the service manager, which no step reads.
      `senses`, `writes` and `makes` bound what a task touches. */
  datatype System<!L, !M> = System(
    hints: seq<string>,
    levels: seq<Level>,
    start: L,
    step: (Task, L, Host, set<nat>) -> Move<L>,
    shadow: (Task, L, Host, M) -> M,
    senses: Task -> iset<Cell>,
    writes: Task -> iset<Cell>,
    makes: Task -> iset<Cell>)

  datatype TaskState<L> =
    | Waiting
    | Running(local: L)
    | Finished(verdicts: seq<Changed>)
    | Joined(verdicts: seq<Changed>)
    | Failed
    | Cut

  datatype Phase = InLevel | Completed | Aborted

  /** A level as it was when it started, and where its outcomes begin in the report. */
  datatype Record = Record(host: Host, changed: set<nat>, from: nat)

  /** `records`, `taken` (steps each task of the level has taken) and `past` (the
      same for the finished levels) are history: no transition depends on them. */
  datatype Config<L, M> = Config(
    level: nat,
    states: seq<TaskState<L>>,
    host: Host,
    manager: M,
    changed: set<nat>,
    report: seq<Outcome>,
    phase: Phase,
    records: seq<Record>,
    taken: seq<nat>,
    past: seq<seq<nat>>)

  datatype Action = Spawn(k: nat) | Step(k: nat) | Crash(k: nat) | Join(k: nat) | CutOff(k: nat) | EndLevel

  // ---------- transitions ----------

  function SkippedOutcomes(hints: seq<string>, ids: seq<nat>): (r: seq<Outcome>)
    ensures |r| == |ids|
  {
    if ids == [] then [] else [Outcome(ids[0], Hint(hints, ids[0]), Skipped)] + SkippedOutcomes(hints, ids[1..])
  }

  function Hint(hints: seq<string>, id: nat): string {
    if id < |hints| then hints[id] else ""
  }

  /** The zip of `run_batched` and `run_one`. */
  function Outcomes(hints: seq<string>, ids: seq<nat>, verdicts: seq<Changed>): (r: seq<Outcome>)
    requires |ids| == |verdicts|
    ensures |r| == |ids|
  {
    if ids == [] then [] else
      [Outcome(ids[0], Hint(hints, ids[0]), verdicts[0])] + Outcomes(hints, ids[1..], verdicts[1..])
  }

  function YesIds(outcomes: seq<Outcome>): set<nat> {
    set o | o in outcomes && o.changed == Yes :: o.id
  }

  function BeginLevel<L, M>(sys: System<L, M>, level: nat, host: Host, manager: M, changed: set<nat>,
                            report: seq<Outcome>, records: seq<Record>, past: seq<seq<nat>>): Config<L, M>
  {
    if level < |sys.levels| then
      var lv := sys.levels[level];
      Config(level, seq(|lv.tasks|, _ => Waiting), host, manager, changed,
             report + SkippedOutcomes(sys.hints, lv.skipped), InLevel,
             records + [Record(host, changed, |report|)], seq(|lv.tasks|, _ => 0), past)
    else
      Config(level, [], host, manager, changed, report, Completed, records + [Record(host, changed, |report|)], [],
             past)
  }

  function Start<L, M>(sys: System<L, M>, host: Host, manager: M): Config<L, M> {
    BeginLevel(sys, 0, host, manager, {}, [], [], [])
  }

  predicate Shape<L, M>(sys: System<L, M>, c: Config<L, M>) {
    && c.level <= |sys.levels|
    && |c.records| == c.level + 1 && |c.past| == c.level
    && c.records[c.level].from <= |c.report|
    && (c.phase == Completed <==> c.level == |sys.levels|)
    && (c.level < |sys.levels| ==>
          && |c.states| == |c.taken| == |sys.levels[c.level].tasks|
          && forall k :: 0 <= k < |c.states| && (c.states[k].Finished? || c.states[k].Joined?) ==>
               |c.states[k].verdicts| == |sys.levels[c.level].tasks[k].ids|)
  }

  predicate Allowed<L, M>(sys: System<L, M>, c: Config<L, M>, a: Action) {
    && Shape(sys, c)
    && c.phase != Completed
    && match a
       case Spawn(k) => c.phase == InLevel && k < |c.states| && c.states[k].Waiting?
       case Step(k) => k < |c.states| && c.states[k].Running?
       case Crash(k) => k < |c.states| && c.states[k].Running?
       case Join(k) =>
         && c.phase == InLevel && k < |c.states|
         && (forall m :: 0 <= m < |c.states| ==> !c.states[m].Waiting?)
         && (c.states[k].Failed? || c.states[k].Finished?)
       case CutOff(k) => c.phase == Aborted && k < |c.states| && (c.states[k].Running? || c.states[k].Finished?)
       case EndLevel => c.phase == InLevel && forall m :: 0 <= m < |c.states| ==> c.states[m].Joined?
  }

  function Do<L, M>(sys: System<L, M>, c: Config<L, M>, a: Action): Config<L, M>
    requires Allowed(sys, c, a)
  {
    match a
    case Spawn(k) => c.(states := c.states[k := Running(sys.start)])
    case Step(k) =>
      var task := sys.levels[c.level].tasks[k];
      var local := c.states[k].local;
      var manager := sys.shadow(task, local, c.host, c.manager);
      var c' := c.(taken := c.taken[k := c.taken[k] + 1], manager := manager);
      (match sys.step(task, local, c.host, c.changed)
       case Next(next, p) => c'.(states := c.states[k := Running(next)], host := Apply(c.host, p))
       case Finish(v, p) =>
         // the length check of run_batched
         c'.(states := c.states[k := if |v| == |task.ids| then Finished(v) else Failed], host := Apply(c.host, p))
       case Fail => c'.(states := c.states[k := Failed]))
    case Crash(k) => c.(states := c.states[k := Failed])
    case Join(k) =>
      if c.states[k].Failed? then
        c.(phase := Aborted)
      else
        var v := c.states[k].verdicts;
        c.(states := c.states[k := Joined(v)],
           report := c.report + Outcomes(sys.hints, sys.levels[c.level].tasks[k].ids, v))
    case CutOff(k) => c.(states := c.states[k := Cut])
    case EndLevel =>
      var changed := c.changed + YesIds(c.report[c.records[c.level].from..]);
      BeginLevel(sys, c.level + 1, c.host, c.manager, changed, c.report, c.records, c.past + [c.taken])
  }

  /** The configuration a schedule leads to, if each of its actions is enabled. */
  function RunTo<L, M>(sys: System<L, M>, host: Host, manager: M, acts: seq<Action>): Option<Config<L, M>> {
    if acts == [] then Some(Start(sys, host, manager)) else
    match RunTo(sys, host, manager, acts[..|acts| - 1])
    case None => None
    case Some(c) => if Allowed(sys, c, acts[|acts| - 1]) then Some(Do(sys, c, acts[|acts| - 1])) else None
  }

  lemma ShapePreserved<L, M>(sys: System<L, M>, c: Config<L, M>, a: Action)
    requires Allowed(sys, c, a)
    ensures Shape(sys, Do(sys, c, a))
  {
  }

  lemma {:induction false} ShapeAlways<L, M>(sys: System<L, M>, host: Host, manager: M, acts: seq<Action>)
    ensures var r := RunTo(sys, host, manager, acts); r.Some? ==> Shape(sys, r.value)
  {
    if acts != [] {
      var c := RunTo(sys, host, manager, acts[..|acts| - 1]);
      if c.Some? && Allowed(sys, c.value, acts[|acts| - 1]) {
        ShapePreserved(sys, c.value, acts[|acts| - 1]);
      }
    }
  }
}
