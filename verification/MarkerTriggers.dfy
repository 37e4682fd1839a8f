/** Markers never change (src/backends/marker.rs), so they never enter the change set and
    listing one as a trigger has no effect. */
module MarkerTriggers {
  import opened HostModel
  import opened Run
  import opened RunReport
  import opened Backends

  predicate IsMarker(plan: Plan, i: nat) { i < |plan| && plan[i].resource.Marker? }

  /** None of these verdicts says that a marker changed. */
  predicate MarkersQuiet(plan: Plan, ids: seq<nat>, verdicts: seq<Changed>) {
    forall x :: 0 <= x < |ids| == |verdicts| && IsMarker(plan, ids[x]) ==> verdicts[x] != Yes
  }

  predicate QuietOutcomes(plan: Plan, outcomes: seq<Outcome>) {
    forall o :: o in outcomes && o.changed == Yes ==> !IsMarker(plan, o.id)
  }

  predicate QuietStates(plan: Plan, tasks: seq<Task>, states: seq<TaskState<Local>>) {
    forall k :: 0 <= k < |states| == |tasks| && states[k].Finished? ==>
        MarkersQuiet(plan, tasks[k].ids, states[k].verdicts)
  }

  lemma OneVerdict(r: Resource, env: Env, local: Local, h: Host, changed: set<nat>)
    ensures var move := JobStep(Single(r), env, local, h, changed);
            move.Finish? ==> |move.verdicts| == 1 && (r.Marker? ==> move.verdicts == [No])
  {
  }

  lemma JobKeepsMarkersQuiet(plan: Plan, task: Task, env: Env, local: Local, h: Host, changed: set<nat>)
    ensures var move := JobStep(JobOf(plan, task), env, local, h, changed);
            move.Finish? ==> MarkersQuiet(plan, task.ids, move.verdicts)
  {
    hide FileStep, DirectoryStep, ServiceMove, CommandStep, AptStep, AbsentStep, Names;
    var job := JobOf(plan, task);
    if job.Single? { OneVerdict(job.resource, env, local, h, changed); }
  }

  lemma {:induction false} QuietZip(plan: Plan, hints: seq<string>, ids: seq<nat>, verdicts: seq<Changed>)
    requires |ids| == |verdicts| && MarkersQuiet(plan, ids, verdicts)
    ensures QuietOutcomes(plan, Outcomes(hints, ids, verdicts))
    decreases |ids|
  {
    hide IsMarker;
    if ids != [] {
      assert MarkersQuiet(plan, ids[1..], verdicts[1..]) by {
        forall x | 0 <= x < |ids| - 1 && IsMarker(plan, ids[1..][x]) ensures verdicts[1..][x] != Yes {
          assert IsMarker(plan, ids[x + 1]);
        }
      }
      QuietZip(plan, hints, ids[1..], verdicts[1..]);
    }
  }

  ghost predicate QuietRun(plan: Plan, levels: seq<Level>, c: Config<Local, Manager>) {
    && QuietOutcomes(plan, c.report)
    && (forall i :: i in c.changed ==> !IsMarker(plan, i))
    && (c.level < |levels| ==> QuietStates(plan, levels[c.level].tasks, c.states))
  }

  lemma QuietBegins(plan: Plan, levels: seq<Level>, env: Env, level: nat, host: Host, manager: Manager,
                    changed: set<nat>, report: seq<Outcome>, records: seq<Record>, past: seq<seq<nat>>)
    requires QuietOutcomes(plan, report) && forall i :: i in changed ==> !IsMarker(plan, i)
    ensures QuietRun(plan, levels, BeginLevel(SystemOf(plan, levels, env), level, host, manager, changed, report,
                                              records, past))
  {
    hide IsMarker, SkippedOutcomes;
    if level < |levels| { SkippedIds(Hints(plan), levels[level].skipped); }
  }

  lemma QuietStep(plan: Plan, levels: seq<Level>, env: Env, c: Config<Local, Manager>, a: Action)
    requires QuietRun(plan, levels, c) && Allowed(SystemOf(plan, levels, env), c, a) && !a.EndLevel?
    ensures QuietRun(plan, levels, Do(SystemOf(plan, levels, env), c, a))
  {
    hide IsMarker, MarkersQuiet, JobStep, JobOf, JobShadow, Apply, Outcomes, YesIds;
    if a.Step? {
      JobKeepsMarkersQuiet(plan, levels[c.level].tasks[a.k], env, c.states[a.k].local, c.host, c.changed);
    } else if a.Join? && c.states[a.k].Finished? {
      QuietZip(plan, Hints(plan), levels[c.level].tasks[a.k].ids, c.states[a.k].verdicts);
    }
  }

  lemma QuietEnd(plan: Plan, levels: seq<Level>, env: Env, c: Config<Local, Manager>)
    requires QuietRun(plan, levels, c) && Allowed(SystemOf(plan, levels, env), c, EndLevel)
    ensures QuietRun(plan, levels, Do(SystemOf(plan, levels, env), c, EndLevel))
  {
    hide IsMarker, QuietStates, BeginLevel;
    var changed := c.changed + YesIds(c.report[c.records[c.level].from..]);
    QuietBegins(plan, levels, env, c.level + 1, c.host, c.manager, changed, c.report, c.records, c.past + [c.taken]);
  }

  lemma {:induction false} QuietAlways(plan: Plan, levels: seq<Level>, env: Env, host: Host, manager: Manager,
                                       acts: seq<Action>, c: Config<Local, Manager>)
    requires RunTo(SystemOf(plan, levels, env), host, manager, acts) == Some(c)
    ensures QuietRun(plan, levels, c)
    decreases |acts|
  {
    hide QuietRun, Do, Allowed, SystemOf;
    if acts == [] {
      QuietBegins(plan, levels, env, 0, host, manager, {}, [], [], []);
    } else {
      var before := RunTo(SystemOf(plan, levels, env), host, manager, acts[..|acts| - 1]).value;
      QuietAlways(plan, levels, env, host, manager, acts[..|acts| - 1], before);
      if acts[|acts| - 1].EndLevel? {
        QuietEnd(plan, levels, env, before);
      } else {
        QuietStep(plan, levels, env, before, acts[|acts| - 1]);
      }
    }
  }

  function WithoutMarkers(plan: Plan, ids: seq<nat>): (r: seq<nat>)
    ensures forall i :: i in r <==> i in ids && !IsMarker(plan, i)
  {
    if ids == [] then [] else (if IsMarker(plan, ids[0]) then [] else [ids[0]]) + WithoutMarkers(plan, ids[1..])
  }

  /** In every reachable configuration of a run, dropping the markers from a trigger
      list changes no answer; a list of markers only never fires. */
  lemma MarkersNeverTrigger(plan: Plan, levels: seq<Level>, env: Env, host: Host, manager: Manager, acts: seq<Action>,
                            c: Config<Local, Manager>, ids: seq<nat>)
    requires RunTo(SystemOf(plan, levels, env), host, manager, acts) == Some(c)
    ensures AnyChanged(c.changed, ids) <==> AnyChanged(c.changed, WithoutMarkers(plan, ids))
    ensures (forall i :: i in ids ==> IsMarker(plan, i)) ==> !AnyChanged(c.changed, ids)
  {
    hide RunTo;
    QuietAlways(plan, levels, env, host, manager, acts, c);
  }
}
