/** The batch tasks of a run are the batchers of `AptBatch`: on its own, an install or removal
    task takes the host where converging its packages one by one, in any order, would. */
module AptTasks {
  import opened HostModel
  import opened Run
  import opened RunSchedule
  import opened Backends
  import opened BackendRuns
  import AptBatch

  function Installed(h: Host): set<string> {
    set c | c in h && c.Package? :: c.name
  }

  lemma InstalledHas(h: Host)
    ensures forall n :: n in Installed(h) <==> Package(n) in h
  {
  }

  lemma {:induction false} FilterIsMissing(names: seq<string>, h: Host)
    ensures Filter(names, h, false) == AptBatch.Missing(names, Installed(h))
    ensures Filter(names, h, true) == AptBatch.Present(names, Installed(h))
  {
    InstalledHas(h);
    if names != [] { FilterIsMissing(names[1..], h); }
  }

  /** Where the packages named are asked for, so is what they pull in. */
  lemma ClosureCells(f: AptBatch.Closure, todo: seq<string>, names: seq<string>, n: string)
    requires forall x :: x in todo ==> x in names
    ensures Package(n) in Packages(todo, f) && Package(n) in Packages(names, f) <==> n in AptBatch.ClosureOf(f, todo)
  {
  }

  /** What the install step does to the installed packages. */
  lemma InstallStep(names: seq<string>, env: Env, todo: seq<string>, verdicts: seq<Changed>, h: Host)
    requires forall x :: x in todo ==> x in names
    ensures Installed(HostAfter(h, AptStep(names, env, AptInstall(todo, verdicts), h))) ==
            Installed(h) + AptBatch.ClosureOf(env.apt.installs, todo)
  {
    var h' := HostAfter(h, AptStep(names, env, AptInstall(todo, verdicts), h));
    InstalledHas(h);
    InstalledHas(h');
    forall n ensures n in Installed(h') <==> n in Installed(h) + AptBatch.ClosureOf(env.apt.installs, todo) {
      ClosureCells(env.apt.installs, todo, names, n);
    }
  }

  lemma RemoveStep(names: seq<string>, env: Env, todo: seq<string>, verdicts: seq<Changed>, h: Host)
    requires forall x :: x in todo ==> x in names
    ensures Installed(HostAfter(h, AbsentStep(names, env, AptRemove(todo, verdicts), h))) ==
            Installed(h) - AptBatch.ClosureOf(env.apt.removes, todo)
  {
    var h' := HostAfter(h, AbsentStep(names, env, AptRemove(todo, verdicts), h));
    InstalledHas(h);
    InstalledHas(h');
    forall n ensures n in Installed(h') <==> n in Installed(h) - AptBatch.ClosureOf(env.apt.removes, todo) {
      ClosureCells(env.apt.removes, todo, names, n);
    }
  }

  /** The packages there are when the batch is through. */
  function Afterwards(job: Job, env: Env, h0: Host): set<string>
    requires job.Install? || job.Remove?
  {
    if job.Install? then Installed(h0) + AptBatch.ClosureOf(env.apt.installs, Filter(job.names, h0, false))
    else Installed(h0) - AptBatch.ClosureOf(env.apt.removes, Filter(job.names, h0, true))
  }

  /** Where an install task that started on `h0` is after some steps. */
  ghost predicate Installing(names: seq<string>, h0: Host, local: Local, h: Host) {
    match local
    case Begin => h == h0
    case AptUpdate(todo, _) => h == h0 && todo == Filter(names, h0, false)
    case AptInstall(todo, _) => Installed(h) == Installed(h0) && todo == Filter(names, h0, false)
    case _ => false
  }

  lemma InstallMovesOn(names: seq<string>, env: Env, h0: Host, local: Local, h: Host)
    requires !env.dryRun && Installing(names, h0, local, h)
    ensures var move := AptStep(names, env, local, h);
            && (move.Next? ==> Installing(names, h0, move.local, HostAfter(h, move)))
            && (move.Finish? ==> Installed(HostAfter(h, move)) == Afterwards(Install(names), env, h0))
  {
    hide Filter, BatchVerdicts, Packages;
    assert Apply(h, NOTHING) == h;
    FilterHas(names, h0, false);
    match local
    case Begin => if Filter(names, h0, false) == [] { assert AptBatch.ClosureOf(env.apt.installs, []) == {}; }
    case AptUpdate(_, _) => assert Installed(Apply(h, Put(AptIndex, HostModel.Present))) == Installed(h);
    case AptInstall(todo, v) => InstallStep(names, env, todo, v, h);
    case _ =>
  }

  ghost predicate Removing(names: seq<string>, h0: Host, local: Local, h: Host) {
    match local
    case Begin => h == h0
    case AptRemove(todo, _) => h == h0 && todo == Filter(names, h0, true)
    case _ => false
  }

  lemma RemoveMovesOn(names: seq<string>, env: Env, h0: Host, local: Local, h: Host)
    requires !env.dryRun && Removing(names, h0, local, h)
    ensures var move := AbsentStep(names, env, local, h);
            && (move.Next? ==> Removing(names, h0, move.local, HostAfter(h, move)))
            && (move.Finish? ==> Installed(HostAfter(h, move)) == Afterwards(Remove(names), env, h0))
  {
    hide Filter, BatchVerdicts, Packages;
    assert Apply(h, NOTHING) == h;
    FilterHas(names, h0, true);
    match local
    case Begin => if Filter(names, h0, true) == [] { assert AptBatch.ClosureOf(env.apt.removes, []) == {}; }
    case AptRemove(todo, v) => RemoveStep(names, env, todo, v, h);
    case _ =>
  }

  lemma {:induction false} BatchAlone(plan: Plan, levels: seq<Level>, env: Env, task: Task, host: Host,
                                      changed: set<nat>, n: nat)
    requires !env.dryRun && (JobOf(plan, task).Install? || JobOf(plan, task).Remove?)
    ensures var job := JobOf(plan, task);
            var (s, h) := Alone(SystemOf(plan, levels, env), task, host, changed, n);
            && (s.Running? ==> if job.Install? then Installing(job.names, host, s.local, h)
                               else Removing(job.names, host, s.local, h))
            && (s.Finished? ==> Installed(h) == Afterwards(job, env, host))
    decreases n
  {
    hide JobOf, JobShadow, JobSenses, JobWrites, JobMakes, Hints, AptStep, AbsentStep, Installing, Removing, Filter,
         Apply, Installed, Afterwards;
    var job := JobOf(plan, task);
    if n == 0 {
      StartsToInstall(job.names, host);
    } else {
      BatchAlone(plan, levels, env, task, host, changed, n - 1);
      var (s, h) := Alone(SystemOf(plan, levels, env), task, host, changed, n - 1);
      if s.Running? {
        if job.Install? { InstallMovesOn(job.names, env, host, s.local, h); }
        else { RemoveMovesOn(job.names, env, host, s.local, h); }
      }
    }
  }

  lemma StartsToInstall(names: seq<string>, host: Host)
    ensures Installing(names, host, Begin, host) && Removing(names, host, Begin, host)
  {
  }

  /** A batch of a run leaves installed what one by one would have, and takes away what one by
      one would have; `OrderDoesNotMatter` adds any other order of the names. */
  lemma BatchIsInTurn(plan: Plan, levels: seq<Level>, env: Env, task: Task, host: Host, changed: set<nat>, n: nat)
    requires !env.dryRun && AptBatch.IsClosure(env.apt.installs) && AptBatch.IsClosure(env.apt.removes)
    requires JobOf(plan, task).Install? || JobOf(plan, task).Remove?
    requires Alone(SystemOf(plan, levels, env), task, host, changed, n).0.Finished?
    ensures var job := JobOf(plan, task);
            Installed(Alone(SystemOf(plan, levels, env), task, host, changed, n).1) ==
            if job.Install? then AptBatch.InTurn(env.apt.installs, Installed(host), job.names)
            else AptBatch.RemovedInTurn(env.apt.removes, Installed(host), job.names)
  {
    hide JobOf, SystemOf, Alone, Filter, AptBatch.IsClosure, AptBatch.ClosureOf, AptBatch.InTurn,
         AptBatch.RemovedInTurn;
    var job := JobOf(plan, task);
    BatchAlone(plan, levels, env, task, host, changed, n);
    FilterIsMissing(job.names, host);
    if job.Install? { AptBatch.SameInstalled(env.apt.installs, Installed(host), job.names); }
    else { AptBatch.SameRemoved(env.apt.removes, Installed(host), job.names); }
  }
}
