/** The level that the users bundle registers for all users at once: directories nested in each
    other next to unit files. Its directories come out the same in every interleaving; what is
    reported for them is a race exactly where the wanted attributes are those mkdir gives. */
module UserDirectories {
  import opened HostModel
  import opened TopoLevels
  import opened Run
  import opened RunReport
  import opened RunSchedule
  import opened RunViews
  import opened RunLiveness
  import opened Backends
  import opened BackendRuns
  import opened WholePlan
  import opened RunSkips
  import opened PlanCompletes
  import opened DirectoryRace
  import PlanBuilder

  // ---------- a verdict that depends on the schedule ----------

  function Nested(outer: Resource, inner: Resource): Plan {
    [Node("outer", outer, [], Never), Node("inner", inner, [], Never)]
  }

  const BOTH: seq<Level> := [Level([], [Task([0]), Task([1])])]

  /** Two missing directories, one below the other, and nothing in the way. */
  ghost predicate Missing(outer: Resource, inner: Resource, h: Host) {
    && outer.Directory? && inner.Directory? && TypedDirs(h)
    && outer.path in Ancestors(inner.path) && DirAt(outer.path) !in h && DirAt(inner.path) !in h
    && FileAt(inner.path) !in h && !AncestorIsFile(h, inner.path)
  }

  lemma NestedJobs(outer: Resource, inner: Resource)
    requires outer.Directory? && inner.Directory?
    ensures JobOf(Nested(outer, inner), Task([0])) == Single(outer)
    ensures JobOf(Nested(outer, inner), Task([1])) == Single(inner)
  {
  }

  /** A task alone touches only what it writes or makes. */
  lemma {:induction false} OthersStay(plan: Plan, env: Env, levels: seq<Level>, t: Task, host: Host, changed: set<nat>,
                                      n: nat, x: Cell)
    requires x !in JobWrites(JobOf(plan, t), env.apt) && x !in JobMakes(JobOf(plan, t))
    ensures Same(host, Alone(SystemOf(plan, levels, env), t, host, changed, n).1, x)
    decreases n
  {
    hide JobStep, JobShadow, JobSenses, JobWrites, JobMakes, JobOf, Hints, After;
    if n > 0 {
      OthersStay(plan, env, levels, t, host, changed, n - 1, x);
      var (s, h) := Alone(SystemOf(plan, levels, env), t, host, changed, n - 1);
      if s.Running? { JobFramed(JobOf(plan, t), env, s.local, h, h, changed); }
    }
  }

  lemma {:induction false} FirstEnd<L, M>(sys: System<L, M>, t: Task, host: Host, changed: set<nat>, m: nat)
    returns (n: nat)
    requires !Alone(sys, t, host, changed, m).0.Running?
    ensures !Alone(sys, t, host, changed, n).0.Running? && forall i: nat :: i < n ==>
              Alone(sys, t, host, changed, i).0.Running?
  {
    hide Alone;
    if i: nat :| i < m && !Alone(sys, t, host, changed, i).0.Running? {
      n := FirstEnd(sys, t, host, changed, i);
    } else {
      n := m;
    }
  }

  /** From a point where a directory task has been spawned and nothing is in its way, it may
      run through, and reports whether its directory was as wanted. */
  lemma DirTaskRuns(plan: Plan, env: Env, levels: seq<Level>, host: Host, manager: Manager, acts: seq<Action>,
                    c: Config<Local, Manager>, k: nat) returns (more: seq<Action>, next: Config<Local, Manager>)
    requires RunTo(SystemOf(plan, levels, env), host, manager, acts) == Some(c) && c.phase == InLevel
    requires c.level < |levels| && k < |c.states| == |levels[c.level].tasks| && c.states[k] == Running(Begin)
    requires IsDirTask(plan, levels[c.level].tasks[k])
    requires var r := DirResource(plan, levels[c.level].tasks[k]); FileAt(r.path) !in c.host
                                                                   && !AncestorIsFile(c.host, r.path)
    ensures RunTo(SystemOf(plan, levels, env), host, manager, acts + more) == Some(next)
    ensures next.level == c.level && next.phase == InLevel && next.records == c.records && next.report == c.report
    ensures next.states == c.states[k := Finished([if NeedsWork(DirResource(plan, levels[c.level].tasks[k]),
                                                                c.host) then Yes else No])]
    ensures var path := DirResource(plan, levels[c.level].tasks[k]).path;
            forall x :: x != DirAt(path) && x !in AncestorDirs(path) ==> Same(c.host, next.host, x)
  {
    hide RunTo, Alone, JobOf, Ancestors, AncestorIsFile, NeedsWork, JobStep, JobShadow, JobSenses, AncestorDirs;
    var sys, t := SystemOf(plan, levels, env), levels[c.level].tasks[k];
    FinishesIffReady(plan, levels, env, t, c.host, c.changed);
    var m: nat :| Alone(sys, t, c.host, c.changed, m).0.Finished?;
    var n := FirstEnd(sys, t, c.host, c.changed, m);
    AloneUnique(sys, t, c.host, c.changed, m, n);
    StaysOnItsWay(plan, levels, env, t, c.host, c.changed, n);
    more, next := OneTaskRuns(sys, host, manager, acts, c, k, n);
    var path := DirResource(plan, t).path;
    forall x | x != DirAt(path) && x !in AncestorDirs(path) ensures Same(c.host, next.host, x) {
      OthersStay(plan, env, levels, t, c.host, c.changed, n, x);
    }
  }

  /** The run that starts both tasks. */
  lemma BothStart(outer: Resource, inner: Resource, env: Env, host: Host, manager: Manager)
    returns (acts: seq<Action>, c: Config<Local, Manager>)
    requires outer.Directory? && inner.Directory?
    ensures RunTo(SystemOf(Nested(outer, inner), BOTH, env), host, manager, acts) == Some(c) && c.phase == InLevel
    ensures c.level == 0
    ensures c.states == [Running(Begin), Running(Begin)] && c.host == host && c.report == []
    ensures c.records == [Record(host, {}, 0)]
  {
    hide JobOf, JobStep, JobShadow, JobSenses, JobWrites, JobMakes, RunTo;
    var sys := SystemOf(Nested(outer, inner), BOTH, env);
    var c0 := Start(sys, host, manager);
    assert RunTo(sys, host, manager, []) == Some(c0) by { StartsHere(sys, host, manager); }
    RunExtends(sys, host, manager, [], c0, Spawn(0));
    var c1 := Do(sys, c0, Spawn(0));
    RunExtends(sys, host, manager, [] + [Spawn(0)], c1, Spawn(1));
    acts, c := [] + [Spawn(0)] + [Spawn(1)], Do(sys, c1, Spawn(1));
  }

  lemma StartsHere<L, M>(sys: System<L, M>, host: Host, manager: M)
    ensures RunTo(sys, host, manager, []) == Some(Start(sys, host, manager))
  {
  }

  /** The run that joins both and ends. */
  lemma BothJoin(outer: Resource, inner: Resource, env: Env, host: Host, manager: Manager, acts: seq<Action>,
                 c: Config<Local, Manager>, a: Changed, b: Changed)
                   returns (more: seq<Action>, last: Config<Local, Manager>)
    requires outer.Directory? && inner.Directory?
    requires RunTo(SystemOf(Nested(outer, inner), BOTH, env), host, manager, acts) == Some(c) && c.phase == InLevel
    requires c.level == 0
    requires c.states == [Finished([a]), Finished([b])] && c.report == []
    ensures RunTo(SystemOf(Nested(outer, inner), BOTH, env), host, manager, acts + more) == Some(last)
    ensures last.phase == Completed
    ensures last.report == [Outcome(0, "outer", a), Outcome(1, "inner", b)] && last.host == c.host
  {
    hide JobOf, JobStep, JobShadow, JobSenses, JobWrites, JobMakes, RunTo, YesIds;
    var sys := SystemOf(Nested(outer, inner), BOTH, env);
    ShapeAlways(sys, host, manager, acts);
    RunExtends(sys, host, manager, acts, c, Join(0));
    var c1 := Do(sys, c, Join(0));
    ShapeAlways(sys, host, manager, acts + [Join(0)]);
    assert c1.report == [Outcome(0, "outer", a)];
    RunExtends(sys, host, manager, acts + [Join(0)], c1, Join(1));
    var c2 := Do(sys, c1, Join(1));
    ShapeAlways(sys, host, manager, acts + [Join(0)] + [Join(1)]);
    assert c2.report == [Outcome(0, "outer", a), Outcome(1, "inner", b)];
    RunExtends(sys, host, manager, acts + [Join(0)] + [Join(1)], c2, EndLevel);
    more, last := [Join(0), Join(1), EndLevel], Do(sys, c2, EndLevel);
    assert acts + more == acts + [Join(0)] + [Join(1)] + [EndLevel];
  }

  lemma NestedIsDirLevel(outer: Resource, inner: Resource, env: Env)
    requires outer.Directory? && inner.Directory? && outer.path != inner.path
    ensures DirLevel(Nested(outer, inner), env, BOTH[0].tasks)
    ensures forall k :: 0 <= k < 2 ==> IsDirTask(Nested(outer, inner), BOTH[0].tasks[k])
  {
    hide JobOf;
    NestedJobs(outer, inner);
  }

  /** Once the inner directory is there, so is the outer one, as mkdir makes it. */
  lemma OuterIsFresh(outer: Resource, inner: Resource, env: Env, host: Host, manager: Manager, acts: seq<Action>,
                     c: Config<Local, Manager>)
    requires Missing(outer, inner, host) && !env.dryRun
    requires RunTo(SystemOf(Nested(outer, inner), BOTH, env), host, manager, acts) == Some(c) && c.level == 0
    requires c.states == [Running(Begin), Finished([Yes])] && c.records == [Record(host, {}, 0)]
    ensures DirOf(c.host, outer.path) == Some(FRESH_DIR)
  {
    hide JobOf, RunTo, SystemOf, Ancestors, DirLevel, AncestorIsFile, Managed, Bystander;
    var plan := Nested(outer, inner);
    OwnPathIsNoAncestor(inner.path);
    NestedJobs(outer, inner);
    NestedIsDirLevel(outer, inner, env);
    DirsAlways(plan, env, BOTH, host, manager, acts, c);
    var tasks := BOTH[0].tasks;
    assert IsDirTask(plan, tasks[0]) && IsDirTask(plan, tasks[1]);
    assert TaskDir(outer, c.states[0], host, c.host) && TaskDir(inner, c.states[1], host, c.host)
           && Grounded(inner, host, c.host);
  }

  /** The condition on the verdict is needed: if the outer directory wants nothing but what mkdir
      gives, one completed run reports it Yes and another, from the same host, No. */
  lemma VerdictRaces(outer: Resource, inner: Resource, env: Env, host: Host, manager: Manager)
    returns (acts1: seq<Action>, acts2: seq<Action>, c1: Config<Local, Manager>, c2: Config<Local, Manager>)
    requires Missing(outer, inner, host) && !env.dryRun && !DiffersFromFresh(outer)
    ensures RunTo(SystemOf(Nested(outer, inner), BOTH, env), host, manager, acts1) == Some(c1) && c1.phase == Completed
    ensures RunTo(SystemOf(Nested(outer, inner), BOTH, env), host, manager, acts2) == Some(c2) && c2.phase == Completed
    ensures c1.report == [Outcome(0, "outer", Yes), Outcome(1, "inner", Yes)]
    ensures c2.report == [Outcome(0, "outer", No), Outcome(1, "inner", Yes)]
  {
    acts1, c1 := OuterFirst(outer, inner, env, host, manager);
    acts2, c2 := InnerFirst(outer, inner, env, host, manager);
  }

  /** What making one of the two leaves as it was. */
  ghost predicate AllElseStays(path: string, h0: Host, h: Host) {
    forall x :: x != DirAt(path) && x !in AncestorDirs(path) ==> Same(h0, h, x)
  }

  lemma NothingInTheWay(outer: Resource, inner: Resource, path: string, h0: Host, h: Host)
    requires Missing(outer, inner, h0) && AllElseStays(path, h0, h)
    ensures FileAt(outer.path) !in h && !AncestorIsFile(h, outer.path) && FileAt(inner.path) !in h
    ensures !AncestorIsFile(h, inner.path)
    ensures path == outer.path ==> DirAt(inner.path) !in h
  {
    AncestorsNest(outer.path, inner.path);
    assert |outer.path| < |inner.path|;
    assert DirAt(inner.path) !in AncestorDirs(outer.path);
    forall x ensures FileAt(x) in h <==> FileAt(x) in h0 { assert Same(h0, h, FileAt(x)); }
    assert Same(h0, h, DirAt(inner.path)) || path != outer.path;
  }

  lemma InnerFirst(outer: Resource, inner: Resource, env: Env, host: Host, manager: Manager)
    returns (acts: seq<Action>, c: Config<Local, Manager>)
    requires Missing(outer, inner, host) && !env.dryRun && !DiffersFromFresh(outer)
    ensures RunTo(SystemOf(Nested(outer, inner), BOTH, env), host, manager, acts) == Some(c) && c.phase == Completed
    ensures c.report == [Outcome(0, "outer", No), Outcome(1, "inner", Yes)]
  {
    hide RunTo, SystemOf, JobOf, Ancestors, AncestorIsFile, DirLevel;
    var plan := Nested(outer, inner);
    NestedJobs(outer, inner);
    var start, c0 := BothStart(outer, inner, env, host, manager);
    NothingInTheWay(outer, inner, inner.path, host, c0.host);
    var one, c1 := DirTaskRuns(plan, env, BOTH, host, manager, start, c0, 1);
    OuterIsFresh(outer, inner, env, host, manager, start + one, c1);
    NothingInTheWay(outer, inner, inner.path, host, c1.host);
    var two, c2 := DirTaskRuns(plan, env, BOTH, host, manager, start + one, c1, 0);
    var three, c3 := BothJoin(outer, inner, env, host, manager, start + one + two, c2, No, Yes);
    acts, c := start + one + two + three, c3;
  }

  lemma OuterFirst(outer: Resource, inner: Resource, env: Env, host: Host, manager: Manager)
    returns (acts: seq<Action>, c: Config<Local, Manager>)
    requires Missing(outer, inner, host) && !env.dryRun
    ensures RunTo(SystemOf(Nested(outer, inner), BOTH, env), host, manager, acts) == Some(c) && c.phase == Completed
    ensures c.report == [Outcome(0, "outer", Yes), Outcome(1, "inner", Yes)]
  {
    hide RunTo, SystemOf, JobOf, Ancestors, AncestorIsFile, DirLevel;
    var plan := Nested(outer, inner);
    NestedJobs(outer, inner);
    var start, c0 := BothStart(outer, inner, env, host, manager);
    NothingInTheWay(outer, inner, inner.path, host, c0.host);
    var one, c1 := DirTaskRuns(plan, env, BOTH, host, manager, start, c0, 0);
    NothingInTheWay(outer, inner, outer.path, host, c1.host);
    var two, c2 := DirTaskRuns(plan, env, BOTH, host, manager, start + one, c1, 1);
    var three, c3 := BothJoin(outer, inner, env, host, manager, start + one + two, c2, Yes, Yes);
    acts, c := start + one + two + three, c3;
  }

  // ---------- the plan of all users ----------

  /** One entry of the configuration. The account itself is converged by programs. */
  datatype User = User(name: string, account: Resource, home: Option<string>, uid: nat, mount: string)

  const PRIVATE_MODE: nat := 0x1c0

  function MountUnit(name: string): string { "home-" + name + "-.cache.mount" }

  function LocalDir(home: string, uid: nat): Resource { Directory(home + "/.local", None, Some(uid), None) }

  function ConfigDir(home: string, uid: nat): Resource { Directory(home + "/.config", None, Some(uid), None) }

  function PrivateDir(home: string, uid: nat): Resource {
    Directory(home + "/.local/private", Some(PRIVATE_MODE), Some(uid), None)
  }

  /** What the loop of the bundle adds for one user, the first node at index `at`. */
  function UserNodes(u: User, at: nat): Plan {
    [Node("", u.account, [], Never)]
    + match u.home
      case None => []
      case Some(home) =>
        [Node("", LocalDir(home, u.uid), [at], Never),
         Node("", ConfigDir(home, u.uid), [at], Never),
         Node("", PrivateDir(home, u.uid), [at], Never)]
        + if u.name == "root" then [] else
          [Node("", SystemdUnit(MountUnit(u.name), u.mount), [at], InContainer),
           Node("", Service(MountUnit(u.name), true, true, []), [at + 4], InContainer)]
  }

  function UsersPlan(users: seq<User>): Plan {
    if users == [] then [] else
      var before := UsersPlan(users[..|users| - 1]);
      before + UserNodes(users[|users| - 1], |before|)
  }

  /** With the marker at the end that depends on everything. */
  function BundlePlan(users: seq<User>): Plan {
    var nodes := UsersPlan(users);
    nodes + [Node("", Marker, seq(|nodes|, i => i), Never)]
  }

  /** The keys of a map, with homes that differ; a name is one word of a path. */
  ghost predicate ProperUsers(users: seq<User>) {
    && (forall u :: 0 <= u < |users| ==> users[u].account.Command? && '/' !in users[u].name)
    && (forall u, v :: 0 <= u < v < |users| ==> users[u].name != users[v].name)
    && (forall u, v :: 0 <= u < v < |users| && users[u].home.Some? ==> users[u].home != users[v].home)
  }

  /** The nodes of user `u` start at `at`, and node `i` is one of them. */
  ghost predicate OfUser(plan: Plan, users: seq<User>, i: nat, u: nat, at: nat) {
    && u < |users| && at == |UsersPlan(users[..u])|
    && var nodes := UserNodes(users[u], at);
       at <= i < at + |nodes| <= |plan| && forall x :: at <= x < at + |nodes| ==> plan[x] == nodes[x - at]
  }

  lemma {:induction false} Located(users: seq<User>, i: nat) returns (u: nat, at: nat)
    requires i < |UsersPlan(users)|
    ensures OfUser(UsersPlan(users), users, i, u, at)
    decreases |users|
  {
    hide UserNodes;
    var last := |users| - 1;
    var before := UsersPlan(users[..last]);
    if i < |before| {
      u, at := Located(users[..last], i);
      assert users[..last][..u] == users[..u];
    } else {
      u, at := last, |before|;
    }
  }

  /** Every node but the marker at the end is some user's. */
  lemma LocatedInBundle(users: seq<User>, i: nat) returns (u: nat, at: nat)
    requires i < |UsersPlan(users)|
    ensures OfUser(BundlePlan(users), users, i, u, at)
  {
    hide UserNodes;
    u, at := Located(users, i);
  }

  // ---------- the levels of that plan ----------

  lemma ChainStep(g: Graph, p: seq<nat>, k: nat)
    requires Chain(g, p) && k + 1 < |p|
    ensures p[k] < |g| && p[k + 1] in g[p[k]]
  {
  }

  /** A node without deps is in the first level, one whose deps have none in the second. */
  lemma ChainOfOne(g: Graph, i: nat, a: nat)
    requires i < |g| && a < |g| && g[i] == [a] && g[a] == []
    ensures LongestChain(g, i, 1)
  {
    assert ChainFrom(g, i, 1, [i, a]);
    forall p | Chain(g, p) && p[0] == i ensures |p| <= 2 {
      if |p| > 2 {
        ChainStep(g, p, 0);
        ChainStep(g, p, 1);
      }
    }
  }

  lemma NoChain(g: Graph, i: nat, k: nat)
    requires i < |g| && g[i] == [] && LongestChain(g, i, k)
    ensures k == 0
  {
    var p :| ChainFrom(g, i, k, p);
    if k > 0 { ChainStep(g, p, 0); }
  }

  lemma ChainOfTwo(g: Graph, i: nat, b: nat, a: nat, k: nat)
    requires i < |g| && b < |g| && a < |g| && g[i] == [b] && g[b] == [a] && LongestChain(g, i, k)
    ensures k >= 2
  {
    assert Chain(g, [i, b, a]);
  }

  function Suffix(d: int): string { if d == 1 then "/.local" else if d == 2 then "/.config" else "/.local/private" }

  ghost predicate IsHomeDir(u: User, r: Resource) {
    && u.home.Some?
    && (|| r == Directory(u.home.value + "/.local", None, Some(u.uid), None)
        || r == Directory(u.home.value + "/.config", None, Some(u.uid), None)
        || r == Directory(u.home.value + "/.local/private", Some(0x1c0), Some(u.uid), None))
  }

  ghost predicate IsUserUnit(u: User, r: Resource) {
    u.home.Some? && u.name != "root" && r == SystemdUnit("home-" + u.name + "-.cache.mount", u.mount)
  }

  lemma MountUnitOf(name: string)
    ensures MountUnit(name) == "home-" + name + "-.cache.mount"
  {
  }

  /** The nodes of a user by their place; those whose only dep is the account are directories and the unit. */
  lemma UserNodeKinds(plan: Plan, users: seq<User>, i: nat, u: nat, at: nat)
    requires OfUser(plan, users, i, u, at) && users[u].account.Command?
    ensures var r, g := plan[i].resource, DepsOf(plan);
            && g[at] == [] && (i == at ==> r.Command? && g[i] == [])
            && (at < i <= at + 3 ==> IsHomeDir(users[u], r) && g[i] == [at])
            && (at < i <= at + 3 ==> r.path == users[u].home.value + Suffix(i - at))
            && (i == at + 4 ==> IsUserUnit(users[u], r) && g[i] == [at])
            && (i > at + 4 ==> i == at + 5 && r.Service? && g[i] == [at + 4] && at + 4 < |g| && g[at + 4] == [at])
            && (i > at + 4 ==> r == Service("home-" + users[u].name + "-.cache.mount", true, true, []))
            && (plan[i].skip == InContainer <==> i >= at + 4)
  {
    hide UsersPlan;
    var nodes := UserNodes(users[u], at);
    assert plan[at] == nodes[0] && plan[i] == nodes[i - at];
    if i > at + 4 { assert plan[at + 4] == nodes[4]; }
  }

  /** Deps point backwards, so the plan is not rejected. */
  lemma BundleHasLevels(users: seq<User>)
    requires ProperUsers(users)
    ensures InRange(DepsOf(BundlePlan(users))) && Acyclic(DepsOf(BundlePlan(users)))
  {
    hide UsersPlan, UserNodes;
    var plan := BundlePlan(users);
    var g := DepsOf(plan);
    forall i: nat, d | i < |g| && d in g[i] ensures d < i {
      if i < |UsersPlan(users)| {
        var u, at := LocatedInBundle(users, i);
        UserNodeKinds(plan, users, i, u, at);
      }
    }
    forall p ensures !Cycle(g, p) {
      if Chain(g, p) { PlanBuilder.ChainFalls(g, p); }
    }
  }

  /** The second level of the bundle holds the directories and units of all users, and at most the
      marker besides. */
  lemma SecondLevelOf(users: seq<User>, topo: seq<seq<nat>>, i: nat)
    requires ProperUsers(users) && Leveled(BundlePlan(users), topo) && |topo| > 1 && i < |UsersPlan(users)|
    ensures i in topo[1] <==> exists u :: 0 <= u < |users| && (IsHomeDir(users[u], BundlePlan(users)[i].resource)
                                                              || IsUserUnit(users[u], BundlePlan(users)[i].resource))
  {
    hide UsersPlan, LongestChain, UserNodes;
    var plan := BundlePlan(users);
    var u, at := LocatedInBundle(users, i);
    UserNodeKinds(plan, users, i, u, at);
    assert InSomeLevel(topo, i);
    var x :| 0 <= x < |topo| && i in topo[x];
    var g := DepsOf(plan);
    if at < i <= at + 4 {
      ChainOfOne(g, i, at);
      OneLongest(g, i, 1, x);
    } else if i == at {
      NoChain(g, i, x);
    } else {
      ChainOfTwo(g, i, at + 4, at, x);
    }
  }

  /** The marker at the end stands for the whole bundle: its level comes after all the others. */
  lemma ReadyIsLast(users: seq<User>, env: Env, topo: seq<seq<nat>>, levels: seq<Level>, a: nat, b: nat, i: nat)
    requires Prepared(BundlePlan(users), env, topo, levels) && i < |UsersPlan(users)|
    requires a < |topo| && b < |topo| && i in topo[a] && |BundlePlan(users)| - 1 in topo[b]
    ensures a < b && BundlePlan(users)[|BundlePlan(users)| - 1].resource == Marker
  {
    hide UsersPlan, UserNodes, Grouping;
    var plan := BundlePlan(users);
    var g := DepsOf(plan);
    assert i in g[|plan| - 1] by { assert plan[|plan| - 1].deps[i] == i; }
    assert InSomeLevel(topo[..b], i);
    var j :| 0 <= j < b && i in topo[..b][j];
    assert i in topo[j];
  }

  /** In a container a run skips the units and the services of the bundle, and nothing else;
      elsewhere it skips nothing. */
  lemma UnitsAreSkippedInContainers(users: seq<User>, env: Env, topo: seq<seq<nat>>, levels: seq<Level>, host: Host,
                                    manager: Manager, acts: seq<Action>, c: Config<Local, Manager>, o: Outcome)
    requires ProperUsers(users) && Prepared(BundlePlan(users), env, topo, levels)
    requires RunTo(SystemOf(BundlePlan(users), levels, env), host, manager, acts) == Some(c) && o in c.report
    ensures o.id < |BundlePlan(users)|
    ensures var r := BundlePlan(users)[o.id].resource;
            o.changed == Skipped <==> env.container && (r.SystemdUnit? || r.Service?)
  {
    hide UsersPlan, UserNodes, Prepared, RunTo, SystemOf;
    SkippedIffInContainer(BundlePlan(users), env, topo, levels, host, manager, acts, c, o);
    if o.id < |UsersPlan(users)| {
      var u, at := LocatedInBundle(users, o.id);
      UserNodeKinds(BundlePlan(users), users, o.id, u, at);
    }
  }

  /** The three paths of a home differ, and those of different homes do too. */
  lemma HomePathsDiffer(a: string, b: string, d: int, e: int)
    requires 1 <= d <= 3 && 1 <= e <= 3 && a + Suffix(d) == b + Suffix(e)
    ensures a == b && d == e
  {
    var p, q := a + Suffix(d), b + Suffix(e);
    assert p[|p| - 1] == Suffix(d)[|Suffix(d)| - 1] && q[|q| - 1] == Suffix(e)[|Suffix(e)| - 1];
    assert d == e;
    assert a == p[..|a|] && b == q[..|b|];
  }

  lemma MountUnitsDiffer(a: string, b: string)
    requires MountUnit(a) == MountUnit(b)
    ensures a == b
  {
    assert |a| == |b| && a == MountUnit(a)[5..5 + |a|] && b == MountUnit(b)[5..5 + |b|];
  }

  /** No two nodes are directories with the same path, or units with the same name. */
  lemma NodesDiffer(users: seq<User>, i: nat, j: nat)
    requires ProperUsers(users) && i < |UsersPlan(users)| && j < |UsersPlan(users)| && i != j
    ensures var (r, s) := (BundlePlan(users)[i].resource, BundlePlan(users)[j].resource);
            && (r.Directory? && s.Directory? ==> r.path != s.path)
            && (r.SystemdUnit? && s.SystemdUnit? ==> r.name != s.name)
  {
    hide UsersPlan, UserNodes, MountUnit, Suffix;
    var plan := BundlePlan(users);
    var u, at := LocatedInBundle(users, i);
    var v, bt := LocatedInBundle(users, j);
    UserNodeKinds(plan, users, i, u, at);
    UserNodeKinds(plan, users, j, v, bt);
    var r, s := plan[i].resource, plan[j].resource;
    if r.Directory? && s.Directory? && r.path == s.path {
      HomePathsDiffer(users[u].home.value, users[v].home.value, i - at, j - bt);
    }
    if r.SystemdUnit? && s.SystemdUnit? && r.name == s.name {
      MountUnitOf(users[u].name);
      MountUnitOf(users[v].name);
      MountUnitsDiffer(users[u].name, users[v].name);
    }
  }

  /** A task of the second level converges a home directory, a unit, or the marker. */
  lemma SecondLevelTask(users: seq<User>, env: Env, topo: seq<seq<nat>>, levels: seq<Level>, k: nat)
    requires ProperUsers(users) && Leveled(BundlePlan(users), topo) && Prepared(BundlePlan(users), env, topo, levels)
    requires |topo| > 1 && k < |levels[1].tasks|
    ensures var (plan, ids) := (BundlePlan(users), levels[1].tasks[k].ids);
            && |ids| == 1 && ids[0] < |plan| && ids[0] in topo[1]
               && JobOf(plan, levels[1].tasks[k]) == Single(plan[ids[0]].resource)
            && (ids[0] == |UsersPlan(users)| ==> plan[ids[0]].resource.Marker?)
            && (ids[0] < |UsersPlan(users)| ==>
                  exists u :: 0 <= u < |users| && (IsHomeDir(users[u], plan[ids[0]].resource)
                                                   || IsUserUnit(users[u], plan[ids[0]].resource)))
  {
    hide UsersPlan, Leveled, Partition, Layered, JobOf, Members, IsHomeDir, IsUserUnit;
    var plan, t := BundlePlan(users), levels[1].tasks[k];
    assert Grouping(plan, env, topo[1], levels[1]) && ProperTask(plan, env, topo[1], t);
    var i := t.ids[0];
    assert i in t.ids;
    if i < |UsersPlan(users)| { SecondLevelOf(users, topo, i); }
    ResourceOfSecond(users, i);
    ProperTaskFits(plan, env, topo[1], t);
  }

  lemma ResourceOfSecond(users: seq<User>, i: nat)
    requires i < |BundlePlan(users)|
    requires i < |UsersPlan(users)| ==>
               exists u :: 0 <= u < |users| && (IsHomeDir(users[u], BundlePlan(users)[i].resource)
                                                || IsUserUnit(users[u], BundlePlan(users)[i].resource))
    ensures FamilyOf(BundlePlan(users)[i].resource).None?
    ensures i == |UsersPlan(users)| ==> BundlePlan(users)[i].resource.Marker?
  {
    hide UsersPlan;
  }

  /** The directories of all users are one level of directories with distinct paths, next to unit
      files and perhaps a marker. */
  lemma UsersLevelIsDirLevel(users: seq<User>, env: Env, topo: seq<seq<nat>>, levels: seq<Level>)
    requires ProperUsers(users) && Leveled(BundlePlan(users), topo) && Prepared(BundlePlan(users), env, topo, levels)
    requires |topo| > 1
    ensures DirLevel(BundlePlan(users), env, levels[1].tasks)
  {
    hide UsersPlan, Leveled, Prepared, JobOf, BundlePlan, Suffix, MountUnit;
    var plan := BundlePlan(users);
    PreparedIsGrouped(plan, env, topo, levels);
    BundleHasOneMore(users);
    var tasks := levels[1].tasks;
    forall k: nat | k < |tasks| ensures IsDirTask(plan, tasks[k]) || WritesNoDirs(plan, env, tasks[k]) {
      SecondLevelTask(users, env, topo, levels, k);
      UnitsWriteNoDirs(plan, env, tasks[k]);
    }
    forall k: nat, m: nat | k < |tasks| && m < |tasks| && k != m && IsDirTask(plan, tasks[k])
      && IsDirTask(plan, tasks[m])
      ensures DirResource(plan, tasks[k]).path != DirResource(plan, tasks[m]).path
    {
      SecondLevelTask(users, env, topo, levels, k);
      SecondLevelTask(users, env, topo, levels, m);
      var i, j := tasks[k].ids[0], tasks[m].ids[0];
      if i == j { TasksHaveTheirIds(plan, env, topo, levels, 1, k, m, i); }
      NodesDiffer(users, i, j);
    }
  }

  lemma UnitsWriteNoDirs(plan: Plan, env: Env, t: Task)
    requires JobOf(plan, t).Single?
    requires var r := JobOf(plan, t).resource; r.SystemdUnit? || r.Marker? || r.Directory?
    ensures !JobOf(plan, t).resource.Directory? ==> WritesNoDirs(plan, env, t)
  {
    hide JobOf;
  }

  lemma BundleHasOneMore(users: seq<User>)
    ensures |BundlePlan(users)| == |UsersPlan(users)| + 1
  {
  }

  // ---------- nobody disturbs the units ----------

  /** Above a unit file there are only the directories of systemd. */
  lemma AboveUnits(name: string, a: string)
    requires '/' !in name && a in Ancestors(UnitPath(MountUnit(name)))
    ensures |a| < |UNIT_DIR|
  {
    var p := UnitPath(MountUnit(name));
    var i :| 0 < i < |p| && p[i] == '/' && a == p[..i];
    if i >= |UNIT_DIR| {
      assert p[i] == MountUnit(name)[i - |UNIT_DIR|];
      NoSlash(name);
    }
  }

  lemma NoSlash(name: string)
    requires '/' !in name
    ensures '/' !in MountUnit(name)
  {
    assert '/' !in "home-" && '/' !in "-.cache.mount";
  }

  /** No path at or above one below a home is a unit file or its temp file, unless the home itself
      lies in the directory of unit files. */
  lemma HomeHoldsNoUnit(home: string, d: int, name: string)
    requires !(UNIT_DIR <= home) && 1 <= d <= 3
    ensures var (unit, path) := (UnitPath(MountUnit(name)), home + Suffix(d));
            && unit !in Ancestors(path) + {path} && TmpPath(unit) !in Ancestors(path) + {path}
  {
    var unit := UnitPath(MountUnit(name));
    NoPrefixBelowHome(home, d, unit);
    NoPrefixBelowHome(home, d, TmpPath(unit));
  }

  lemma NoPrefixBelowHome(home: string, d: int, unit: string)
    requires !(UNIT_DIR <= home) && 1 <= d <= 3 && UNIT_DIR + "h" <= unit
    ensures unit !in Ancestors(home + Suffix(d)) + {home + Suffix(d)}
  {
    if unit <= home + Suffix(d) { HomeBelowUnits(home, d, unit); }
  }

  lemma HomeBelowUnits(home: string, d: int, unit: string)
    requires 1 <= d <= 3 && UNIT_DIR + "h" <= unit && unit <= home + Suffix(d)
    ensures UNIT_DIR <= home
  {
    var path := home + Suffix(d);
    NoDotInUnitDir();
    assert unit[..|UNIT_DIR|] == UNIT_DIR && unit[|UNIT_DIR|] == 'h';
    assert Suffix(d)[1] == '.' && path[|home| + 1] == '.';
    forall x | 0 <= x <= |UNIT_DIR| ensures unit[x] != '.' { assert x < |UNIT_DIR| ==> unit[x] == UNIT_DIR[x]; }
    assert |home| >= |UNIT_DIR| ==> home[..|UNIT_DIR|] == path[..|UNIT_DIR|];
  }

  lemma NoDotInUnitDir()
    ensures forall k :: 0 <= k < |UNIT_DIR| ==> UNIT_DIR[k] != '.'
  {
  }

  lemma TmpPathsDiffer(p: string, q: string)
    requires TmpPath(p) == TmpPath(q)
    ensures p == q
  {
    assert |p| == |q| && p == TmpPath(p)[..|p|] && q == TmpPath(q)[..|q|];
  }

  /** Two units keep off each other's files. */
  lemma UnitsApart(a: string, b: string)
    requires a != b && '/' !in a && '/' !in b
    ensures var (p, q) := (UnitPath(MountUnit(a)), UnitPath(MountUnit(b)));
            && p != q && TmpPath(p) != q && p != TmpPath(q) && TmpPath(p) != TmpPath(q)
            && p !in Ancestors(q) && TmpPath(p) !in Ancestors(q)
  {
    var p, q := UnitPath(MountUnit(a)), UnitPath(MountUnit(b));
    if p == q { assert MountUnit(a) == p[|UNIT_DIR|..] == MountUnit(b); }
    if MountUnit(a) == MountUnit(b) { MountUnitsDiffer(a, b); }
    if TmpPath(p) == TmpPath(q) { TmpPathsDiffer(p, q); }
    assert p[|p| - 1] == q[|q| - 1] == 't' && TmpPath(p)[|TmpPath(p)| - 1] == TmpPath(q)[|TmpPath(q)| - 1] == 'p';
    if p in Ancestors(q) { AboveUnits(b, p); }
    if TmpPath(p) in Ancestors(q) { AboveUnits(b, TmpPath(p)); }
  }

  /** A home directory touches nothing a unit senses. */
  lemma DirSparesUnit(home: string, d: int, r: Resource, name: string, mount: string, apt: Apt)
    requires !(UNIT_DIR <= home) && 1 <= d <= 3 && r.Directory? && r.path == home + Suffix(d)
    ensures forall c :: c in JobSenses(Single(SystemdUnit(MountUnit(name), mount))) ==>
              c !in JobWrites(Single(r), apt) && c !in JobMakes(Single(r))
  {
    hide Ancestors, TmpPath, MountUnit, Suffix;
    HomeHoldsNoUnit(home, d, name);
  }

  /** Nor does another unit. */
  lemma UnitSparesUnit(a: string, b: string, mountA: string, mountB: string, apt: Apt)
    requires a != b && '/' !in a && '/' !in b
    ensures forall c :: c in JobSenses(Single(SystemdUnit(MountUnit(b), mountB))) ==>
              c !in JobWrites(Single(SystemdUnit(MountUnit(a), mountA)), apt)
              && c !in JobMakes(Single(SystemdUnit(MountUnit(a), mountA)))
  {
    hide Ancestors, TmpPath, MountUnit;
    UnitsApart(a, b);
    UnitsApart(b, a);
  }

  /** What one resource touches and a unit senses. */
  lemma UnitUndisturbed(users: seq<User>, apt: Apt, u: nat, r: Resource)
    requires ProperUsers(users) && u < |users| && (forall v :: 0 <= v < |users| ==> HomeOutside(users[v]))
    requires r.Marker? || exists v :: 0 <= v < |users|
                                      && (IsHomeDir(users[v], r) || (v != u && IsUserUnit(users[v], r)))
    ensures forall c :: c in JobSenses(Single(SystemdUnit(MountUnit(users[u].name), users[u].mount))) ==>
              c !in JobWrites(Single(r), apt) && c !in JobMakes(Single(r))
  {
    hide JobSenses, MountUnit, Suffix, AncestorDirs;
    if !r.Marker? {
      var v :| 0 <= v < |users| && (IsHomeDir(users[v], r) || (v != u && IsUserUnit(users[v], r)));
      if r.Directory? {
        HomeDirPath(users[v], r);
        var d :| 1 <= d <= 3 && r.path == users[v].home.value + Suffix(d);
        DirSparesUnit(users[v].home.value, d, r, users[u].name, users[u].mount, apt);
      } else {
        MountUnitOf(users[v].name);
        UnitSparesUnit(users[v].name, users[u].name, users[v].mount, users[u].mount, apt);
      }
    }
  }

  ghost predicate HomeOutside(u: User) { u.home.Some? ==> !(UNIT_DIR <= u.home.value) }

  lemma HomeDirPath(u: User, r: Resource)
    requires IsHomeDir(u, r)
    ensures r.Directory? && exists d: int :: 1 <= d <= 3 && r.path == u.home.value + Suffix(d)
  {
    assert "/.local" == Suffix(1) && "/.config" == Suffix(2) && "/.local/private" == Suffix(3);
  }

  /** A task of the second level that converges a unit, and whose it is. */
  lemma UnitsArePrivate(users: seq<User>, env: Env, topo: seq<seq<nat>>, levels: seq<Level>, k: nat)
    requires ProperUsers(users) && Leveled(BundlePlan(users), topo) && Prepared(BundlePlan(users), env, topo, levels)
    requires |levels| > 1 && k < |levels[1].tasks| && IsFileTask(BundlePlan(users), levels[1].tasks[k])
    requires forall v :: 0 <= v < |users| ==> HomeOutside(users[v])
    ensures Private(SystemOf(BundlePlan(users), levels, env), levels[1].tasks, k)
  {
    hide UsersPlan, Leveled, Prepared, JobOf, BundlePlan, MountUnit, JobStep, JobShadow, JobSenses, JobWrites, JobMakes,
         Hints, HomeOutside, ProperUsers;
    var plan, tasks, sys := BundlePlan(users), levels[1].tasks, SystemOf(BundlePlan(users), levels, env);
    PreparedIsGrouped(plan, env, topo, levels);
    BundleHasOneMore(users);
    SecondLevelTask(users, env, topo, levels, k);
    var i := tasks[k].ids[0];
    var u :| 0 <= u < |users| && IsUserUnit(users[u], plan[i].resource);
    MountUnitOf(users[u].name);
    forall m: nat | m < |tasks| && m != k ensures Undisturbed(sys, tasks[m], sys.senses(tasks[k])) {
      SecondLevelTask(users, env, topo, levels, m);
      var j := tasks[m].ids[0];
      if i == j { TasksHaveTheirIds(plan, env, topo, levels, 1, k, m, i); }
      if j < |UsersPlan(users)| { AnotherResource(users, i, j, u); }
      UnitUndisturbed(users, env.apt, u, plan[j].resource);
    }
  }

  /** Another node of the level is a home directory or another user's unit. */
  lemma AnotherResource(users: seq<User>, i: nat, j: nat, u: nat)
    requires ProperUsers(users) && i < |UsersPlan(users)| && j < |UsersPlan(users)| && i != j && u < |users|
    requires IsUserUnit(users[u], BundlePlan(users)[i].resource)
    requires exists v :: 0 <= v < |users| && (IsHomeDir(users[v], BundlePlan(users)[j].resource)
                                              || IsUserUnit(users[v], BundlePlan(users)[j].resource))
    ensures exists v :: 0 <= v < |users| && (IsHomeDir(users[v], BundlePlan(users)[j].resource)
                                             || (v != u && IsUserUnit(users[v], BundlePlan(users)[j].resource)))
  {
    hide UsersPlan, BundlePlan, MountUnit, IsHomeDir;
    NodesDiffer(users, i, j);
  }

  // ---------- all users' directories ----------

  /** An attribute is wanted that mkdir does not give: for the three directories of a user other
      than root, and for the private one of root. */
  lemma HomeDirsDiffer(u: User, r: Resource)
    requires IsHomeDir(u, r)
    ensures DiffersFromFresh(r) <==> u.uid != 0 || r == PrivateDir(u.home.value, u.uid)
  {
  }

  ghost predicate LevelOver(levels: seq<Level>, c: Config<Local, Manager>) {
    && c.level == 1 && |levels| > 1 && |c.records| == 2 && |c.states| == |levels[1].tasks|
    && forall k :: 0 <= k < |c.states| ==> Over(c.states[k])
  }

  /** Any two runs that enter the second level of the bundle alike and have got through it leave the
      same directories, for all users at once; each directory of a user other than root, the
      private one of root, and each unit is reported the same. */
  lemma UserDirectoriesConfluent(users: seq<User>, env: Env, topo: seq<seq<nat>>, levels: seq<Level>,
                                 host1: Host, host2: Host, manager1: Manager, manager2: Manager,
                                 acts1: seq<Action>, acts2: seq<Action>, c1: Config<Local, Manager>,
                                 c2: Config<Local, Manager>)
    requires !env.dryRun && ProperUsers(users) && forall v :: 0 <= v < |users| ==> HomeOutside(users[v])
    requires Leveled(BundlePlan(users), topo) && Prepared(BundlePlan(users), env, topo, levels)
    requires RunTo(SystemOf(BundlePlan(users), levels, env), host1, manager1, acts1) == Some(c1)
    requires LevelOver(levels, c1)
    requires RunTo(SystemOf(BundlePlan(users), levels, env), host2, manager2, acts2) == Some(c2)
    requires LevelOver(levels, c2)
    requires c1.records[1].host == c2.records[1].host && c1.records[1].changed == c2.records[1].changed
    requires TypedDirs(c1.records[1].host)
    ensures forall x :: Same(c1.host, c2.host, DirAt(x))
    ensures forall k, u :: 0 <= k < |levels[1].tasks| && 0 <= u < |users|
                           && SettledVerdict(users[u], JobOf(BundlePlan(users), levels[1].tasks[k])) ==>
              c1.states[k].verdicts == c2.states[k].verdicts
  {
    hide UsersPlan, Leveled, Prepared, JobOf, BundlePlan, RunTo, SystemOf, DirLevel, DirsDone, TypedDirs, Private,
         Rooted, HomeOutside, ProperUsers, DiffersFromFresh, IsHomeDir, IsUserUnit;
    var plan, tasks := BundlePlan(users), levels[1].tasks;
    PreparedIsGrouped(plan, env, topo, levels);
    UsersLevelIsDirLevel(users, env, topo, levels);
    AllOverIsDone(plan, tasks, c1.states);
    AllOverIsDone(plan, tasks, c2.states);
    NestedDirectoriesConfluent(plan, env, levels, host1, host2, manager1, manager2, acts1, acts2, c1, c2);
    forall k: nat | k < |tasks| && IsFileTask(plan, tasks[k])
      ensures Private(SystemOf(plan, levels, env), tasks, k) && c1.states[k].verdicts == c2.states[k].verdicts
    {
      UnitsArePrivate(users, env, topo, levels, k);
      PrivateTasksAgree(plan, env, levels, host1, host2, manager1, manager2, acts1, acts2, c1, c2, k);
    }
    forall x ensures FilesPrivate(plan, env, levels, 1, x) {}
    forall k: nat, u: nat | k < |tasks| && u < |users| && SettledVerdict(users[u], JobOf(plan, tasks[k]))
      ensures c1.states[k].verdicts == c2.states[k].verdicts
    {
      SecondLevelTask(users, env, topo, levels, k);
      SettledKinds(users[u], plan, tasks[k]);
    }
  }

  lemma AllOverIsDone(plan: Plan, tasks: seq<Task>, states: seq<TaskState<Local>>)
    requires |states| == |tasks| && forall k :: 0 <= k < |states| ==> Over(states[k])
    ensures DirsDone(plan, tasks, states)
  {
    hide JobOf;
  }

  /** A directory of user `u` that wants what mkdir does not give, or the user's unit. */
  ghost predicate SettledVerdict(u: User, job: Job) {
    && job.Single?
    && (IsUserUnit(u, job.resource)
        || (IsHomeDir(u, job.resource) && (u.uid != 0 || job.resource == PrivateDir(u.home.value, u.uid))))
  }

  lemma SettledKinds(u: User, plan: Plan, t: Task)
    requires SettledVerdict(u, JobOf(plan, t)) && |t.ids| == 1
    ensures IsFileTask(plan, t) || (IsDirTask(plan, t) && DiffersFromFresh(DirResource(plan, t)))
  {
    hide JobOf, DiffersFromFresh;
    if IsHomeDir(u, JobOf(plan, t).resource) { HomeDirsDiffer(u, JobOf(plan, t).resource); }
  }

  /** For root the outer directory is a race: missing at the start, `.local` is reported Yes in
      one completed run of it next to `.local/private` and No in another. */
  lemma RootVerdictRaces(home: string, env: Env, host: Host, manager: Manager)
    returns (acts1: seq<Action>, acts2: seq<Action>, c1: Config<Local, Manager>, c2: Config<Local, Manager>)
    requires !env.dryRun && Missing(LocalDir(home, 0), PrivateDir(home, 0), host)
    ensures var sys := SystemOf(Nested(LocalDir(home, 0), PrivateDir(home, 0)), BOTH, env);
            && RunTo(sys, host, manager, acts1) == Some(c1) && c1.phase == Completed
            && RunTo(sys, host, manager, acts2) == Some(c2) && c2.phase == Completed
    ensures Outcome(0, "outer", Yes) in c1.report && Outcome(0, "outer", No) in c2.report
  {
    hide RunTo, SystemOf;
    assert !DiffersFromFresh(LocalDir(home, 0));
    acts1, acts2, c1, c2 := VerdictRaces(LocalDir(home, 0), PrivateDir(home, 0), env, host, manager);
    assert c1.report[0] == Outcome(0, "outer", Yes) && c2.report[0] == Outcome(0, "outer", No);
  }
}
