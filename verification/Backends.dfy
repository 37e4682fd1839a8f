/** The built-in resources as step machines over the host: `converge_one` of each
    backend in src/backends/, and the two apt batchers. A step is what happens
    between two await points, or less. Names are resolved beforehand: uid and gid
    stand for the looked-up owner and group. */
module Backends {
  import opened HostModel
  import opened Run
  import opened RunReport

  datatype Skip = Never | InContainer

  /** An external program: it sees `inputs`, may change `outputs`, and may exit non-zero. */
  datatype Program = Program(inputs: set<Cell>, outputs: set<Cell>, act: Host -> Option<Patch>)

  datatype Resource =
    | File(path: string, content: string, mode: Option<nat>, uid: Option<nat>, gid: Option<nat>)
    | Directory(path: string, mode: Option<nat>, uid: Option<nat>, gid: Option<nat>)
    | SystemdUnit(name: string, content: string)
    | Service(name: string, enabled: bool, started: bool, restartOn: seq<nat>)
    | Command(argv: seq<string>, triggerOn: Option<seq<nat>>, program: Program)
    | AptPackage(name: string)
    | AbsentAptPackage(name: string)
    | Marker

  datatype Node = Node(hint: string, resource: Resource, deps: seq<nat>, skip: Skip)

  type Plan = seq<Node>

  /** What apt does beyond the package named: what it pulls in, what it takes along. */
  datatype Apt = Apt(installs: string -> set<string>, removes: string -> set<string>)

  datatype Env = Env(container: bool, dryRun: bool, apt: Apt)

  /** The programs a run calls to change something, with the arguments that matter. */
  datatype Call =
    | EnableUnit(unit: string) | StartUnit(unit: string) | RestartUnit(unit: string) | DaemonReload
    | RunCommand(argv: seq<string>)
    | AptGetUpdate | AptGetInstall(names: seq<string>) | AptGetRemove(names: seq<string>)

  /** What no step looks at: the unit definitions the service manager has loaded, the definition
      each active unit runs with, and the calls made so far. */
  datatype Manager = Manager(loaded: map<string, string>, running: map<string, Option<string>>, calls: seq<Call>)

  datatype Local =
    | Begin
    | FileSensed(current: Option<string>)
    | FileParent(inPlace: bool, depth: nat)
    | InPlaceMode | InPlaceOwner
    | TmpCreate | TmpFill(written: nat) | TmpMode | TmpOwner | TmpRename
    | Reload
    | DirMake(depth: nat) | DirMode | DirOwner
    | EnabledSensed(isEnabled: bool)
    | ServiceEnable(enable: bool, restart: bool, start: bool)
    | ServiceStart(restart: bool, start: bool)
    | CommandRun
    | AptUpdate(todo: seq<string>, verdicts: seq<Changed>)
    | AptInstall(todo: seq<string>, verdicts: seq<Changed>)
    | AptRemove(todo: seq<string>, verdicts: seq<Changed>)

  const TMP_SUFFIX := ".tmp.host-setup"
  const UNIT_DIR := "/etc/systemd/system/"
  const UNIT_MODE: nat := 0x1a4

  function TmpPath(path: string): string { path + TMP_SUFFIX }

  lemma TmpDiffers(path: string)
    ensures TmpPath(path) != path
  {
    assert |TmpPath(path)| > |path|;
  }

  function UnitPath(name: string): string { UNIT_DIR + name }

  /** The directories above `path`, the root excepted. */
  function Ancestors(path: string): set<string> {
    set i | 0 < i < |path| && path[i] == '/' :: path[..i]
  }

  function AncestorDirs(path: string): set<Cell> {
    set a | a in Ancestors(path) :: DirAt(a)
  }

  /** What `create_dir_all` makes next: the directory whose path ends at this separator. */
  function ParentAt(path: string, depth: nat): (made: set<Cell>)
    ensures made <= AncestorDirs(path)
  {
    if 0 < depth < |path| && path[depth] == '/' then {DirAt(path[..depth])} else {}
  }

  predicate AncestorIsFile(h: Host, path: string) {
    exists a :: a in Ancestors(path) && FileAt(a) in h
  }

  function FileOf(h: Host, path: string): Option<Val> {
    if FileAt(path) in h && h[FileAt(path)].FileVal? then Some(h[FileAt(path)]) else None
  }

  function DirOf(h: Host, path: string): Option<Val> {
    if DirAt(path) in h && h[DirAt(path)].DirVal? then Some(h[DirAt(path)]) else None
  }

  function Put(c: Cell, v: Val): Patch { Patch(map[c := v], {}, {}) }

  predicate Wants(want: Option<nat>, have: nat) { want.None? || want.value == have }

  function Or(want: Option<nat>, have: nat): nat { if want.Some? then want.value else have }

  // ---------- File and SystemdUnit ----------

  datatype FileSpec = FileSpec(path: string, content: string, mode: Option<nat>, uid: Option<nat>, gid: Option<nat>,
                               unit: bool)

  predicate IsFileLike(r: Resource) { r.File? || r.SystemdUnit? }

  function Spec(r: Resource): FileSpec
    requires IsFileLike(r)
  {
    if r.File? then FileSpec(r.path, r.content, r.mode, r.uid, r.gid, false)
    else FileSpec(UnitPath(r.name), r.content, Some(UNIT_MODE), None, None, true)
  }

  predicate AttributesMatch(f: FileSpec, v: Val)
    requires v.FileVal?
  {
    Wants(f.mode, v.mode) && Wants(f.uid, v.uid) && Wants(f.gid, v.gid)
  }

  const SETUID: nat := 0x800
  const SETGID: nat := 0x400
  const GROUP_EXEC: nat := 0x8

  predicate HasBit(mode: nat, bit: nat)
    requires bit > 0
  {
    mode / bit % 2 == 1
  }

  /** What chown leaves of the mode of a regular file: never setuid, and setgid only where
      the group may not execute. */
  function ChownedMode(mode: nat): nat {
    var m := if HasBit(mode, SETUID) then mode - SETUID else mode;
    if HasBit(mode, SETGID) && HasBit(mode, GROUP_EXEC) then m - SETGID else m
  }

  predicate HasOwner(f: FileSpec) { f.uid.Some? || f.gid.Some? }

  /** The chown of a file, which is not called at all where neither owner nor group is given. */
  function Chowned(f: FileSpec, v: Val): Val
    requires v.FileVal?
  {
    if HasOwner(f) then v.(mode := ChownedMode(v.mode), uid := Or(f.uid, v.uid), gid := Or(f.gid, v.gid)) else v
  }

  /** The write is done; a unit file still needs `systemctl daemon-reload`. */
  function FileWritten(f: FileSpec, p: Patch): Move<Local> {
    if f.unit then Next(Reload, p) else Finish([Yes], p)
  }

  function FileStep(f: FileSpec, dryRun: bool, local: Local, h: Host): Move<Local> {
    var tmp := TmpPath(f.path);
    match local
    case Begin =>
      if DirAt(f.path) in h || AncestorIsFile(h, f.path) then Fail
      else Next(FileSensed(if FileOf(h, f.path).Some? then Some(FileOf(h, f.path).value.content) else None), NOTHING)
    case FileSensed(current) =>
      var contentMatches := current == Some(f.content);
      var meta := FileOf(h, f.path);
      var attributesMatch :=
        if meta.Some? then AttributesMatch(f, meta.value) else f.mode.None? && f.uid.None? && f.gid.None?;
      if contentMatches && attributesMatch then Finish([No], NOTHING)
      else if dryRun then Finish([Yes], NOTHING)
      else Next(FileParent(contentMatches, 0), NOTHING)
    case FileParent(inPlace, depth) =>
      if AncestorIsFile(h, f.path) then Fail
      else if depth < |f.path| then Next(FileParent(inPlace, depth + 1), Patch(map[], {}, ParentAt(f.path, depth)))
      else Next(if inPlace then InPlaceMode else TmpCreate, NOTHING)
    case InPlaceMode =>
      var v := FileOf(h, f.path);
      if v.None? then (if f.mode.Some? then Fail else Next(InPlaceOwner, NOTHING))
      else Next(InPlaceOwner, Put(FileAt(f.path), v.value.(mode := Or(f.mode, v.value.mode))))
    case InPlaceOwner =>
      var v := FileOf(h, f.path);
      if v.None? then (if f.uid.Some? || f.gid.Some? then Fail else FileWritten(f, NOTHING))
      else FileWritten(f, Put(FileAt(f.path), Chowned(f, v.value)))
    case TmpCreate =>
      if DirAt(tmp) in h then Fail
      else Next(TmpFill(0), Put(FileAt(tmp), if FileOf(h, tmp).Some? then FileOf(h, tmp).value.(content := "")
                                             else FRESH_FILE))
    case TmpFill(n) =>
      // write_all may be seen, or cut, after any prefix
      var v := FileOf(h, tmp);
      if v.None? then Fail
      else if n < |f.content| then Next(TmpFill(n + 1), Put(FileAt(tmp), v.value.(content := f.content[..n + 1])))
      else Next(TmpMode, NOTHING)
    case TmpMode =>
      var v := FileOf(h, tmp);
      if v.None? then Fail else Next(TmpOwner, Put(FileAt(tmp), v.value.(mode := Or(f.mode, v.value.mode))))
    case TmpOwner =>
      var v := FileOf(h, tmp);
      if v.None? then Fail
      else Next(TmpRename, Put(FileAt(tmp), Chowned(f, v.value)))
    case TmpRename =>
      var v := FileOf(h, tmp);
      if v.None? || DirAt(f.path) in h then Fail
      else FileWritten(f, Patch(map[FileAt(f.path) := v.value], {FileAt(tmp)}, {}))
    case Reload => if f.unit then Finish([Yes], NOTHING) else Fail
    case _ => Fail
  }

  function FileSenses(f: FileSpec): set<Cell> {
    {FileAt(f.path), DirAt(f.path), FileAt(TmpPath(f.path)), DirAt(TmpPath(f.path))}
    + (set a | a in Ancestors(f.path) :: FileAt(a))
  }

  function FileWrites(f: FileSpec): set<Cell> { {FileAt(f.path), FileAt(TmpPath(f.path))} }

  // ---------- Directory ----------

  function DirectoryStep(r: Resource, dryRun: bool, local: Local, h: Host): Move<Local>
    requires r.Directory?
  {
    var current := DirOf(h, r.path);
    match local
    case Begin =>
      if FileAt(r.path) in h || AncestorIsFile(h, r.path) then Fail else
      var needsCreate := current.None?;
      var needsModeFix := r.mode.Some? && current.Some? && current.value.dirMode != r.mode.value;
      var needsChown :=
        if current.None? then r.uid.Some? || r.gid.Some?
        else !Wants(r.uid, current.value.dirUid) || !Wants(r.gid, current.value.dirGid);
      if !needsCreate && !needsModeFix && !needsChown then Finish([No], NOTHING)
      else if dryRun then Finish([Yes], NOTHING)
      else Next(if needsCreate then DirMake(0) else DirMode, NOTHING)
    case DirMake(depth) =>
      if FileAt(r.path) in h || AncestorIsFile(h, r.path) then Fail
      else if depth < |r.path| then Next(DirMake(depth + 1), Patch(map[], {}, ParentAt(r.path, depth)))
      else Next(DirMode, if current.None? then Put(DirAt(r.path), FRESH_DIR) else NOTHING)
    case DirMode =>
      if r.mode.None? then Next(DirOwner, NOTHING)
      else if current.None? then Fail
      else Next(DirOwner, Put(DirAt(r.path), current.value.(dirMode := r.mode.value)))
    case DirOwner =>
      if r.uid.None? && r.gid.None? then Finish([Yes], NOTHING)
      else if current.None? then Fail
      else Finish([Yes], Put(DirAt(r.path),
                             current.value.(dirUid := Or(r.uid, current.value.dirUid),
                                            dirGid := Or(r.gid, current.value.dirGid))))
    case _ => Fail
  }

  function DirectorySenses(path: string): set<Cell> {
    {DirAt(path), FileAt(path)} + (set a | a in Ancestors(path) :: FileAt(a))
  }

  // ---------- Service ----------

  function ServiceMove(r: Resource, dryRun: bool, local: Local, h: Host, changed: set<nat>): Move<Local>
    requires r.Service?
  {
    match local
    case Begin => Next(EnabledSensed(Enabled(r.name) in h), NOTHING)
    case EnabledSensed(isEnabled) =>
      var isActive := Active(r.name) in h;
      var needsEnable := r.enabled && !isEnabled;
      var needsStart := r.started && !isActive;
      var needsRestart := r.started && isActive && AnyChanged(changed, r.restartOn);
      if !needsEnable && !needsStart && !needsRestart then Finish([No], NOTHING)
      else if dryRun then Finish([Yes], NOTHING)
      else Next(ServiceEnable(needsEnable, needsRestart, needsStart), NOTHING)
    case ServiceEnable(enable, restart, start) =>
      Next(ServiceStart(restart, start), if enable then Put(Enabled(r.name), Present) else NOTHING)
    case ServiceStart(restart, start) =>
      Finish([Yes], if restart || start then Put(Active(r.name), Present) else NOTHING)
    case _ => Fail
  }

  // ---------- Command ----------

  function Restricted(h: Host, cells: set<Cell>): Host {
    map c | c in cells && c in h :: h[c]
  }

  function Only(p: Patch, cells: set<Cell>): Patch {
    Patch(map c | c in p.put && c in cells :: p.put[c], p.del * cells, {})
  }

  function CommandStep(r: Resource, dryRun: bool, local: Local, h: Host, changed: set<nat>): Move<Local>
    requires r.Command?
  {
    match local
    case Begin =>
      if r.argv == [] then Fail
      else if r.triggerOn.Some? && !AnyChanged(changed, r.triggerOn.value) then Finish([No], NOTHING)
      else if dryRun then Finish([Yes], NOTHING)
      else Next(CommandRun, NOTHING)
    case CommandRun =>
      var done := r.program.act(Restricted(h, r.program.inputs));
      if done.None? then Fail else Finish([Yes], Only(done.value, r.program.outputs))
    case _ => Fail
  }

  // ---------- the apt batches ----------

  function Filter(names: seq<string>, h: Host, installed: bool): seq<string> {
    if names == [] then [] else
      (if (Package(names[0]) in h) == installed then [names[0]] else []) + Filter(names[1..], h, installed)
  }

  function BatchVerdicts(names: seq<string>, h: Host, whenInstalled: Changed, whenNot: Changed): (v: seq<Changed>)
    ensures |v| == |names|
    ensures forall i :: 0 <= i < |v| ==> v[i] == if Package(names[i]) in h then whenInstalled else whenNot
  {
    if names == [] then [] else
      [if Package(names[0]) in h then whenInstalled else whenNot] + BatchVerdicts(names[1..], h, whenInstalled, whenNot)
  }

  function Packages(names: seq<string>, closure: string -> set<string>): set<Cell> {
    set n, x | n in names && x in closure(n) :: Package(x)
  }

  function AptStep(names: seq<string>, env: Env, local: Local, h: Host): Move<Local> {
    match local
    case Begin =>
      var todo := Filter(names, h, false);
      var verdicts := BatchVerdicts(names, h, No, Yes);
      if todo == [] || env.dryRun then Finish(verdicts, NOTHING) else Next(AptUpdate(todo, verdicts), NOTHING)
    case AptUpdate(todo, verdicts) => Next(AptInstall(todo, verdicts), Put(AptIndex, Present))
    case AptInstall(todo, verdicts) =>
      Finish(verdicts, Patch(map c | c in Packages(todo, env.apt.installs) && c in Packages(names, env.apt.installs) ::
                               Present, {}, {}))
    case _ => Fail
  }

  function AbsentStep(names: seq<string>, env: Env, local: Local, h: Host): Move<Local> {
    match local
    case Begin =>
      var todo := Filter(names, h, true);
      var verdicts := BatchVerdicts(names, h, Yes, No);
      if todo == [] || env.dryRun then Finish(verdicts, NOTHING) else Next(AptRemove(todo, verdicts), NOTHING)
    case AptRemove(todo, verdicts) =>
      Finish(verdicts, Patch(map[], Packages(todo, env.apt.removes) * Packages(names, env.apt.removes), {}))
    case _ => Fail
  }

  function Names(plan: Plan, ids: seq<nat>): seq<string>
    requires forall k :: 0 <= k < |ids| ==> ids[k] < |plan|
                                            && (plan[ids[k]].resource.AptPackage?
                                                || plan[ids[k]].resource.AbsentAptPackage?)
    ensures |Names(plan, ids)| == |ids|
    ensures forall k :: 0 <= k < |ids| ==> Names(plan, ids)[k] == plan[ids[k]].resource.name
  {
    if ids == [] then [] else [plan[ids[0]].resource.name] + Names(plan, ids[1..])
  }

  // ---------- one task ----------

  datatype Job = Single(resource: Resource) | Install(names: seq<string>) | Remove(names: seq<string>) | Malformed

  /** What a task converges. The batchers refuse a foreign resource in the batch. */
  function JobOf(plan: Plan, task: Task): Job {
    var ids := task.ids;
    if ids == [] || exists k :: 0 <= k < |ids| && ids[k] >= |plan| then Malformed
    else if plan[ids[0]].resource.AptPackage? then
      if forall k :: 0 <= k < |ids| ==> plan[ids[k]].resource.AptPackage? then Install(Names(plan, ids)) else Malformed
    else if plan[ids[0]].resource.AbsentAptPackage? then
      if forall k :: 0 <= k < |ids| ==> plan[ids[k]].resource.AbsentAptPackage? then Remove(Names(plan, ids))
      else Malformed
    else Single(plan[ids[0]].resource)
  }

  function JobStep(job: Job, env: Env, local: Local, h: Host, changed: set<nat>): Move<Local> {
    match job
    case Malformed => Fail
    case Install(names) => AptStep(names, env, local, h)
    case Remove(names) => AbsentStep(names, env, local, h)
    case Single(r) =>
      match r
      case File(_, _, _, _, _) => FileStep(Spec(r), env.dryRun, local, h)
      case SystemdUnit(_, _) => FileStep(Spec(r), env.dryRun, local, h)
      case Directory(_, _, _, _) => DirectoryStep(r, env.dryRun, local, h)
      case Service(_, _, _, _) => ServiceMove(r, env.dryRun, local, h, changed)
      case Command(_, _, _) => CommandStep(r, env.dryRun, local, h, changed)
      case Marker => if local.Begin? then Finish([No], NOTHING) else Fail
      case _ => Fail
  }

  /** The calls a step makes. */
  function CallsOf(job: Job, local: Local): seq<Call> {
    match (job, local)
    case (Single(SystemdUnit(_, _)), Reload) => [DaemonReload]
    case (Single(Service(name, _, _, _)), ServiceEnable(enable, _, _)) => if enable then [EnableUnit(name)] else []
    case (Single(Service(name, _, _, _)), ServiceStart(restart, start)) =>
      if restart then [RestartUnit(name)] else if start then [StartUnit(name)] else []
    case (Single(Command(argv, _, _)), CommandRun) => [RunCommand(argv)]
    case (Install(_), AptUpdate(_, _)) => [AptGetUpdate]
    case (Install(_), AptInstall(todo, _)) => [AptGetInstall(todo)]
    case (Remove(_), AptRemove(todo, _)) => [AptGetRemove(todo)]
    case _ => []
  }

  /** `daemon-reload` loads every unit file as it is on disk; a (re)started unit runs
      with the definition loaded at that moment. */
  function JobShadow(job: Job, local: Local, h: Host, m: Manager): Manager {
    var m' := m.(calls := m.calls + CallsOf(job, local));
    if job.Single? && job.resource.SystemdUnit? && local.Reload? then m'.(loaded := UnitFiles(h))
    else if job.Single? && job.resource.Service? && local.ServiceStart? && (local.restart || local.start) then
      m'.(running := m.running[job.resource.name := LoadedDefinition(m, UnitPath(job.resource.name))])
    else m'
  }

  function UnitFiles(h: Host): map<string, string> {
    map c | c in h && c.FileAt? && UNIT_DIR <= c.path && h[c].FileVal? :: c.path := h[c].content
  }

  function LoadedDefinition(m: Manager, path: string): Option<string> {
    if path in m.loaded then Some(m.loaded[path]) else None
  }

  function JobSenses(job: Job): set<Cell> {
    match job
    case Malformed => {}
    case Install(names) => set n | n in names :: Package(n)
    case Remove(names) => set n | n in names :: Package(n)
    case Single(r) =>
      match r
      case File(_, _, _, _, _) => FileSenses(Spec(r))
      case SystemdUnit(_, _) => FileSenses(Spec(r))
      case Directory(path, _, _, _) => DirectorySenses(path)
      case Service(name, _, _, _) => {Enabled(name), Active(name)}
      case Command(_, _, program) => program.inputs
      case _ => {}
  }

  function JobWrites(job: Job, apt: Apt): set<Cell> {
    match job
    case Malformed => {}
    case Install(names) => Packages(names, apt.installs) + {AptIndex}
    case Remove(names) => Packages(names, apt.removes)
    case Single(r) =>
      match r
      case File(_, _, _, _, _) => FileWrites(Spec(r))
      case SystemdUnit(_, _) => FileWrites(Spec(r))
      case Directory(path, _, _, _) => {DirAt(path)}
      case Service(name, _, _, _) => {Enabled(name), Active(name)}
      case Command(_, _, program) => program.outputs
      case _ => {}
  }

  function JobMakes(job: Job): set<Cell> {
    if job.Single? && IsFileLike(job.resource) then AncestorDirs(Spec(job.resource).path)
    else if job.Single? && job.resource.Directory? then AncestorDirs(job.resource.path)
    else {}
  }

  ghost function InfSet(s: set<Cell>): iset<Cell> { iset c | c in s }

  /** The run of a plan: `levels` come from the topological sort and the grouping. */
  ghost function SystemOf(plan: Plan, levels: seq<Level>, env: Env): System<Local, Manager> {
    System(Hints(plan), levels, Begin,
           (task, local, h, changed) => JobStep(JobOf(plan, task), env, local, h, changed),
           (task, local, h, m) => JobShadow(JobOf(plan, task), local, h, m),
           task => InfSet(JobSenses(JobOf(plan, task))),
           task => InfSet(JobWrites(JobOf(plan, task), env.apt)),
           task => InfSet(JobMakes(JobOf(plan, task))))
  }

  function Hints(plan: Plan): seq<string> {
    seq(|plan|, i requires 0 <= i < |plan| => plan[i].hint)
  }
}
