/** What each resource does to the host when its task runs through, and which programs it calls,
    in the fields of the resource: the final host cell by cell, what is not asked for included. */
module TaskEffects {
  import opened HostModel
  import opened Run
  import opened RunReport
  import opened RunSchedule
  import opened Backends
  import opened BackendRuns

  // ---------- File and SystemdUnit ----------

  predicate IsSeparator(path: string, i: int) { 0 < i < |path| && path[i] == '/' }

  /** The directories above `path` are there, as far as the first `depth` characters go. */
  ghost predicate DirsMade(path: string, depth: int, h: Host) {
    forall i :: IsSeparator(path, i) && i < depth ==> DirAt(path[..i]) in h
  }

  /** A cell that is as it was, or a new directory above `path` with mode 0755, owned by root. */
  ghost predicate SparedOrMade(path: string, h0: Host, h: Host, c: Cell) {
    if c in h0 then c in h && h[c] == h0[c]
    else c in h ==> h[c] == DirVal(0x1ed, 0, 0) && exists i :: IsSeparator(path, i) && c == DirAt(path[..i])
  }

  /** A file with this content whose attributes are those wanted, or else those of `base`; a
      chown takes away setuid, and setgid where the group may execute. */
  function Dressed(content: string, mode: Option<nat>, uid: Option<nat>, gid: Option<nat>, base: Val): Val
    requires base.FileVal?
  {
    var m := if mode.Some? then mode.value else base.mode;
    var cleared := (if m / 0x800 % 2 == 1 then 0x800 else 0)
      + (if m / 0x400 % 2 == 1 && m / 8 % 2 == 1 then 0x400 else 0);
    FileVal(content, if (uid.Some? || gid.Some?) && cleared <= m then m - cleared else m,
            if uid.Some? then uid.value else base.uid, if gid.Some? then gid.value else base.gid)
  }

  /** The file is as wanted. */
  predicate FileIsWanted(path: string, content: string, mode: Option<nat>, uid: Option<nat>, gid: Option<nat>, h: Host)
  {
    && FileAt(path) in h && h[FileAt(path)].FileVal? && h[FileAt(path)].content == content
    && (mode.Some? ==> h[FileAt(path)].mode == mode.value)
    && (uid.Some? ==> h[FileAt(path)].uid == uid.value)
    && (gid.Some? ==> h[FileAt(path)].gid == gid.value)
  }

  predicate HasContent(path: string, content: string, h: Host) {
    FileAt(path) in h && h[FileAt(path)].FileVal? && h[FileAt(path)].content == content
  }

  function TmpOf(path: string): Cell { FileAt(path + ".tmp.host-setup") }

  /** What a temp file starts from: one that was left over, or a new one with mode 0644. */
  function LeftOver(path: string, h0: Host): Val
    ensures LeftOver(path, h0).FileVal?
  {
    if TmpOf(path) in h0 && h0[TmpOf(path)].FileVal? then h0[TmpOf(path)] else FileVal("", 0x1a4, 0, 0)
  }

  /** What writing a file leaves: attributes are mended in place where the content is right;
      otherwise the file is replaced by a new one, and no temp file is left. */
  ghost predicate FileWrittenTo(path: string, content: string, mode: Option<nat>, uid: Option<nat>, gid: Option<nat>,
                                h0: Host, h: Host) {
    && FileAt(path) in h
    && h[FileAt(path)] == Dressed(content, mode, uid, gid,
                                  if HasContent(path, content, h0) then h0[FileAt(path)] else LeftOver(path, h0))
    && (if HasContent(path, content, h0) then Same(h0, h, TmpOf(path)) else TmpOf(path) !in h)
    && DirsMade(path, |path|, h)
    && forall c :: c != FileAt(path) && c != TmpOf(path) ==> SparedOrMade(path, h0, h, c)
  }

  ghost predicate FileDone(path: string, content: string, mode: Option<nat>, uid: Option<nat>, gid: Option<nat>,
                           h0: Host, v: seq<Changed>, h: Host) {
    if FileIsWanted(path, content, mode, uid, gid, h0) then v == [No] && h == h0
    else v == [Yes] && FileWrittenTo(path, content, mode, uid, gid, h0, h)
  }

  /** Where a file's task is: the target untouched so far, and the temp file given. */
  ghost predicate Filling(f: FileSpec, h0: Host, h: Host, tmp: Option<Val>) {
    && !FileIsWanted(f.path, f.content, f.mode, f.uid, f.gid, h0) && !HasContent(f.path, f.content, h0)
    && DirsMade(f.path, |f.path|, h) && Same(h0, h, FileAt(f.path))
    && (if tmp.Some? then TmpOf(f.path) in h && h[TmpOf(f.path)] == tmp.value else Same(h0, h, TmpOf(f.path)))
    && forall c :: c != FileAt(f.path) && c != TmpOf(f.path) ==> SparedOrMade(f.path, h0, h, c)
  }

  ghost predicate Mending(f: FileSpec, h0: Host, h: Host, target: Val, depth: int) {
    && !FileIsWanted(f.path, f.content, f.mode, f.uid, f.gid, h0) && HasContent(f.path, f.content, h0)
    && DirsMade(f.path, depth, h) && FileAt(f.path) in h && h[FileAt(f.path)] == target && Same(h0, h, TmpOf(f.path))
    && forall c :: c != FileAt(f.path) && c != TmpOf(f.path) ==> SparedOrMade(f.path, h0, h, c)
  }

  ghost predicate Parenting(f: FileSpec, h0: Host, h: Host, depth: int) {
    && !FileIsWanted(f.path, f.content, f.mode, f.uid, f.gid, h0)
    && DirsMade(f.path, depth, h) && Same(h0, h, FileAt(f.path)) && Same(h0, h, TmpOf(f.path))
    && forall c :: c != FileAt(f.path) && c != TmpOf(f.path) ==> SparedOrMade(f.path, h0, h, c)
  }

  ghost predicate FileStage(f: FileSpec, h0: Host, local: Local, h: Host) {
    var base := LeftOver(f.path, h0);
    match local
    case Begin => h == h0
    case FileSensed(current) => h == h0 && (current == Some(f.content) <==> HasContent(f.path, f.content, h0))
    case FileParent(inPlace, depth) => (inPlace <==> HasContent(f.path, f.content, h0)) && Parenting(f, h0, h, depth)
    case InPlaceMode => HasContent(f.path, f.content, h0) && Mending(f, h0, h, h0[FileAt(f.path)], |f.path|)
    case InPlaceOwner =>
      HasContent(f.path, f.content, h0)
      && Mending(f, h0, h, Dressed(f.content, f.mode, None, None, h0[FileAt(f.path)]), |f.path|)
    case TmpCreate => Filling(f, h0, h, None)
    case TmpFill(n) => n <= |f.content| && Filling(f, h0, h, Some(base.(content := f.content[..n])))
    case TmpMode => Filling(f, h0, h, Some(base.(content := f.content)))
    case TmpOwner => Filling(f, h0, h, Some(Dressed(f.content, f.mode, None, None, base)))
    case TmpRename => Filling(f, h0, h, Some(Dressed(f.content, f.mode, f.uid, f.gid, base)))
    case Reload => !FileIsWanted(f.path, f.content, f.mode, f.uid, f.gid, h0)
                   && FileWrittenTo(f.path, f.content, f.mode, f.uid, f.gid, h0, h)
    case _ => false
  }

  /** A step from a stage leads to a stage, or is done. */
  ghost predicate FileMoves(f: FileSpec, h0: Host, local: Local, h: Host) {
    match FileStep(f, false, local, h)
    case Next(next, p) => FileStage(f, h0, next, Apply(h, p))
    case Finish(v, p) => FileDone(f.path, f.content, f.mode, f.uid, f.gid, h0, v, Apply(h, p))
    case Fail => true
  }

  lemma FileSees(f: FileSpec, h0: Host, local: Local)
    requires (local.Begin? || local.FileSensed?) && FileStage(f, h0, local, h0)
    ensures FileMoves(f, h0, local, h0)
  {
    hide Ancestors, AncestorIsFile, ParentAt, ChownedMode, TmpOf, Dressed, LeftOver;
    assert Apply(h0, NOTHING) == h0;
  }

  lemma ParentsGrow(path: string, depth: nat, h0: Host, h: Host)
    requires DirsMade(path, depth, h)
    requires forall c :: c != FileAt(path) && c != TmpOf(path) ==> SparedOrMade(path, h0, h, c)
    ensures var h' := Apply(h, Patch(map[], {}, ParentAt(path, depth)));
            && DirsMade(path, depth + 1, h') && Same(h, h', FileAt(path)) && Same(h, h', TmpOf(path))
            && forall c :: c != FileAt(path) && c != TmpOf(path) ==> SparedOrMade(path, h0, h', c)
  {

    var p := Patch(map[], {}, ParentAt(path, depth));
    var h' := Apply(h, p);
    forall c | c != FileAt(path) && c != TmpOf(path) ensures SparedOrMade(path, h0, h', c) {
      assert SparedOrMade(path, h0, h, c);
      if c in ParentAt(path, depth) && c !in h { assert IsSeparator(path, depth) && c == DirAt(path[..depth]); }
    }
  }

  lemma FileClimbs(f: FileSpec, h0: Host, local: Local, h: Host)
    requires local.FileParent? && FileStage(f, h0, local, h)
    ensures FileMoves(f, h0, local, h)
  {
    hide Ancestors, AncestorIsFile, ParentAt, ChownedMode, TmpOf, Dressed, LeftOver, FileIsWanted, SparedOrMade;
    ParentsGrow(f.path, local.depth, h0, h);
    assert Apply(h, NOTHING) == h;
    if local.depth >= |f.path| && local.inPlace {
      assert h[FileAt(f.path)] == h0[FileAt(f.path)];
    }
  }

  /** Chmod alone, and chmod followed by chown. */
  lemma DressesInTwo(f: FileSpec, base: Val)
    requires base.FileVal?
    ensures Dressed(f.content, f.mode, None, None, base)
            == base.(content := f.content, mode := Or(f.mode, base.mode))
    ensures Chowned(f, Dressed(f.content, f.mode, None, None, base))
            == Dressed(f.content, f.mode, f.uid, f.gid, base)
  {
    ClearedFits(if f.mode.Some? then f.mode.value else base.mode);
  }

  lemma ClearedFits(m: nat)
    ensures (if m / 0x800 % 2 == 1 then 0x800 else 0) + (if m / 0x400 % 2 == 1 && m / 8 % 2 == 1 then 0x400 else 0) <= m
  {
    if m / 0x800 % 2 == 1 && m / 0x400 % 2 == 1 {
      assert m / 0x400 == 2 * (m / 0x800) + 1 by { Halved(m); }
    }
  }

  lemma Halved(m: nat)
    requires m / 0x400 % 2 == 1
    ensures m / 0x400 == 2 * (m / 0x800) + 1
  {
  }

  /** Changing the file and its temp file leaves everything else alone. */
  lemma OwnPatch(path: string, h0: Host, h: Host, p: Patch)
    requires p.make == {} && forall c :: c in p.put || c in p.del ==> c == FileAt(path) || c == TmpOf(path)
    requires DirsMade(path, |path|, h)
    requires forall c :: c != FileAt(path) && c != TmpOf(path) ==> SparedOrMade(path, h0, h, c)
    ensures DirsMade(path, |path|, Apply(h, p))
    ensures forall c :: c != FileAt(path) && c != TmpOf(path) ==> SparedOrMade(path, h0, Apply(h, p), c)
  {
    forall c | c != FileAt(path) && c != TmpOf(path) ensures SparedOrMade(path, h0, Apply(h, p), c) {
      assert SparedOrMade(path, h0, h, c) && Same(h, Apply(h, p), c);
    }
  }

  lemma FileMends(f: FileSpec, h0: Host, local: Local, h: Host)
    requires (local.InPlaceMode? || local.InPlaceOwner?) && FileStage(f, h0, local, h)
    ensures FileMoves(f, h0, local, h)
  {
    hide Ancestors, AncestorIsFile, ParentAt, Chowned, TmpOf, Dressed, LeftOver, FileIsWanted;
    DressesInTwo(f, h0[FileAt(f.path)]);
    TmpIsAnother(f.path);
    var move := FileStep(f, false, local, h);
    if !move.Fail? { OwnPatch(f.path, h0, h, move.patch); }
  }

  lemma TmpIsAnother(path: string)
    ensures TmpOf(path) == FileAt(TmpPath(path)) && TmpOf(path) != FileAt(path)
  {
    TmpDiffers(path);
  }

  lemma FileFills(f: FileSpec, h0: Host, local: Local, h: Host)
    requires (local.TmpCreate? || local.TmpFill?) && FileStage(f, h0, local, h)
    ensures FileMoves(f, h0, local, h)
  {
    hide Ancestors, AncestorIsFile, ParentAt, Chowned, TmpOf, Dressed, FileIsWanted, TmpPath, HasContent;
    TmpIsAnother(f.path);
    var move := FileStep(f, false, local, h);
    if !move.Fail? { OwnPatch(f.path, h0, h, move.patch); }
    assert f.content[..|f.content|] == f.content;
    assert Apply(h, NOTHING) == h;
  }

  lemma FileDresses(f: FileSpec, h0: Host, local: Local, h: Host)
    requires (local.TmpMode? || local.TmpOwner?) && FileStage(f, h0, local, h)
    ensures FileMoves(f, h0, local, h)
  {
    hide Ancestors, AncestorIsFile, ParentAt, Chowned, TmpOf, Dressed, LeftOver, FileIsWanted, TmpPath, HasContent;
    TmpIsAnother(f.path);
    var move := FileStep(f, false, local, h);
    if !move.Fail? { OwnPatch(f.path, h0, h, move.patch); }
    DressesInTwo(f, LeftOver(f.path, h0));
  }

  lemma FileRenames(f: FileSpec, h0: Host, local: Local, h: Host)
    requires (local.TmpRename? || local.Reload?) && FileStage(f, h0, local, h)
    ensures FileMoves(f, h0, local, h)
  {
    hide Ancestors, AncestorIsFile, ParentAt, Chowned, TmpOf, Dressed, LeftOver, FileIsWanted, TmpPath, HasContent;
    TmpIsAnother(f.path);
    var move := FileStep(f, false, local, h);
    if !move.Fail? { OwnPatch(f.path, h0, h, move.patch); }
    assert Apply(h, NOTHING) == h;
  }

  lemma FileStages(f: FileSpec, h0: Host, local: Local, h: Host)
    requires FileStage(f, h0, local, h)
    ensures FileMoves(f, h0, local, h)
  {
    hide FileStage, FileMoves;
    if local.Begin? || local.FileSensed? { SeesStart(f, h0, local, h); FileSees(f, h0, local); }
    else if local.FileParent? { FileClimbs(f, h0, local, h); }
    else if local.InPlaceMode? || local.InPlaceOwner? { FileMends(f, h0, local, h); }
    else if local.TmpCreate? || local.TmpFill? { FileFills(f, h0, local, h); }
    else if local.TmpMode? || local.TmpOwner? { FileDresses(f, h0, local, h); }
    else { OnlyStages(f, h0, local, h); FileRenames(f, h0, local, h); }
  }

  lemma SeesStart(f: FileSpec, h0: Host, local: Local, h: Host)
    requires (local.Begin? || local.FileSensed?) && FileStage(f, h0, local, h)
    ensures h == h0
  {
  }

  lemma OnlyStages(f: FileSpec, h0: Host, local: Local, h: Host)
    requires FileStage(f, h0, local, h)
    ensures local.Begin? || local.FileSensed? || local.FileParent? || local.InPlaceMode? || local.InPlaceOwner?
            || local.TmpCreate? || local.TmpFill? || local.TmpMode? || local.TmpOwner? || local.TmpRename?
            || local.Reload?
  {
  }

  // ---------- Directory ----------

  predicate DirIsWanted(path: string, mode: Option<nat>, uid: Option<nat>, gid: Option<nat>, h: Host) {
    && DirAt(path) in h && h[DirAt(path)].DirVal?
    && (mode.Some? ==> h[DirAt(path)].dirMode == mode.value)
    && (uid.Some? ==> h[DirAt(path)].dirUid == uid.value)
    && (gid.Some? ==> h[DirAt(path)].dirGid == gid.value)
  }

  predicate IsDir(path: string, h: Host) { DirAt(path) in h && h[DirAt(path)].DirVal? }

  /** The directory that is there, or a new one. */
  function DirBase(path: string, h0: Host): Val
    ensures DirBase(path, h0).DirVal?
  {
    if IsDir(path, h0) then h0[DirAt(path)] else DirVal(0x1ed, 0, 0)
  }

  /** Everything but the directory itself: as it was, or, if it was missing, with what was made above it. */
  ghost predicate DirSpares(path: string, h0: Host, h: Host, depth: int) {
    && (!IsDir(path, h0) ==> DirsMade(path, depth, h))
    && forall c :: c != DirAt(path) ==> if IsDir(path, h0) then Same(h0, h, c) else SparedOrMade(path, h0, h, c)
  }

  ghost predicate DirDone(path: string, mode: Option<nat>, uid: Option<nat>, gid: Option<nat>, h0: Host,
                          v: seq<Changed>, h: Host) {
    if DirIsWanted(path, mode, uid, gid, h0) then v == [No] && h == h0
    else
      && v == [Yes] && DirSpares(path, h0, h, |path|)
      && DirAt(path) in h
      && var base := DirBase(path, h0);
         h[DirAt(path)] == DirVal(if mode.Some? then mode.value else base.dirMode,
                                  if uid.Some? then uid.value else base.dirUid,
                                  if gid.Some? then gid.value else base.dirGid)
  }

  ghost predicate DirStage(r: Resource, h0: Host, local: Local, h: Host)
    requires r.Directory?
  {
    var base := DirBase(r.path, h0);
    var due := !DirIsWanted(r.path, r.mode, r.uid, r.gid, h0);
    match local
    case Begin => h == h0
    case DirMake(depth) =>
      due && !IsDir(r.path, h0) && Same(h0, h, DirAt(r.path)) && DirSpares(r.path, h0, h, depth)
    case DirMode => due && DirAt(r.path) in h && h[DirAt(r.path)] == base && DirSpares(r.path, h0, h, |r.path|)
    case DirOwner =>
      due && DirAt(r.path) in h
      && h[DirAt(r.path)] == base.(dirMode := if r.mode.Some? then r.mode.value else base.dirMode)
      && DirSpares(r.path, h0, h, |r.path|)
    case _ => false
  }

  ghost predicate DirMoves(r: Resource, h0: Host, local: Local, h: Host)
    requires r.Directory?
  {
    match DirectoryStep(r, false, local, h)
    case Next(next, p) => DirStage(r, h0, next, Apply(h, p))
    case Finish(v, p) => DirDone(r.path, r.mode, r.uid, r.gid, h0, v, Apply(h, p))
    case Fail => true
  }

  lemma DirSees(r: Resource, h0: Host)
    requires r.Directory?
    ensures DirMoves(r, h0, Begin, h0)
  {
    hide Ancestors, AncestorIsFile, ParentAt, SparedOrMade, DirsMade, DirSpares;
    assert Apply(h0, NOTHING) == h0;
    NothingMade(r.path, h0);
  }

  lemma DirClimbs(r: Resource, h0: Host, local: Local, h: Host)
    requires r.Directory? && local.DirMake? && DirStage(r, h0, local, h)
    ensures DirMoves(r, h0, local, h)
  {
    hide Ancestors, AncestorIsFile, ParentAt, SparedOrMade, DirsMade, DirSpares;
    if local.depth < |r.path| {
      DirParentsGrow(r.path, local.depth, h0, h);
    } else {
      AllMade(r.path, h0, h, local.depth);
      var move := DirectoryStep(r, false, local, h);
      if !move.Fail? { OwnDirPatch(r.path, h0, h, move.patch); }
    }
  }

  lemma DirAdjusts(r: Resource, h0: Host, local: Local, h: Host)
    requires r.Directory? && (local.DirMode? || local.DirOwner?) && DirStage(r, h0, local, h)
    ensures DirMoves(r, h0, local, h)
  {
    hide Ancestors, AncestorIsFile, ParentAt, SparedOrMade, DirsMade, DirSpares;
    var move := DirectoryStep(r, false, local, h);
    if !move.Fail? { OwnDirPatch(r.path, h0, h, move.patch); }
  }

  lemma DirStages(r: Resource, h0: Host, local: Local, h: Host)
    requires r.Directory? && DirStage(r, h0, local, h)
    ensures DirMoves(r, h0, local, h)
  {
    hide DirMoves, DirSpares;
    if local.Begin? { DirSees(r, h0); }
    else if local.DirMake? { DirClimbs(r, h0, local, h); }
    else { DirAdjusts(r, h0, local, h); }
  }

  lemma NothingMade(path: string, h0: Host)
    ensures DirSpares(path, h0, h0, 0) && (IsDir(path, h0) ==> DirSpares(path, h0, h0, |path|))
  {
  }

  lemma AllMade(path: string, h0: Host, h: Host, depth: int)
    requires DirSpares(path, h0, h, depth) && depth >= |path|
    ensures DirSpares(path, h0, h, |path|)
  {
  }

  lemma DirParentsGrow(path: string, depth: nat, h0: Host, h: Host)
    requires DirSpares(path, h0, h, depth) && !IsDir(path, h0)
    ensures var h' := Apply(h, Patch(map[], {}, ParentAt(path, depth)));
            Same(h, h', DirAt(path)) && DirSpares(path, h0, h', depth + 1)
  {
    var h' := Apply(h, Patch(map[], {}, ParentAt(path, depth)));
    forall c | c != DirAt(path) ensures SparedOrMade(path, h0, h', c) {
      assert SparedOrMade(path, h0, h, c);
      if c in ParentAt(path, depth) && c !in h { assert IsSeparator(path, depth) && c == DirAt(path[..depth]); }
    }
  }

  lemma OwnDirPatch(path: string, h0: Host, h: Host, p: Patch)
    requires p.make == {} && p.del == {} && forall c :: c in p.put ==> c == DirAt(path)
    ensures forall depth :: DirSpares(path, h0, h, depth) ==> DirSpares(path, h0, Apply(h, p), depth)
  {
    forall depth | DirSpares(path, h0, h, depth) ensures DirSpares(path, h0, Apply(h, p), depth) {
      forall c | c != DirAt(path)
        ensures if IsDir(path, h0) then Same(h0, Apply(h, p), c) else SparedOrMade(path, h0, Apply(h, p), c)
      {
        assert Same(h, Apply(h, p), c);
        assert if IsDir(path, h0) then Same(h0, h, c) else SparedOrMade(path, h0, h, c);
      }
    }
  }

  // ---------- Service ----------

  ghost predicate Fires(ids: seq<nat>, changed: set<nat>) { exists id :: id in ids && id in changed }

  function Cells(on: bool, c: Cell): map<Cell, Val> { if on then map[c := Present] else map[] }

  /** Enabled if that is wanted and missing; restarted if it is to run, does so and one of its ids
      has changed; started if it is to run and does not; nothing else. */
  ghost predicate ServiceDone(name: string, enabled: bool, started: bool, restartOn: seq<nat>, changed: set<nat>,
                              h0: Host, v: seq<Changed>, h: Host, calls: seq<Call>) {
    var enable := enabled && Cell.Enabled(name) !in h0;
    var start := started && Active(name) !in h0;
    var restart := started && Active(name) in h0 && Fires(restartOn, changed);
    && v == [if enable || start || restart then Yes else No]
    && h == h0 + Cells(enable, Cell.Enabled(name)) + Cells(start || restart, Active(name))
    && calls == (if enable then [EnableUnit(name)] else [])
                + (if restart then [RestartUnit(name)] else if start then [StartUnit(name)] else [])
  }

  ghost predicate ServiceStage(r: Resource, changed: set<nat>, h0: Host, local: Local, h: Host, calls: seq<Call>)
    requires r.Service?
  {
    var enable := r.enabled && Cell.Enabled(r.name) !in h0;
    var begin := r.started && Active(r.name) !in h0;
    var again := r.started && Active(r.name) in h0 && Fires(r.restartOn, changed);
    match local
    case Begin => h == h0 && calls == []
    case EnabledSensed(e) => h == h0 && calls == [] && (e <==> Cell.Enabled(r.name) in h0)
    case ServiceEnable(e, restart, start) =>
      h == h0 && calls == [] && (e <==> enable) && (start <==> begin) && (restart <==> again)
      && (enable || begin || again)
    case ServiceStart(restart, start) =>
      && h == h0 + Cells(enable, Cell.Enabled(r.name)) && calls == (if enable then [EnableUnit(r.name)] else [])
      && (start <==> begin) && (restart <==> again) && (enable || begin || again)
    case _ => false
  }

  lemma ServiceStages(r: Resource, changed: set<nat>, h0: Host, local: Local, h: Host, calls: seq<Call>)
    requires r.Service? && ServiceStage(r, changed, h0, local, h, calls)
    ensures match ServiceMove(r, false, local, h, changed)
            case Next(next, p) =>
              ServiceStage(r, changed, h0, next, Apply(h, p), calls + CallsOf(Single(r), local))
            case Finish(v, p) =>
              ServiceDone(r.name, r.enabled, r.started, r.restartOn, changed, h0, v, Apply(h, p),
                          calls + CallsOf(Single(r), local))
            case Fail => true
  {
    assert Apply(h, NOTHING) == h && h0 + map[] == h0;
    assert AnyChanged(changed, r.restartOn) <==> Fires(r.restartOn, changed);
    forall c ensures Apply(h, Put(c, Present)) == h + Cells(true, c) {}
  }

  // ---------- Command ----------

  /** It runs if it has no `trigger_on` or one of its ids has changed. Then the cells it declares as
      outputs become what the program makes of its inputs, and every other cell is as it was. */
  ghost predicate CommandDone(argv: seq<string>, triggerOn: Option<seq<nat>>, program: Program, changed: set<nat>,
                              h0: Host, v: seq<Changed>, h: Host, calls: seq<Call>) {
    if triggerOn.Some? && !Fires(triggerOn.value, changed) then v == [No] && h == h0 && calls == []
    else
      var made := program.act(map c | c in program.inputs && c in h0 :: h0[c]);
      && v == [Yes] && calls == [RunCommand(argv)] && argv != []
      && made.Some?
      && forall c ::
           if c in program.outputs && c in made.value.put then c in h && h[c] == made.value.put[c]
           else if c in program.outputs && c in made.value.del then c !in h
           else Same(h0, h, c)
  }

  ghost predicate CommandStage(r: Resource, changed: set<nat>, h0: Host, local: Local, h: Host, calls: seq<Call>)
    requires r.Command?
  {
    && h == h0 && calls == []
    && (local.Begin? || (local.CommandRun? && r.argv != []
                         && (r.triggerOn.None? || Fires(r.triggerOn.value, changed))))
  }

  lemma CommandStages(r: Resource, changed: set<nat>, h0: Host, local: Local, h: Host, calls: seq<Call>)
    requires r.Command? && CommandStage(r, changed, h0, local, h, calls)
    ensures match CommandStep(r, false, local, h, changed)
            case Next(next, p) =>
              CommandStage(r, changed, h0, next, Apply(h, p), calls + CallsOf(Single(r), local))
            case Finish(v, p) =>
              CommandDone(r.argv, r.triggerOn, r.program, changed, h0, v, Apply(h, p),
                          calls + CallsOf(Single(r), local))
            case Fail => true
  {
    assert Apply(h, NOTHING) == h;
    if r.triggerOn.Some? { assert AnyChanged(changed, r.triggerOn.value) <==> Fires(r.triggerOn.value, changed); }
    assert Restricted(h0, r.program.inputs) == map c | c in r.program.inputs && c in h0 :: h0[c];
  }

  // ---------- the apt batches ----------

  /** What is missing is installed by one update and one install, with what it pulls in. */
  ghost predicate InstallDone(names: seq<string>, installs: string -> set<string>, h0: Host, v: seq<Changed>, h: Host,
                              calls: seq<Call>) {
    var missing := Filter(names, h0, false);
    && |v| == |names| && (forall i :: 0 <= i < |v| ==> v[i] == if Package(names[i]) in h0 then No else Yes)
    && calls == (if missing == [] then [] else [AptGetUpdate, AptGetInstall(missing)])
    && InstalledFrom(missing, installs, h0, h)
  }

  ghost predicate InstalledFrom(missing: seq<string>, installs: string -> set<string>, h0: Host, h: Host) {
    forall c: Cell ::
      if (c == AptIndex && missing != []) || (c.Package? && exists n :: n in missing && c.name in installs(n))
      then c in h && h[c] == Present else Same(h0, h, c)
  }

  ghost predicate InstallStage(names: seq<string>, h0: Host, local: Local, h: Host, calls: seq<Call>) {
    var missing := Filter(names, h0, false);
    match local
    case Begin => h == h0 && calls == []
    case AptUpdate(todo, v) =>
      h == h0 && calls == [] && todo == missing != [] && v == Backends.BatchVerdicts(names, h0, No, Yes)
    case AptInstall(todo, v) =>
      h == h0 + map[AptIndex := Present] && calls == [AptGetUpdate] && todo == missing != []
      && v == Backends.BatchVerdicts(names, h0, No, Yes)
    case _ => false
  }

  lemma AppliesNothing(h: Host)
    ensures Apply(h, NOTHING) == h
  {
  }

  lemma IndexUpdated(h: Host)
    ensures Apply(h, Put(AptIndex, Present)) == h + map[AptIndex := Present]
  {
  }

  lemma InstallEnds(names: seq<string>, env: Env, h0: Host, todo: seq<string>, h: Host)
    requires todo == Filter(names, h0, false) != [] && h == h0 + map[AptIndex := Present]
    ensures InstalledFrom(todo, env.apt.installs, h0,
                          Apply(h, Patch(map c | c in Packages(todo, env.apt.installs)
                                           && c in Packages(names, env.apt.installs) :: Present, {}, {})))
  {
    hide Filter, Packages;
    FilterHas(names, h0, false);
    ClosureCells(env.apt.installs, todo, names);
  }

  lemma NothingInstalled(installs: string -> set<string>, h0: Host)
    ensures InstalledFrom([], installs, h0, h0)
  {
  }

  lemma InstallStages(names: seq<string>, env: Env, h0: Host, local: Local, h: Host, calls: seq<Call>)
    requires !env.dryRun && InstallStage(names, h0, local, h, calls)
    ensures match AptStep(names, env, local, h)
            case Next(next, p) => InstallStage(names, h0, next, Apply(h, p), calls + CallsOf(Install(names), local))
            case Finish(v, p) =>
              InstallDone(names, env.apt.installs, h0, v, Apply(h, p), calls + CallsOf(Install(names), local))
            case Fail => true
  {
    hide Filter, Backends.BatchVerdicts, Packages, Apply, InstalledFrom;
    match local
    case Begin =>
      NothingInstalled(env.apt.installs, h0);
      AppliesNothing(h);
    case AptUpdate(_, _) => IndexUpdated(h);
    case AptInstall(todo, _) => InstallEnds(names, env, h0, todo, h);
    case _ =>
  }

  /** Where the packages named are asked for, so is what they pull in or take along. */
  lemma ClosureCells(f: string -> set<string>, todo: seq<string>, names: seq<string>)
    requires forall n :: n in todo ==> n in names
    ensures forall c: Cell :: c in Packages(todo, f) && c in Packages(names, f) <==>
                              c.Package? && exists n :: n in todo && c.name in f(n)
  {
    forall c: Cell | c.Package? && exists n :: n in todo && c.name in f(n)
      ensures c in Packages(todo, f) && c in Packages(names, f)
    {
      var n :| n in todo && c.name in f(n);
    }
  }

  /** What is there is removed in one go, with what that takes along. */
  ghost predicate RemoveDone(names: seq<string>, removes: string -> set<string>, h0: Host, v: seq<Changed>, h: Host,
                             calls: seq<Call>) {
    var there := Filter(names, h0, true);
    && |v| == |names| && (forall i :: 0 <= i < |v| ==> v[i] == if Package(names[i]) in h0 then Yes else No)
    && calls == (if there == [] then [] else [AptGetRemove(there)])
    && forall c: Cell ::
         if c.Package? && exists n :: n in there && c.name in removes(n) then c !in h else Same(h0, h, c)
  }

  ghost predicate RemoveStage(names: seq<string>, h0: Host, local: Local, h: Host, calls: seq<Call>) {
    && h == h0 && calls == []
    && (local.Begin? || (local.AptRemove? && local.todo == Filter(names, h0, true) != []
                         && local.verdicts == Backends.BatchVerdicts(names, h0, Yes, No)))
  }

  lemma RemoveStages(names: seq<string>, env: Env, h0: Host, local: Local, h: Host, calls: seq<Call>)
    requires !env.dryRun && RemoveStage(names, h0, local, h, calls)
    ensures match AbsentStep(names, env, local, h)
            case Next(next, p) => RemoveStage(names, h0, next, Apply(h, p), calls + CallsOf(Remove(names), local))
            case Finish(v, p) =>
              RemoveDone(names, env.apt.removes, h0, v, Apply(h, p), calls + CallsOf(Remove(names), local))
            case Fail => true
  {
    hide Filter, Backends.BatchVerdicts, Packages;
    FilterHas(names, h0, true);
    match local
    case Begin => assert Apply(h, NOTHING) == h;
    case AptRemove(todo, _) => ClosureCells(env.apt.removes, todo, names);
    case _ =>
  }

  // ---------- any task ----------

  /** What a task that has run through in an apply run reports, leaves and has called. */
  ghost predicate TaskDone(job: Job, apt: Apt, changed: set<nat>, h0: Host, v: seq<Changed>, h: Host, calls: seq<Call>)
  {
    match job
    case Malformed => false
    case Install(names) => InstallDone(names, apt.installs, h0, v, h, calls)
    case Remove(names) => RemoveDone(names, apt.removes, h0, v, h, calls)
    case Single(r) =>
      match r
      case File(path, content, mode, uid, gid) => FileDone(path, content, mode, uid, gid, h0, v, h) && calls == []
      case SystemdUnit(name, content) =>
        && FileDone("/etc/systemd/system/" + name, content, Some(0x1a4), None, None, h0, v, h)
        && calls == if v == [Yes] then [DaemonReload] else []
      case Directory(path, mode, uid, gid) => DirDone(path, mode, uid, gid, h0, v, h) && calls == []
      case Service(name, enabled, started, restartOn) =>
        ServiceDone(name, enabled, started, restartOn, changed, h0, v, h, calls)
      case Command(argv, triggerOn, program) => CommandDone(argv, triggerOn, program, changed, h0, v, h, calls)
      case Marker => v == [No] && h == h0 && calls == []
      case _ => false
  }

  ghost predicate TaskStage(job: Job, changed: set<nat>, h0: Host, local: Local, h: Host, calls: seq<Call>) {
    match job
    case Malformed => local.Begin?
    case Install(names) => InstallStage(names, h0, local, h, calls)
    case Remove(names) => RemoveStage(names, h0, local, h, calls)
    case Single(r) =>
      if IsFileLike(r) then FileStage(Spec(r), h0, local, h) && calls == []
      else if r.Directory? then DirStage(r, h0, local, h) && calls == []
      else if r.Service? then ServiceStage(r, changed, h0, local, h, calls)
      else if r.Command? then CommandStage(r, changed, h0, local, h, calls)
      else local.Begin? && h == h0 && calls == []
  }

  ghost predicate TaskMoves(job: Job, env: Env, changed: set<nat>, h0: Host, local: Local, h: Host, calls: seq<Call>) {
    match JobStep(job, env, local, h, changed)
    case Next(next, p) => TaskStage(job, changed, h0, next, Apply(h, p), calls + CallsOf(job, local))
    case Finish(v, p) => TaskDone(job, env.apt, changed, h0, v, Apply(h, p), calls + CallsOf(job, local))
    case Fail => true
  }

  /** A unit that was written is always loaded. */
  lemma LoadsWhatItWrites(f: FileSpec, local: Local, h: Host)
    ensures var move := FileStep(f, false, local, h);
            && (move.Next? ==> !local.Reload?)
            && (move.Finish? ==> if move.verdicts == [Yes] then local.Reload? == f.unit else !local.Reload?)
  {
    hide Ancestors, TmpPath, AncestorIsFile, ParentAt, Chowned;
  }

  lemma FileTaskStages(r: Resource, env: Env, changed: set<nat>, h0: Host, local: Local, h: Host)
    requires IsFileLike(r) && !env.dryRun && TaskStage(Single(r), changed, h0, local, h, [])
    ensures TaskMoves(Single(r), env, changed, h0, local, h, [])
  {
    hide FileStep, FileStage, FileDone, Apply;
    FileStages(Spec(r), h0, local, h);
    LoadsWhatItWrites(Spec(r), local, h);
    assert r.SystemdUnit? ==> Spec(r).path == "/etc/systemd/system/" + r.name;
  }

  lemma BatchTaskStages(job: Job, env: Env, changed: set<nat>, h0: Host, local: Local, h: Host, calls: seq<Call>)
    requires !env.dryRun && TaskStage(job, changed, h0, local, h, calls) && !job.Single?
    ensures TaskMoves(job, env, changed, h0, local, h, calls)
  {
    hide AptStep, AbsentStep, Apply, InstallStage, InstallDone, RemoveStage, RemoveDone, CallsOf;
    match job
    case Malformed =>
    case Install(names) => InstallStages(names, env, h0, local, h, calls);
    case Remove(names) => RemoveStages(names, env, h0, local, h, calls);
  }

  lemma SingleTaskStages(r: Resource, env: Env, changed: set<nat>, h0: Host, local: Local, h: Host, calls: seq<Call>)
    requires !env.dryRun && TaskStage(Single(r), changed, h0, local, h, calls) && !IsFileLike(r)
    ensures TaskMoves(Single(r), env, changed, h0, local, h, calls)
  {
    hide FileStep, DirectoryStep, ServiceMove, CommandStep, Apply, FileStage, FileDone, DirStage, DirDone,
         ServiceStage, ServiceDone, CommandStage, CommandDone, Spec;
    if r.Directory? { DirStages(r, h0, local, h); }
    else if r.Service? { ServiceStages(r, changed, h0, local, h, calls); }
    else if r.Command? { CommandStages(r, changed, h0, local, h, calls); }
    else { AppliesNothing(h); }
  }

  lemma TaskStages(job: Job, env: Env, changed: set<nat>, h0: Host, local: Local, h: Host, calls: seq<Call>)
    requires !env.dryRun && TaskStage(job, changed, h0, local, h, calls)
    ensures TaskMoves(job, env, changed, h0, local, h, calls)
  {
    hide TaskMoves, FileStage, DirStage, ServiceStage, CommandStage, InstallStage, RemoveStage, Spec;
    if !job.Single? { BatchTaskStages(job, env, changed, h0, local, h, calls); }
    else if IsFileLike(job.resource) { FileTaskStages(job.resource, env, changed, h0, local, h); }
    else { SingleTaskStages(job.resource, env, changed, h0, local, h, calls); }
  }

  /** The calls a task has made after up to `n` steps with nothing else running. */
  ghost function AloneCalls(plan: Plan, levels: seq<Level>, env: Env, task: Task, host: Host, changed: set<nat>, n: nat)
    : seq<Call>
  {
    if n == 0 then [] else
      var (s, h) := Alone(SystemOf(plan, levels, env), task, host, changed, n - 1);
      AloneCalls(plan, levels, env, task, host, changed, n - 1)
        + if s.Running? then CallsOf(JobOf(plan, task), s.local) else []
  }

  /** So a task of an apply run that finishes on its own has done exactly what its resource says. */
  lemma {:induction false} TaskHasDone(plan: Plan, levels: seq<Level>, env: Env, task: Task, host: Host,
                                       changed: set<nat>, n: nat)
    requires !env.dryRun
    ensures var (s, h) := Alone(SystemOf(plan, levels, env), task, host, changed, n);
            var calls := AloneCalls(plan, levels, env, task, host, changed, n);
            && (s.Running? ==> TaskStage(JobOf(plan, task), changed, host, s.local, h, calls))
            && (s.Finished? ==> TaskDone(JobOf(plan, task), env.apt, changed, host, s.verdicts, h, calls))
    decreases n
  {
    hide JobStep, JobShadow, JobSenses, JobWrites, JobMakes, JobOf, Hints, Apply, TaskStage, TaskDone, CallsOf;
    if n == 0 {
      TaskBegins(JobOf(plan, task), changed, host);
    } else {
      TaskHasDone(plan, levels, env, task, host, changed, n - 1);
      var (s, h) := Alone(SystemOf(plan, levels, env), task, host, changed, n - 1);
      var calls := AloneCalls(plan, levels, env, task, host, changed, n - 1);
      assert calls + [] == calls;
      if s.Running? { TaskStages(JobOf(plan, task), env, changed, host, s.local, h, calls); }
    }
  }

  lemma TaskBegins(job: Job, changed: set<nat>, host: Host)
    ensures TaskStage(job, changed, host, Begin, host, [])
  {
  }

  /** What a converge sets out to mend, in the fields of the resource. */
  lemma NeedsWorkInFields(r: Resource, h: Host)
    ensures NeedsWork(r, h) <==>
            match r
            case File(path, content, mode, uid, gid) => !FileIsWanted(path, content, mode, uid, gid, h)
            case SystemdUnit(name, content) =>
              !FileIsWanted("/etc/systemd/system/" + name, content, Some(0x1a4), None, None, h)
            case Directory(path, mode, uid, gid) => !DirIsWanted(path, mode, uid, gid, h)
            case Service(name, enabled, started, _) =>
              (enabled && Cell.Enabled(name) !in h) || (started && Active(name) !in h)
            case AptPackage(name) => Package(name) !in h
            case AbsentAptPackage(name) => Package(name) in h
            case _ => false
  {
  }
}
