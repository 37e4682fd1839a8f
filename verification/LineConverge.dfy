/** `LineInFile::converge_one` (src/backends/line_in_file.rs) as the steps it takes on the
    host: read, compute, write the temp file, rename. */
module LineConverge {
  import opened HostModel
  import opened Run
  import opened RunSchedule
  import opened Backends
  import opened LineInFile

  /** `pattern` is absent where the regular expression does not compile. */
  datatype LineJob = LineJob(path: string, pattern: Option<Pattern>, line: string)

  datatype LineLocal = LineBegin | LineCreate(text: string) | LineFill(text: string, written: nat)
    | LineRename(text: string)

  function LineStep(job: LineJob, dryRun: bool, local: LineLocal, h: Host): Move<LineLocal> {
    var tmp := TmpPath(job.path);
    match local
    case LineBegin =>
      var current := FileOf(h, job.path);
      if current.None? || DirAt(job.path) in h || job.pattern.None? then Fail else
      var text := NewContent(current.value.content, job.pattern.value, job.line);
      if text == current.value.content then Finish([No], NOTHING)
      else if dryRun then Finish([Yes], NOTHING)
      else Next(LineCreate(text), NOTHING)
    case LineCreate(text) =>
      if DirAt(tmp) in h then Fail
      else Next(LineFill(text, 0), Put(FileAt(tmp), if FileOf(h, tmp).Some? then FileOf(h, tmp).value.(content := "")
                                                    else FRESH_FILE))
    case LineFill(text, n) =>
      var v := FileOf(h, tmp);
      if v.None? then Fail
      else if n < |text| then Next(LineFill(text, n + 1), Put(FileAt(tmp), v.value.(content := text[..n + 1])))
      else Next(LineRename(text), NOTHING)
    case LineRename(text) =>
      var v := FileOf(h, tmp);
      if v.None? || DirAt(job.path) in h then Fail
      else Finish([Yes], Patch(map[FileAt(job.path) := v.value], {FileAt(tmp)}, {}))
  }

  function LineSystem(job: LineJob, dryRun: bool): System<LineLocal, ()> {
    System([], [], LineBegin,
           (task, local, h, changed) => LineStep(job, dryRun, local, h),
           (task, local, h, m) => m,
           task => iset{}, task => iset{}, task => iset{})
  }

  /** The resource alone, after up to `n` steps. */
  function LineRun(job: LineJob, dryRun: bool, host: Host, n: nat): (TaskState<LineLocal>, Host) {
    Alone(LineSystem(job, dryRun), Task([0]), host, {}, n)
  }

  /** The attributes the temp file is created with, or keeps if it is there already. */
  function TmpAttributes(host: Host, path: string): Val {
    if FileOf(host, TmpPath(path)).Some? then FileOf(host, TmpPath(path)).value else FRESH_FILE
  }

  predicate SameAttributes(a: Val, b: Val) {
    a.FileVal? && b.FileVal? && a.mode == b.mode && a.uid == b.uid && a.gid == b.gid
  }

  /** Only the target and its temp file may differ. */
  ghost predicate OnlyLineFiles(job: LineJob, host: Host, h: Host) {
    forall c :: c != FileAt(job.path) && c != FileAt(TmpPath(job.path)) ==> Same(host, h, c)
  }

  /** How far the edit has come. `wanted` is the new content. */
  ghost predicate LineProgress(job: LineJob, dryRun: bool, host: Host, s: TaskState<LineLocal>, h: Host, prior: string,
                               wanted: string) {
    var tmp := FileOf(h, TmpPath(job.path));
    match s
    case Running(LineBegin) => h == host
    case Running(LineCreate(text)) => h == host && !dryRun && text == wanted != prior
    case Running(LineFill(text, n)) =>
      !dryRun && text == wanted != prior && FileOf(h, job.path) == FileOf(host, job.path) && n <= |text|
      && tmp.Some? && tmp.value.content == text[..n] && SameAttributes(tmp.value, TmpAttributes(host, job.path))
    case Running(LineRename(text)) =>
      !dryRun && text == wanted != prior && FileOf(h, job.path) == FileOf(host, job.path)
      && tmp.Some? && tmp.value.content == text && SameAttributes(tmp.value, TmpAttributes(host, job.path))
    case Finished(v) =>
      if prior == wanted then v == [No] && h == host
      else if dryRun then v == [Yes] && h == host
      else v == [Yes] && tmp.None? && FileOf(h, job.path).Some?
           && FileOf(h, job.path).value.content == wanted
           && SameAttributes(FileOf(h, job.path).value, TmpAttributes(host, job.path))
    case Failed => FileOf(h, job.path) == FileOf(host, job.path) && (dryRun ==> h == host)
    case _ => false
  }

  lemma StepKeepsOthers(job: LineJob, dryRun: bool, host: Host, local: LineLocal, h: Host)
    requires OnlyLineFiles(job, host, h)
    ensures OnlyLineFiles(job, host, HostAfter(h, LineStep(job, dryRun, local, h)))
  {
    hide NewContent, TmpPath;
    var move := LineStep(job, dryRun, local, h);
    if !move.Fail? {
      var after := Apply(h, move.patch);
      forall c | c != FileAt(job.path) && c != FileAt(TmpPath(job.path)) ensures Same(host, after, c) {
        assert Same(host, h, c);
        assert c !in move.patch.put && c !in move.patch.del && c !in move.patch.make;
      }
    }
  }

  lemma LineStepProgresses(job: LineJob, dryRun: bool, host: Host, local: LineLocal, h: Host, prior: string,
                           wanted: string)
    requires LineProgress(job, dryRun, host, Running(local), h, prior, wanted) && OnlyLineFiles(job, host, h)
    requires FileOf(host, job.path).Some? && FileOf(host, job.path).value.content == prior
    requires job.pattern.Some? ==> wanted == NewContent(prior, job.pattern.value, job.line)
    ensures var move := LineStep(job, dryRun, local, h);
            LineProgress(job, dryRun, host, After(Task([0]), move), HostAfter(h, move), prior, wanted)
  {
    hide NewContent, TmpPath, OnlyLineFiles;
    assert Apply(h, NOTHING) == h;
    TmpDiffers(job.path);
    if local.LineFill? && local.written == |local.text| { assert local.text[..|local.text|] == local.text; }
  }

  /** At every point, and so wherever a crash cuts it: the target is whole, old or new;
      nothing but the target and its temp file is touched; a dry run touches nothing.
      It reports Yes exactly if the content changes, and a finished Yes leaves the new
      content, with the attributes of the temp file: the old mode and owner are lost. */
  lemma {:induction false} LineEditIsAtomic(job: LineJob, dryRun: bool, host: Host, n: nat)
    requires FileOf(host, job.path).Some? && job.pattern.Some?
    ensures var (s, h) := LineRun(job, dryRun, host, n);
            var prior := FileOf(host, job.path).value.content;
            var wanted := NewContent(prior, job.pattern.value, job.line);
            LineProgress(job, dryRun, host, s, h, prior, wanted) && OnlyLineFiles(job, host, h)
    decreases n
  {
    hide NewContent, LineStep, LineProgress, OnlyLineFiles;
    var prior := FileOf(host, job.path).value.content;
    var wanted := NewContent(prior, job.pattern.value, job.line);
    if n == 0 {
      LineStarts(job, dryRun, host, prior, wanted);
    } else {
      LineEditIsAtomic(job, dryRun, host, n - 1);
      var (s, h) := LineRun(job, dryRun, host, n - 1);
      if s.Running? {
        LineStepProgresses(job, dryRun, host, s.local, h, prior, wanted);
        StepKeepsOthers(job, dryRun, host, s.local, h);
      }
    }
  }

  /** The attributes of the file survive a finished edit exactly if they are those that the
      temp file has anyway. */
  lemma LineEditKeepsAttributesIff(job: LineJob, host: Host, n: nat)
    requires FileOf(host, job.path).Some? && job.pattern.Some?
    requires LineRun(job, false, host, n).0 == Finished([Yes])
    ensures var h := LineRun(job, false, host, n).1;
            FileOf(h, job.path).Some?
            && (SameAttributes(FileOf(host, job.path).value, FileOf(h, job.path).value)
                <==> SameAttributes(FileOf(host, job.path).value, TmpAttributes(host, job.path)))
  {
    hide NewContent, LineStep;
    LineEditIsAtomic(job, false, host, n);
  }

  lemma LineStarts(job: LineJob, dryRun: bool, host: Host, prior: string, wanted: string)
    ensures LineProgress(job, dryRun, host, Running(LineBegin), host, prior, wanted) && OnlyLineFiles(job, host, host)
  {
  }

  /** A missing file, or a pattern that does not compile, is an error, and nothing is changed. */
  lemma {:induction false} LineEditRefuses(job: LineJob, dryRun: bool, host: Host, n: nat)
    requires n > 0 && (FileOf(host, job.path).None? || job.pattern.None?)
    ensures LineRun(job, dryRun, host, n) == (Failed, host)
    decreases n
  {
    if n > 1 {
      LineEditRefuses(job, dryRun, host, n - 1);
    } else {
      assert LineRun(job, dryRun, host, 0) == (Running(LineBegin), host);
    }
  }

  /** What the edit needs to find: the file and a pattern, and no directory in the way, neither at
      its path nor, if it has to write, at its temp path. */
  predicate LineFits(job: LineJob, dryRun: bool, host: Host) {
    && FileAt(job.path) in host && host[FileAt(job.path)].FileVal? && DirAt(job.path) !in host && job.pattern.Some?
    && var prior := host[FileAt(job.path)].content;
       dryRun || NewContent(prior, job.pattern.value, job.line) == prior
       || DirAt(job.path + ".tmp.host-setup") !in host
  }

  /** Nothing is in the way of the next step, and so many steps are left at most. */
  ghost predicate GoesOn(job: LineJob, dryRun: bool, host: Host, wanted: string, local: LineLocal, h: Host, left: int) {
    DirAt(job.path) !in h &&
    match local
    case LineBegin => h == host && left >= |wanted| + 4
    case LineCreate(text) => text == wanted && DirAt(TmpPath(job.path)) !in h && left >= |wanted| + 3
    case LineFill(text, n) =>
      text == wanted && n <= |text| && FileOf(h, TmpPath(job.path)).Some? && left >= |wanted| - n + 2
    case LineRename(text) => FileOf(h, TmpPath(job.path)).Some? && left >= 1
  }

  lemma LineStepGoesOn(job: LineJob, dryRun: bool, host: Host, wanted: string, local: LineLocal, h: Host, left: int)
    requires LineFits(job, dryRun, host) && GoesOn(job, dryRun, host, wanted, local, h, left)
    requires wanted == NewContent(host[FileAt(job.path)].content, job.pattern.value, job.line)
    ensures match LineStep(job, dryRun, local, h)
            case Next(next, p) => GoesOn(job, dryRun, host, wanted, next, Apply(h, p), left - 1)
            case Finish(v, _) => |v| == 1
            case Fail => false
  {
    hide NewContent;
    assert TmpPath(job.path) == job.path + ".tmp.host-setup";
  }

  lemma {:induction false} LineRunGoesOn(job: LineJob, dryRun: bool, host: Host, n: nat)
    requires LineFits(job, dryRun, host)
    ensures var wanted := NewContent(host[FileAt(job.path)].content, job.pattern.value, job.line);
            var (s, h) := LineRun(job, dryRun, host, n);
            s.Finished? || (s.Running? && GoesOn(job, dryRun, host, wanted, s.local, h, |wanted| + 4 - n))
    decreases n
  {
    hide NewContent, LineStep, LineFits, GoesOn, Apply;
    var wanted := NewContent(PriorOf(job, dryRun, host), job.pattern.value, job.line);
    if n == 0 {
      GoesFromStart(job, dryRun, host, wanted);
    } else {
      LineRunGoesOn(job, dryRun, host, n - 1);
      var (s, h) := LineRun(job, dryRun, host, n - 1);
      if s.Running? { LineStepGoesOn(job, dryRun, host, wanted, s.local, h, |wanted| + 4 - (n - 1)); }
    }
  }

  function PriorOf(job: LineJob, dryRun: bool, host: Host): string
    requires LineFits(job, dryRun, host)
    ensures job.pattern.Some? && FileAt(job.path) in host && host[FileAt(job.path)].FileVal?
    ensures PriorOf(job, dryRun, host) == host[FileAt(job.path)].content
  {
    host[FileAt(job.path)].content
  }

  lemma GoesFromStart(job: LineJob, dryRun: bool, host: Host, wanted: string)
    requires LineFits(job, dryRun, host)
    ensures GoesOn(job, dryRun, host, wanted, LineBegin, host, |wanted| + 4)
  {
    hide NewContent;
  }

  lemma NotFitsFails(job: LineJob, dryRun: bool, host: Host)
    requires !LineFits(job, dryRun, host)
    ensures LineRun(job, dryRun, host, 2).0.Failed?
  {
    hide NewContent;
    assert TmpPath(job.path) == job.path + ".tmp.host-setup";
    assert Apply(host, NOTHING) == host;
    assert LineRun(job, dryRun, host, 0) == (Running(LineBegin), host);
    var one := LineRun(job, dryRun, host, 1);
    assert one.0.Failed? || (one.0.Running? && one.0.local.LineCreate? && one.1 == host);
  }

  /** The edit gets through if and only if it finds what it needs. */
  lemma LineEditFinishesIff(job: LineJob, dryRun: bool, host: Host)
    ensures (exists n: nat :: LineRun(job, dryRun, host, n).0.Finished?) <==> LineFits(job, dryRun, host)
  {
    hide NewContent, LineStep, LineFits;
    if LineFits(job, dryRun, host) {
      var wanted := NewContent(PriorOf(job, dryRun, host), job.pattern.value, job.line);
      LineRunGoesOn(job, dryRun, host, |wanted| + 5);
      assert LineRun(job, dryRun, host, |wanted| + 5).0.Finished?;
    } else {
      NotFitsFails(job, dryRun, host);
      if n: nat :| LineRun(job, dryRun, host, n).0.Finished? {
        AloneUnique(LineSystem(job, dryRun), Task([0]), host, {}, n, 2);
      }
    }
  }

  /** The dry run and the apply run that finish report the same, and a second run
      reports No exactly if the first one reached a fixed point of the edit. */
  lemma LineEditAgain(job: LineJob, host: Host, m: nat, n: nat, k: nat)
    requires FileOf(host, job.path).Some? && job.pattern.Some?
    requires LineRun(job, true, host, m).0.Finished? && LineRun(job, false, host, n).0.Finished?
    requires LineRun(job, false, LineRun(job, false, host, n).1, k).0.Finished?
    ensures LineRun(job, true, host, m).0 == LineRun(job, false, host, n).0
    ensures var once := NewContent(FileOf(host, job.path).value.content, job.pattern.value, job.line);
            LineRun(job, false, LineRun(job, false, host, n).1, k).0 == Finished([No])
            <==> NewContent(once, job.pattern.value, job.line) == once
  {
    LineEditIsAtomic(job, true, host, m);
    LineEditIsAtomic(job, false, host, n);
    var after := LineRun(job, false, host, n).1;
    hide NewContent, LineRun, OnlyLineFiles;
    LineEditIsAtomic(job, false, after, k);
  }
}
