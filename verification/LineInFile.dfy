/** Editing one line of a file (`compute_new_content` in src/backends/line_in_file.rs).
    The regular expression is an arbitrary predicate on lines. Carriage returns make
    the edit take more than one run to settle, because `lines()` drops one CR before
    every LF. */
module LineInFile {

  type Pattern = string -> bool

  const LF := '\n'
  const CR := '\r'

  function StripCr(s: string): string {
    if s != "" && s[|s| - 1] == CR then s[..|s| - 1] else s
  }

  function FirstLf(s: string): (i: nat)
    ensures i <= |s| && (i < |s| ==> s[i] == LF) && LF !in s[..i]
    ensures LF !in s ==> i == |s|
  {
    if s == "" || s[0] == LF then 0 else 1 + FirstLf(s[1..])
  }

  /** `str::lines`: split after every LF, drop the LF and one CR before it. A last line
      without LF is kept as it is; there is none after a final LF. */
  function Lines(s: string): seq<string>
    decreases |s|
  {
    var i := FirstLf(s);
    if s == "" then [] else if i == |s| then [s] else [StripCr(s[..i])] + Lines(s[i + 1..])
  }

  function Replaced(l: string, matches: Pattern, line: string): string {
    if matches(l) then line else l
  }

  predicate AnyMatch(ls: seq<string>, matches: Pattern) {
    exists l :: l in ls && matches(l)
  }

  /** Every line, replaced where it matches, followed by LF. */
  function Render(ls: seq<string>, matches: Pattern, line: string): string {
    if ls == [] then "" else Render(ls[..|ls| - 1], matches, line) + Replaced(ls[|ls| - 1], matches, line) + [LF]
  }

  predicate EndsWithLf(s: string) { s != "" && s[|s| - 1] == LF }

  function NewContent(current: string, matches: Pattern, line: string): string {
    if AnyMatch(Lines(current), matches) then
      var out := Render(Lines(current), matches, line);
      if !EndsWithLf(current) && out != "" then out[..|out| - 1] else out
    else
      current + (if current != "" && !EndsWithLf(current) then [LF] else "") + line + [LF]
  }

  method ComputeNewContent(current: string, matches: Pattern, line: string) returns (out: string)
    ensures out == NewContent(current, matches, line)
  {
    var lines := Lines(current);
    var anyMatch := false;
    for i := 0 to |lines|
      invariant anyMatch <==> AnyMatch(lines[..i], matches)
    {
      assert lines[..i + 1] == lines[..i] + [lines[i]];
      if matches(lines[i]) {
        anyMatch := true;
      }
    }
    assert lines[..|lines|] == lines;
    out := "";
    if anyMatch {
      for i := 0 to |lines|
        invariant out == Render(lines[..i], matches, line)
      {
        assert lines[..i + 1][..i] == lines[..i];
        if matches(lines[i]) {
          out := out + line;
        } else {
          out := out + lines[i];
        }
        out := out + [LF];
      }
      if !EndsWithLf(current) && out != "" {
        out := out[..|out| - 1];
      }
    } else {
      out := current;
      if current != "" && !EndsWithLf(current) {
        out := out + [LF];
      }
      out := out + line;
      out := out + [LF];
    }
  }

  // ---------- a text as its raw lines ----------

  /** The lines that end in LF, and what follows the last LF. */
  datatype Text = Text(lines: seq<string>, rest: string)

  function Parse(s: string): Text
    decreases |s|
  {
    var i := FirstLf(s);
    if i == |s| then Text([], s) else
      var t := Parse(s[i + 1..]);
      Text([s[..i]] + t.lines, t.rest)
  }

  function Unparse(t: Text): string
    decreases |t.lines|
  {
    if t.lines == [] then t.rest else t.lines[0] + [LF] + Unparse(Text(t.lines[1..], t.rest))
  }

  ghost predicate Proper(t: Text) {
    (forall l :: l in t.lines ==> LF !in l) && LF !in t.rest
  }

  lemma UnparseCons(l: string, t: Text)
    ensures Unparse(Text([l] + t.lines, t.rest)) == l + [LF] + Unparse(t)
  {
    assert ([l] + t.lines)[1..] == t.lines;
  }

  lemma {:induction false} ParseUnparse(s: string)
    ensures Proper(Parse(s)) && Unparse(Parse(s)) == s
    decreases |s|
  {
    hide Unparse, Parse, FirstLf;
    var i := FirstLf(s);
    if i < |s| {
      ParseUnparse(s[i + 1..]);
      ParseStep(s);
      UnparseCons(s[..i], Parse(s[i + 1..]));
      assert s == s[..i] + [LF] + s[i + 1..];
    } else {
      ParseLast(s);
      UnparseNoLines(s);
    }
  }

  lemma ParseLast(s: string)
    requires FirstLf(s) == |s|
    ensures Parse(s) == Text([], s) && LF !in s
  {
    hide FirstLf;
    assert s[..|s|] == s;
  }

  lemma UnparseNoLines(rest: string)
    ensures Unparse(Text([], rest)) == rest
  {
  }

  lemma {:induction false} FirstLfOf(l: string, tail: string)
    requires LF !in l
    ensures FirstLf(l + [LF] + tail) == |l|
  {
    if l != "" {
      assert l[0] in l;
      FirstLfOf(l[1..], tail);
      assert (l + [LF] + tail)[1..] == l[1..] + [LF] + tail;
    }
  }

  lemma {:induction false} UnparseParse(t: Text)
    requires Proper(t)
    ensures Parse(Unparse(t)) == t
    decreases |t.lines|
  {
    hide Unparse;
    if t.lines == [] {
      UnparseNoLines(t.rest);
    } else {
      var l, more := t.lines[0], Text(t.lines[1..], t.rest);
      assert t.lines == [l] + more.lines;
      assert l in t.lines;
      UnparseCons(l, more);
      UnparseParse(more);
      ParseCons(l, Unparse(more));
    }
  }

  lemma ParseCons(l: string, tail: string)
    requires LF !in l
    ensures Parse(l + [LF] + tail) == Text([l] + Parse(tail).lines, Parse(tail).rest)
  {
    FirstLfOf(l, tail);
    var s := l + [LF] + tail;
    assert s[..|l|] == l && s[|l| + 1..] == tail;
  }

  function StripAll(ls: seq<string>): (r: seq<string>)
    ensures |r| == |ls| && forall i :: 0 <= i < |r| ==> r[i] == StripCr(ls[i])
  {
    if ls == [] then [] else [StripCr(ls[0])] + StripAll(ls[1..])
  }

  function ReplaceAll(ls: seq<string>, matches: Pattern, line: string): (r: seq<string>)
    ensures |r| == |ls| && forall i :: 0 <= i < |r| ==> r[i] == Replaced(ls[i], matches, line)
  {
    if ls == [] then [] else [Replaced(ls[0], matches, line)] + ReplaceAll(ls[1..], matches, line)
  }

  /** All raw lines, the unfinished last one included. */
  function Raw(t: Text): seq<string> { t.lines + if t.rest == "" then [] else [t.rest] }

  /** What `lines()` yields of a text. */
  function Seen(t: Text): seq<string> { StripAll(t.lines) + if t.rest == "" then [] else [t.rest] }

  lemma {:induction false} LinesAreSeen(s: string)
    ensures Lines(s) == Seen(Parse(s))
    decreases |s|
  {
    hide Seen, Parse, FirstLf;
    if FirstLf(s) < |s| {
      LinesAreSeen(s[FirstLf(s) + 1..]);
      SeenStep(s);
    } else {
      SeenLast(s);
    }
  }

  lemma SeenStep(s: string)
    requires FirstLf(s) < |s|
    ensures Seen(Parse(s)) == [StripCr(s[..FirstLf(s)])] + Seen(Parse(s[FirstLf(s) + 1..]))
  {
    hide FirstLf, Seen, Parse, StripCr;
    ParseStep(s);
    SeenCons(s[..FirstLf(s)], Parse(s[FirstLf(s) + 1..]));
  }

  lemma ParseStep(s: string)
    requires FirstLf(s) < |s|
    ensures var t := Parse(s[FirstLf(s) + 1..]); Parse(s) == Text([s[..FirstLf(s)]] + t.lines, t.rest)
  {
    hide FirstLf;
  }

  lemma SeenCons(l: string, t: Text)
    ensures Seen(Text([l] + t.lines, t.rest)) == [StripCr(l)] + Seen(t)
  {
    hide StripAll, StripCr;
    StripAllCons(l, t.lines);
  }

  lemma StripAllCons(l: string, ls: seq<string>)
    ensures StripAll([l] + ls) == [StripCr(l)] + StripAll(ls)
  {
    hide StripCr;
    assert ([l] + ls)[1..] == ls;
  }

  lemma SeenLast(s: string)
    requires FirstLf(s) == |s|
    ensures Seen(Parse(s)) == if s == "" then [] else [s]
  {
    hide FirstLf;
  }

  /** The edit on raw lines. */
  function Edit(t: Text, matches: Pattern, line: string): Text {
    if AnyMatch(Seen(t), matches) then
      Text(ReplaceAll(StripAll(t.lines), matches, line), if t.rest == "" then "" else Replaced(t.rest, matches, line))
    else
      Text(Raw(t) + [line], "")
  }

  lemma {:induction false} UnparseAppend(ls: seq<string>, l: string, rest: string)
    ensures Unparse(Text(ls + [l], rest)) == Unparse(Text(ls, "")) + l + [LF] + rest
    decreases |ls|
  {
    if ls != [] {
      assert (ls + [l])[1..] == ls[1..] + [l];
      UnparseAppend(ls[1..], l, rest);
    } else {
      assert Text([l], rest).lines[1..] == [];
    }
  }

  lemma {:induction false} UnparseRest(ls: seq<string>, rest: string)
    ensures Unparse(Text(ls, rest)) == Unparse(Text(ls, "")) + rest
    decreases |ls|
  {
    if ls != [] { UnparseRest(ls[1..], rest); }
  }

  lemma ReplaceAllSnoc(ls: seq<string>, l: string, matches: Pattern, line: string)
    ensures ReplaceAll(ls + [l], matches, line) == ReplaceAll(ls, matches, line) + [Replaced(l, matches, line)]
  {
  }

  lemma {:induction false} RenderIsUnparse(ls: seq<string>, matches: Pattern, line: string)
    ensures Render(ls, matches, line) == Unparse(Text(ReplaceAll(ls, matches, line), ""))
    decreases |ls|
  {
    hide Unparse, ReplaceAll, Replaced;
    if ls == [] {
      UnparseNoLines("");
      ReplaceNone(matches, line);
    } else {
      var init, last := ls[..|ls| - 1], ls[|ls| - 1];
      RenderIsUnparse(init, matches, line);
      UnparseAppend(ReplaceAll(init, matches, line), Replaced(last, matches, line), "");
      ReplaceAllSnoc(init, last, matches, line);
      assert ls == init + [last];
    }
  }

  lemma ReplaceNone(matches: Pattern, line: string)
    ensures ReplaceAll([], matches, line) == []
  {
  }

  /** Where the rest is empty the text ends with LF, and the other way round. */
  lemma {:induction false} EndsWithLfOf(s: string)
    ensures EndsWithLf(s) <==> s != "" && Parse(s).rest == ""
    decreases |s|
  {
    var i := FirstLf(s);
    if i < |s| {
      EndsWithLfOf(s[i + 1..]);
      if s[i + 1..] == "" {
        assert i == |s| - 1;
      } else {
        assert s[|s| - 1] == s[i + 1..][|s[i + 1..]| - 1];
      }
    } else if s != "" {
      assert s[|s| - 1] in s[..i];
    }
  }

  /** The string edit is the edit on raw lines. */
  lemma EditIsNewContent(current: string, matches: Pattern, line: string)
    ensures NewContent(current, matches, line) == Unparse(Edit(Parse(current), matches, line))
  {
    hide Unparse, Parse, Lines, Render, ReplaceAll, StripAll, Replaced;
    var t := Parse(current);
    LinesAreSeen(current);
    EndsWithLfOf(current);
    ParseUnparse(current);
    if AnyMatch(Seen(t), matches) {
      RenderIsUnparse(Seen(t), matches, line);
      if t.rest != "" {
        ReplaceAllSnoc(StripAll(t.lines), t.rest, matches, line);
        UnparseAppend(ReplaceAll(StripAll(t.lines), matches, line), Replaced(t.rest, matches, line), "");
        UnparseRest(ReplaceAll(StripAll(t.lines), matches, line), Replaced(t.rest, matches, line));
        OnlyEmptyParsesEmpty(current);
      } else {
        assert Seen(t) == StripAll(t.lines);
        OnlyEmptyParsesEmpty(current);
      }
    } else {
      UnparseAppend(Raw(t), line, "");
      UnparseRest(t.lines, t.rest);
      if t.rest != "" { UnparseAppend(t.lines, t.rest, ""); } else { assert Raw(t) == t.lines; }
      OnlyEmptyParsesEmpty(current);
    }
  }

  lemma OnlyEmptyParsesEmpty(s: string)
    ensures s == "" ==> Parse(s) == Text([], "")
    ensures s == "" <==> Raw(Parse(s)) == []
    ensures s != "" && !EndsWithLf(s) ==> Parse(s).rest != ""
  {
    EndsWithLfOf(s);
  }

  // ---------- one line after another ----------

  /** The pattern finds the line again where an edit has written it before an LF. */
  predicate Kept(line: string, matches: Pattern) { matches(StripCr(line)) }

  /** The pattern finds the line again where an edit has written it as an unfinished last line. */
  predicate KeptLast(line: string, matches: Pattern) { line != "" && matches(line) }

  /** Some line that ends in LF matches, as `lines()` yields it. */
  ghost predicate Found(t: Text, matches: Pattern) {
    exists l :: l in t.lines && matches(StripCr(l))
  }

  /** The unfinished last line matches. */
  predicate RestMatches(t: Text, matches: Pattern) { t.rest != "" && matches(t.rest) }

  /** A match that the edit does not take away from the next run. */
  ghost predicate Lasting(t: Text, matches: Pattern, line: string) {
    (Found(t, matches) && Kept(line, matches)) || (RestMatches(t, matches) && KeptLast(line, matches))
  }

  lemma {:induction false} StrippedSeen(ls: seq<string>, matches: Pattern)
    ensures AnyMatch(StripAll(ls), matches) <==> exists l :: l in ls && matches(StripCr(l))
  {
    var seen := StripAll(ls);
    if l :| l in ls && matches(StripCr(l)) {
      var i :| 0 <= i < |ls| && ls[i] == l;
      assert seen[i] in seen;
    }
    if m :| m in seen && matches(m) {
      var i :| 0 <= i < |seen| && seen[i] == m;
      assert ls[i] in ls;
    }
  }

  lemma SeenMatches(t: Text, matches: Pattern)
    ensures AnyMatch(Seen(t), matches) <==> Found(t, matches) || RestMatches(t, matches)
  {
    hide StripAll;
    StrippedSeen(t.lines, matches);
    forall l ensures l in Seen(t) <==> l in StripAll(t.lines) || (t.rest != "" && l == t.rest) {}
  }

  /** What a run that finds a match makes of a line that ends in LF. */
  function Next(l: string, matches: Pattern, line: string): string { Replaced(StripCr(l), matches, line) }

  function LineAfter(l: string, matches: Pattern, line: string, n: nat): string
    decreases n
  {
    if n == 0 then l else LineAfter(Next(l, matches, line), matches, line, n - 1)
  }

  lemma {:induction false} AfterSnoc(l: string, matches: Pattern, line: string, n: nat)
    ensures LineAfter(l, matches, line, n + 1) == Next(LineAfter(l, matches, line, n), matches, line)
    decreases n
  {
    hide Next;
    if n > 0 { AfterSnoc(Next(l, matches, line), matches, line, n - 1); }
  }

  /** A matching edit, line by line. */
  lemma MatchingEdit(t: Text, matches: Pattern, line: string)
    requires Found(t, matches) || RestMatches(t, matches)
    ensures var t' := Edit(t, matches, line);
            && |t'.lines| == |t.lines| && (forall i :: 0 <= i < |t.lines| ==>
                                             t'.lines[i] == Next(t.lines[i], matches, line))
            && t'.rest == if t.rest == "" then "" else Replaced(t.rest, matches, line)
  {
    hide Seen, AnyMatch, StripCr, Found;
    SeenMatches(t, matches);
  }

  /** The other edit adds the line, and the last line gets its LF. */
  lemma AppendingEdit(t: Text, matches: Pattern, line: string)
    requires !Found(t, matches) && !RestMatches(t, matches)
    ensures Edit(t, matches, line) == Text(Raw(t) + [line], "") && |Raw(t)| >= |t.lines|
    ensures Edit(t, matches, line) != t
  {
    hide Seen, AnyMatch, Found;
    SeenMatches(t, matches);
  }

  /** A lasting match lasts. */
  lemma LastingStays(t: Text, matches: Pattern, line: string)
    requires Lasting(t, matches, line)
    ensures Lasting(Edit(t, matches, line), matches, line)
  {
    hide Edit, StripCr;
    MatchingEdit(t, matches, line);
    if Found(t, matches) && Kept(line, matches) {
      var l :| l in t.lines && matches(StripCr(l));
      var i :| 0 <= i < |t.lines| && t.lines[i] == l;
      assert Edit(t, matches, line).lines[i] == line;
    }
  }

  function Runs(t: Text, matches: Pattern, line: string, n: nat): Text {
    if n == 0 then t else Edit(Runs(t, matches, line, n - 1), matches, line)
  }

  lemma {:induction false} RunsShift(t: Text, matches: Pattern, line: string, n: nat)
    ensures Runs(t, matches, line, n + 1) == Runs(Edit(t, matches, line), matches, line, n)
    decreases n
  {
    hide Edit;
    if n > 0 { RunsShift(t, matches, line, n - 1); }
  }

  /** Runs that find a match work line by line. */
  lemma {:induction false} RunsLineByLine(t: Text, matches: Pattern, line: string, n: nat)
    requires Lasting(t, matches, line)
    ensures var t' := Runs(t, matches, line, n);
            && Lasting(t', matches, line) && |t'.lines| == |t.lines|
            && (forall i :: 0 <= i < |t.lines| ==> t'.lines[i] == LineAfter(t.lines[i], matches, line, n))
            && t'.rest == if t.rest == "" || n == 0 then t.rest else Replaced(t.rest, matches, line)
    decreases n
  {
    hide Edit, Lasting, Found, Next;
    if n > 0 {
      var t0 := Runs(t, matches, line, n - 1);
      RunsLineByLine(t, matches, line, n - 1);
      LastingStays(t0, matches, line);
      LastingMatches(t0, matches, line);
      MatchingEdit(t0, matches, line);
      forall i | 0 <= i < |t.lines|
        ensures Edit(t0, matches, line).lines[i] == LineAfter(t.lines[i], matches, line, n)
      {
        AfterSnoc(t.lines[i], matches, line, n - 1);
      }
    }
  }

  lemma LastingMatches(t: Text, matches: Pattern, line: string)
    requires Lasting(t, matches, line)
    ensures Found(t, matches) || RestMatches(t, matches)
  {
  }

  /** The last line, which has no LF, is at most replaced, and only by the first run. */
  predicate RestIsDone(t: Text, matches: Pattern, line: string, n: nat) {
    n > 0 || !RestMatches(t, matches) || t.rest == line
  }

  /** No line is changed by run `n` + 1. */
  ghost predicate LinesAreDone(ls: seq<string>, matches: Pattern, line: string, n: nat) {
    forall l :: l in ls ==> LineAfter(l, matches, line, n + 1) == LineAfter(l, matches, line, n)
  }

  lemma LastingSettles(t: Text, matches: Pattern, line: string, n: nat)
    requires Lasting(t, matches, line)
    ensures Runs(t, matches, line, n + 1) == Runs(t, matches, line, n) <==>
            LinesAreDone(t.lines, matches, line, n) && RestIsDone(t, matches, line, n)
  {
    hide Lasting, Runs, LineAfter;
    var now, next := Runs(t, matches, line, n), Runs(t, matches, line, n + 1);
    RunsLineByLine(t, matches, line, n);
    RunsLineByLine(t, matches, line, n + 1);
    if LinesAreDone(t.lines, matches, line, n) {
      assert next.lines == now.lines;
    }
    if next.lines == now.lines {
      forall l | l in t.lines ensures LineAfter(l, matches, line, n + 1) == LineAfter(l, matches, line, n) {
        var i :| 0 <= i < |t.lines| && t.lines[i] == l;
      }
    }
  }

  // ---------- how many runs a line needs ----------

  /** Length of the run of CRs at the end. */
  function CrRun(s: string): nat {
    if s != "" && s[|s| - 1] == CR then 1 + CrRun(s[..|s| - 1]) else 0
  }

  function Less(k: nat): nat { if k == 0 then 0 else k - 1 }

  lemma StripLowersRun(l: string)
    ensures CrRun(StripCr(l)) == Less(CrRun(l))
    ensures CrRun(l) == 0 <==> StripCr(l) == l
  {
  }

  lemma CrFreeRun(line: string)
    requires CR !in line
    ensures CrRun(line) == 0 && StripCr(line) == line
  {
    if line != "" { assert line[|line| - 1] in line; }
  }

  /** How many runs change the line, if the line written is found again: one takes a CR off it,
      or replaces it if the pattern matches what is left of it; the wanted line is never changed. */
  function RunsNeeded(l: string, matches: Pattern, line: string): nat
    decreases |l|
  {
    if matches(StripCr(l)) then (if l == line then 0 else 1)
    else if CrRun(l) == 0 then 0
    else 1 + RunsNeeded(StripCr(l), matches, line)
  }

  lemma NextNeedsOneLess(l: string, matches: Pattern, line: string)
    requires Kept(line, matches)
    ensures RunsNeeded(Next(l, matches, line), matches, line) == Less(RunsNeeded(l, matches, line))
    ensures Next(l, matches, line) == l <==> RunsNeeded(l, matches, line) == 0
  {
    StripLowersRun(l);
    if !matches(StripCr(l)) && CrRun(l) > 0 { assert |StripCr(l)| < |l|; }
  }

  lemma {:induction false} AfterSettles(l: string, matches: Pattern, line: string, n: nat)
    requires Kept(line, matches)
    ensures LineAfter(l, matches, line, n + 1) == LineAfter(l, matches, line, n) <==> RunsNeeded(l, matches, line) <= n
    decreases n
  {
    hide CrRun, RunsNeeded, Next;
    NextNeedsOneLess(l, matches, line);
    AfterOne(l, matches, line);
    if n > 0 { AfterSettles(Next(l, matches, line), matches, line, n - 1); }
  }

  lemma AfterOne(l: string, matches: Pattern, line: string)
    ensures LineAfter(l, matches, line, 0) == l && LineAfter(l, matches, line, 1) == Next(l, matches, line)
  {
  }

  /** A line whose stripped forms never match needs one run for each of its CRs; a matching
      form can only shorten that. */
  lemma {:induction false} OneRunPerCr(l: string, matches: Pattern, line: string)
    ensures RunsNeeded(l, matches, line) <= 1 + CrRun(l)
    ensures !matches(StripCr(l)) ==> RunsNeeded(l, matches, line) <= CrRun(l)
    ensures (forall m: nat :: m <= |l| ==> !matches(l[..m])) ==> RunsNeeded(l, matches, line) == CrRun(l)
    decreases |l|
  {
    StripLowersRun(l);
    assert l[..|l|] == l;
    if !matches(StripCr(l)) && CrRun(l) > 0 {
      OneRunPerCr(StripCr(l), matches, line);
      if forall m: nat :: m <= |l| ==> !matches(l[..m]) {
        forall m: nat | m <= |l| - 1 ensures !matches(StripCr(l)[..m]) { assert StripCr(l)[..m] == l[..m]; }
      }
    }
  }

  /** Each line needs at most `n` runs. */
  ghost predicate LinesNeed(ls: seq<string>, matches: Pattern, line: string, n: nat) {
    forall l :: l in ls ==> RunsNeeded(l, matches, line) <= n
  }

  lemma LinesDoneIff(ls: seq<string>, matches: Pattern, line: string, n: nat)
    requires Kept(line, matches)
    ensures LinesAreDone(ls, matches, line, n) <==> LinesNeed(ls, matches, line, n)
  {
    hide Kept, LineAfter, RunsNeeded;
    forall l | l in ls
      ensures LineAfter(l, matches, line, n + 1) == LineAfter(l, matches, line, n) <==>
              RunsNeeded(l, matches, line) <= n
    {
      AfterSettles(l, matches, line, n);
    }
  }

  // ---------- exactly how many runs a text needs ----------

  /** Settled after `n` runs, read off the content, where the line is kept before an LF: a lasting
      match is settled when its lines are; a match that only the unfinished last line gives, and
      that does not last, costs a run, and so does the append. */
  ghost predicate SettledAfter(t: Text, matches: Pattern, line: string, n: nat) {
    if Lasting(t, matches, line) then LinesNeed(t.lines, matches, line, n) && RestIsDone(t, matches, line, n)
    else if RestMatches(t, matches) then
      n > 0 && var t' := Edit(t, matches, line);
               if Found(t', matches) then LinesNeed(t'.lines, matches, line, n - 1)
               else n > 1 && LinesNeed(Raw(t'), matches, line, n - 2)
    else n > 0 && LinesNeed(Raw(t), matches, line, n - 1)
  }

  /** Without a match the first run adds the line; after it the text matches for good. */
  lemma AppendSettles(t: Text, matches: Pattern, line: string, n: nat)
    requires Kept(line, matches) && !Found(t, matches) && !RestMatches(t, matches)
    ensures Runs(t, matches, line, n + 1) == Runs(t, matches, line, n) <==>
            n > 0 && LinesNeed(Raw(t), matches, line, n - 1)
  {
    hide Edit, Found, RunsNeeded, Raw, StripCr, LinesAreDone;
    AppendingEdit(t, matches, line);
    FirstRuns(t, matches, line);
    if n > 0 {
      var t' := Edit(t, matches, line);
      AppendedIsFound(Raw(t), matches, line);
      RunsShift(t, matches, line, n - 1);
      RunsShift(t, matches, line, n);
      LastingSettles(t', matches, line, n - 1);
      LinesDoneIff(t'.lines, matches, line, n - 1);
      WantedNeedsNone(Raw(t), matches, line, n - 1);
    }
  }

  lemma FirstRuns(t: Text, matches: Pattern, line: string)
    ensures Runs(t, matches, line, 0) == t && Runs(t, matches, line, 1) == Edit(t, matches, line)
  {
  }

  lemma AppendedIsFound(ls: seq<string>, matches: Pattern, line: string)
    requires Kept(line, matches)
    ensures Found(Text(ls + [line], ""), matches)
  {
    assert line in ls + [line];
  }

  lemma WantedNeedsNone(ls: seq<string>, matches: Pattern, line: string, n: nat)
    requires Kept(line, matches)
    ensures LinesNeed(ls + [line], matches, line, n) <==> LinesNeed(ls, matches, line, n)
  {
    assert RunsNeeded(line, matches, line) == 0;
    forall l ensures l in ls + [line] <==> l in ls || l == line {}
  }

  /** A match of the unfinished last line only, by which it becomes a line that is not found again. */
  lemma PassingSettles(t: Text, matches: Pattern, line: string, n: nat)
    requires Kept(line, matches) && RestMatches(t, matches) && !Lasting(t, matches, line)
    ensures Runs(t, matches, line, n + 1) == Runs(t, matches, line, n) <==> SettledAfter(t, matches, line, n)
  {
    hide Edit, Found, RunsNeeded, Raw, StripCr, LinesAreDone, Runs;
    var t' := Edit(t, matches, line);
    MatchingEdit(t, matches, line);
    FirstRuns(t, matches, line);
    if n > 0 {
      RunsShift(t, matches, line, n - 1);
      RunsShift(t, matches, line, n);
      if Found(t', matches) {
        LastingSettles(t', matches, line, n - 1);
        LinesDoneIff(t'.lines, matches, line, n - 1);
      } else {
        AppendSettles(t', matches, line, n - 1);
      }
    }
  }

  lemma KeptSettles(t: Text, matches: Pattern, line: string, n: nat)
    requires Kept(line, matches)
    ensures Runs(t, matches, line, n + 1) == Runs(t, matches, line, n) <==> SettledAfter(t, matches, line, n)
  {
    hide Edit, Found, RunsNeeded, Raw, StripCr, LinesAreDone, Runs, LinesNeed;
    if Lasting(t, matches, line) {
      LastingSettles(t, matches, line, n);
      LinesDoneIff(t.lines, matches, line, n);
    } else if RestMatches(t, matches) {
      PassingSettles(t, matches, line, n);
    } else {
      AppendSettles(t, matches, line, n);
    }
  }

  /** A line not kept before an LF is only ever settled as the unfinished last line. */
  lemma NotKeptChanges(t: Text, matches: Pattern, line: string)
    requires !Kept(line, matches) && !(RestMatches(t, matches) && KeptLast(line, matches))
    ensures var t' := Edit(t, matches, line); t' != t && !(RestMatches(t', matches) && KeptLast(line, matches))
  {
    hide Edit, StripCr;
    if Found(t, matches) || RestMatches(t, matches) {
      MatchingEdit(t, matches, line);
      if l :| l in t.lines && matches(StripCr(l)) {
        var i :| 0 <= i < |t.lines| && t.lines[i] == l;
        assert Edit(t, matches, line).lines[i] == line != l;
      }
    } else {
      AppendingEdit(t, matches, line);
    }
  }

  lemma {:induction false} NotKeptNeverSettles(t: Text, matches: Pattern, line: string, n: nat)
    requires !Kept(line, matches) && !(RestMatches(t, matches) && KeptLast(line, matches))
    ensures var t' := Runs(t, matches, line, n); Edit(t', matches, line) != t'
    ensures !(RestMatches(Runs(t, matches, line, n), matches) && KeptLast(line, matches))
    decreases n
  {
    hide Edit, Kept, RestMatches, KeptLast;
    if n > 0 {
      NotKeptNeverSettles(t, matches, line, n - 1);
      NotKeptChanges(Runs(t, matches, line, n - 1), matches, line);
    }
    NotKeptChanges(Runs(t, matches, line, n), matches, line);
  }

  // ---------- on contents ----------

  function Applied(current: string, matches: Pattern, line: string, n: nat): string {
    if n == 0 then current else NewContent(Applied(current, matches, line, n - 1), matches, line)
  }

  lemma EditIsProper(t: Text, matches: Pattern, line: string)
    requires Proper(t) && LF !in line
    ensures Proper(Edit(t, matches, line))
  {
    var t' := Edit(t, matches, line);
    forall l | l in t'.lines ensures LF !in l {
      var i :| 0 <= i < |t'.lines| && t'.lines[i] == l;
      if AnyMatch(Seen(t), matches) {
        assert t.lines[i] in t.lines && l == Replaced(StripCr(t.lines[i]), matches, line);
      } else if i < |t.lines| {
        assert t.lines[i] in t.lines;
      }
    }
  }

  lemma {:induction false} AppliedIsRuns(current: string, matches: Pattern, line: string, n: nat)
    requires LF !in line
    ensures Parse(Applied(current, matches, line, n)) == Runs(Parse(current), matches, line, n)
    ensures Proper(Runs(Parse(current), matches, line, n))
    decreases n
  {
    hide Parse, Unparse, Edit, NewContent, Proper;
    if n == 0 {
      ParseUnparse(current);
    } else {
      AppliedIsRuns(current, matches, line, n - 1);
      var before := Applied(current, matches, line, n - 1);
      EditIsNewContent(before, matches, line);
      EditIsProper(Parse(before), matches, line);
      UnparseParse(Edit(Parse(before), matches, line));
    }
  }

  /** Two contents are the same exactly if their texts are. */
  lemma SameIfParsedSame(a: string, b: string)
    ensures a == b <==> Parse(a) == Parse(b)
  {
    hide Parse, Unparse, Proper;
    ParseUnparse(a);
    ParseUnparse(b);
  }

  function LfCount(s: string): nat { multiset(s)[LF] }

  lemma LfCountConcat(a: string, b: string)
    ensures LfCount(a + b) == LfCount(a) + LfCount(b)
  {
  }

  lemma {:induction false} LfCountOf(t: Text)
    ensures LfCount(Unparse(t)) >= |t.lines|
    ensures (exists l :: l in t.lines && LF in l) || LF in t.rest ==> LfCount(Unparse(t)) > |t.lines|
    ensures Proper(t) ==> LfCount(Unparse(t)) == |t.lines|
    decreases |t.lines|
  {
    hide Unparse;
    if t.lines == [] {
      UnparseNoLines(t.rest);
    } else {
      var l, more := t.lines[0], Text(t.lines[1..], t.rest);
      assert t.lines == [l] + more.lines && l in t.lines;
      UnparseCons(l, more);
      LfCountOf(more);
      assert LfCount(l + [LF]) == LfCount(l) + 1;
      LfCountConcat(l + [LF], Unparse(more));
      forall x ensures x in t.lines <==> x == l || x in more.lines {}
    }
  }

  /** A line with an LF in it makes every content longer, whatever the pattern. */
  lemma LfLineChanges(current: string, matches: Pattern, line: string)
    requires LF in line
    ensures NewContent(current, matches, line) != current
  {
    hide Parse, Unparse, NewContent, Edit, LfCount, Found;
    var t := Parse(current);
    var t' := Edit(t, matches, line);
    ParseUnparse(current);
    EditIsNewContent(current, matches, line);
    LfCountOf(t);
    LfCountOf(t');
    if Found(t, matches) || RestMatches(t, matches) {
      MatchingEdit(t, matches, line);
      LfLineIsWritten(t, matches, line);
    } else {
      AppendingEdit(t, matches, line);
    }
  }

  lemma LfLineIsWritten(t: Text, matches: Pattern, line: string)
    requires LF in line && (Found(t, matches) || RestMatches(t, matches))
    ensures var t' := Edit(t, matches, line); (exists l :: l in t'.lines && LF in l) || LF in t'.rest
  {
    hide Edit, StripCr;
    MatchingEdit(t, matches, line);
    if l :| l in t.lines && matches(StripCr(l)) {
      var i :| 0 <= i < |t.lines| && t.lines[i] == l;
      assert Edit(t, matches, line).lines[i] == line;
    }
  }

  /** Exactly how many runs an edit takes, for every content, pattern and line. */
  ghost predicate Settles(t: Text, matches: Pattern, line: string, n: nat) {
    && LF !in line
    && if Kept(line, matches) then SettledAfter(t, matches, line, n)
       else RestMatches(t, matches) && KeptLast(line, matches)
            && LinesAreDone(t.lines, matches, line, n) && RestIsDone(t, matches, line, n)
  }

  /** Run `n` + 1 changes nothing if and only if the content is settled after `n` runs: the line
      has no LF; and either the pattern finds it again before an LF, and no line needs more runs
      than there were, or it finds it only as the unfinished last line, which it is to replace. */
  lemma SettlesExactly(current: string, matches: Pattern, line: string, n: nat)
    ensures NewContent(Applied(current, matches, line, n), matches, line) == Applied(current, matches, line, n)
       <==> Settles(Parse(current), matches, line, n)
  {
    hide Parse, Edit, Runs, NewContent, SettledAfter, Lasting, LinesAreDone, RestIsDone, Kept, KeptLast, RestMatches;
    var t, now := Parse(current), Applied(current, matches, line, n);
    if LF in line {
      LfLineChanges(now, matches, line);
    } else {
      AppliedIsRuns(current, matches, line, n);
      AppliedIsRuns(current, matches, line, n + 1);
      SameIfParsedSame(now, NewContent(now, matches, line));
      if Kept(line, matches) {
        KeptSettles(t, matches, line, n);
      } else if RestMatches(t, matches) && KeptLast(line, matches) {
        LastingByRest(t, matches, line);
        LastingSettles(t, matches, line, n);
      } else {
        NotKeptNeverSettles(t, matches, line, n);
        RunsNext(t, matches, line, n);
      }
    }
  }

  lemma LastingByRest(t: Text, matches: Pattern, line: string)
    requires RestMatches(t, matches) && KeptLast(line, matches)
    ensures Lasting(t, matches, line)
  {
  }

  lemma RunsNext(t: Text, matches: Pattern, line: string, n: nat)
    ensures Runs(t, matches, line, n + 1) == Edit(Runs(t, matches, line, n), matches, line)
  {
  }

  // ---------- one run ----------

  /** Only the unfinished last line matches. */
  ghost predicate OnlyRestMatches(t: Text, matches: Pattern) {
    RestMatches(t, matches) && !Found(t, matches)
  }

  /** On content without CRs one run is idempotent exactly if the line has no LF and its pattern
      finds it again where that run has put it. */
  lemma IdempotentIffFoundAgain(current: string, matches: Pattern, line: string)
    requires CR !in current
    ensures NewContent(NewContent(current, matches, line), matches, line) == NewContent(current, matches, line) <==>
            LF !in line
            && if OnlyRestMatches(Parse(current), matches) then KeptLast(line, matches) else Kept(line, matches)
  {
    hide Parse, NewContent, Settles, Kept, KeptLast;
    SettlesExactly(current, matches, line, 1);
    assert Applied(current, matches, line, 1) == NewContent(Applied(current, matches, line, 0), matches, line);
    CrFreeParse(current);
    CrFreeSettles(Parse(current), matches, line);
  }

  /** For a line that is not empty and holds no CR that is: exactly if its pattern matches it. */
  lemma IdempotentIffPatternMatches(current: string, matches: Pattern, line: string)
    requires CR !in current && line != "" && CR !in line
    ensures NewContent(NewContent(current, matches, line), matches, line) == NewContent(current, matches, line) <==>
            LF !in line && matches(line)
  {
    hide NewContent, Parse, OnlyRestMatches;
    CrFreeRun(line);
    IdempotentIffFoundAgain(current, matches, line);
  }

  /** An empty line takes an unfinished last line away, and the next run finds nothing. */
  lemma EmptyLineIsLost(matches: Pattern)
    requires matches("") && matches("f") && !matches("a")
    ensures NewContent("a\nf", matches, "") == "a\n" && NewContent("a\n", matches, "") == "a\n\n"
  {
    hide Lines;
    LinesOfA();
    assert AnyMatch(["a", "f"], matches) by { assert "f" in ["a", "f"]; }
    assert Render(["a", "f"][..1], matches, "") == "a\n" by { assert ["a"][..0] == []; }
    assert Render(["a", "f"], matches, "") == "a\n\n";
  }

  lemma LinesOfA()
    ensures Lines("a\nf") == ["a", "f"] && Lines("a\n") == ["a"]
  {
    FirstLfOf("a", "f");
    FirstLfOf("a", "");
    assert "a\nf" == "a" + [LF] + "f" && "a\n" == "a" + [LF] + "";
    assert "a\nf"[2..] == "f" && "a\n"[2..] == "";
    assert "a\nf"[..1] == "a" && "a\n"[..1] == "a";
    assert FirstLf("f") == 1;
    assert Lines("f") == ["f"] && Lines("") == [];
  }

  /** No line ends in a CR. */
  ghost predicate CrFree(t: Text) {
    (forall l :: l in t.lines ==> CrRun(l) == 0) && CrRun(t.rest) == 0
  }

  lemma CrFreeSettles(t: Text, matches: Pattern, line: string)
    requires CrFree(t)
    ensures Settles(t, matches, line, 1) <==>
            LF !in line && if OnlyRestMatches(t, matches) then KeptLast(line, matches) else Kept(line, matches)
  {
    hide Edit, StripCr, CrRun, Found, LinesAreDone;
    if Kept(line, matches) {
      CrFreeNeeds(t, matches, line);
      if OnlyRestMatches(t, matches) && !KeptLast(line, matches) { NothingNew(t, matches, line); }
    } else if KeptLast(line, matches) {
      CrFreeDone(t, matches, line);
    }
  }

  /** Of such lines each needs one run at most, and none if it does not match. */
  lemma CrFreeNeeds(t: Text, matches: Pattern, line: string)
    requires CrFree(t)
    ensures LinesNeed(t.lines, matches, line, 1)
    ensures !Found(t, matches) && !RestMatches(t, matches) ==> LinesNeed(Raw(t), matches, line, 0)
  {
    hide StripCr;
    forall l | l in Raw(t) ensures RunsNeeded(l, matches, line) <= 1 { StripLowersRun(l); }
    if !Found(t, matches) && !RestMatches(t, matches) {
      forall l | l in Raw(t) ensures RunsNeeded(l, matches, line) == 0 { StripLowersRun(l); }
    }
  }

  /** Once the last line has been replaced there is no match. */
  lemma NothingNew(t: Text, matches: Pattern, line: string)
    requires CrFree(t) && OnlyRestMatches(t, matches)
    ensures !Found(Edit(t, matches, line), matches)
  {
    hide Edit, CrRun;
    MatchingEdit(t, matches, line);
    var t' := Edit(t, matches, line);
    forall l | l in t'.lines ensures !matches(StripCr(l)) {
      var i :| 0 <= i < |t'.lines| && t'.lines[i] == l;
      assert t.lines[i] in t.lines;
      StripLowersRun(t.lines[i]);
    }
  }

  /** For a line that is not kept the lines are done after one run only if none matches. */
  lemma CrFreeDone(t: Text, matches: Pattern, line: string)
    requires CrFree(t) && !Kept(line, matches) && KeptLast(line, matches)
    ensures LinesAreDone(t.lines, matches, line, 1) <==> !Found(t, matches)
  {
    hide CrRun;
    if l :| l in t.lines && matches(StripCr(l)) {
      AfterTwo(l, matches, line);
      assert LineAfter(l, matches, line, 2) == StripCr(line) != line == LineAfter(l, matches, line, 1);
    } else {
      forall l | l in t.lines ensures LineAfter(l, matches, line, 2) == LineAfter(l, matches, line, 1) {
        StripLowersRun(l);
        AfterTwo(l, matches, line);
      }
    }
  }

  lemma AfterTwo(l: string, matches: Pattern, line: string)
    ensures LineAfter(l, matches, line, 1) == Next(l, matches, line)
    ensures LineAfter(l, matches, line, 2) == Next(Next(l, matches, line), matches, line)
  {
    AfterOne(l, matches, line);
    AfterSnoc(l, matches, line, 1);
  }

  lemma {:induction false} CrFreeParse(s: string)
    requires CR !in s
    ensures CrFree(Parse(s))
    decreases |s|
  {
    var i := FirstLf(s);
    CrFreeRun(s[..i]);
    if i < |s| { CrFreeParse(s[i + 1..]); } else { CrFreeRun(s); }
  }

  // ---------- contents that stay as they are ----------

  /** A line that is written where its pattern does not find it: every run changes every content. */
  lemma NeverSettles(current: string, matches: Pattern, line: string)
    requires LF in line || !(Kept(line, matches) || KeptLast(line, matches))
    ensures NewContent(current, matches, line) != current
  {
    hide NewContent, Parse, Kept, KeptLast, RestMatches, SettledAfter;
    SettlesExactly(current, matches, line, 0);
    assert Applied(current, matches, line, 0) == current;
  }

  /** Otherwise the line itself is content that stays as it is. */
  lemma SettlesSomewhere(matches: Pattern, line: string) returns (content: string)
    requires LF !in line && (Kept(line, matches) || KeptLast(line, matches))
    ensures NewContent(content, matches, line) == content
  {
    hide NewContent, StripCr;
    if Kept(line, matches) {
      content := line + [LF];
      ParseCons(line, "");
      assert content == line + [LF] + "";
      assert Parse(content) == Text([line], "");
      assert line in [line];
    } else {
      content := line;
      FirstLfIs(line);
      ParseLast(line);
    }
    SettlesExactly(content, matches, line, 0);
    assert Applied(content, matches, line, 0) == content;
    AfterOne(line, matches, line);
    assert RunsNeeded(line, matches, line) == 0 || !Kept(line, matches);
  }

  lemma FirstLfIs(s: string)
    requires LF !in s
    ensures FirstLf(s) == |s|
  {
  }

  /** So an edit can ever be settled if and only if the line has no LF and its pattern finds it
      again, before an LF or as an unfinished last line. */
  lemma CanSettleIff(matches: Pattern, line: string)
    ensures (exists content :: NewContent(content, matches, line) == content) <==>
            LF !in line && (Kept(line, matches) || KeptLast(line, matches))
  {
    hide NewContent, Kept, KeptLast;
    if LF !in line && (Kept(line, matches) || KeptLast(line, matches)) {
      var content := SettlesSomewhere(matches, line);
    } else {
      forall content ensures NewContent(content, matches, line) != content { NeverSettles(content, matches, line); }
    }
  }

  /** Content that stays as it is holds a match, and nothing matches but the line itself. */
  lemma SettledIsWanted(current: string, matches: Pattern, line: string)
    requires NewContent(current, matches, line) == current
    ensures AnyMatch(Lines(current), matches)
    ensures forall l :: l in Lines(current) && matches(l) ==> l == line || l == StripCr(line)
    ensures CR !in line ==> line in Lines(current)
  {
    hide NewContent, Lines, Parse, Edit, StripCr, Proper;
    var t := Parse(current);
    if LF in line { LfLineChanges(current, matches, line); }
    LinesAreSeen(current);
    AppliedIsRuns(current, matches, line, 1);
    FirstRuns(t, matches, line);
    assert Applied(current, matches, line, 1) == NewContent(Applied(current, matches, line, 0), matches, line);
    if !Found(t, matches) && !RestMatches(t, matches) { AppendingEdit(t, matches, line); }
    MatchingEdit(t, matches, line);
    SeenMatches(t, matches);
    MatchesAreWanted(t, matches, line);
    if CR !in line { CrFreeRun(line); }
  }

  lemma MatchesAreWanted(t: Text, matches: Pattern, line: string)
    requires (Found(t, matches) || RestMatches(t, matches)) && Edit(t, matches, line) == t
    ensures forall l :: l in Seen(t) && matches(l) ==> l == line || l == StripCr(line)
  {
    hide Edit, StripCr;
    MatchingEdit(t, matches, line);
    forall l | l in Seen(t) && matches(l) ensures l == line || l == StripCr(line) {
      var i :| 0 <= i < |Seen(t)| && Seen(t)[i] == l;
      if i < |t.lines| { assert t.lines[i] == Next(t.lines[i], matches, line) == line; }
    }
  }

  // ---------- a bound on the runs ----------

  /** No run of CRs directly before an LF or the end of the text is longer than `k`. */
  ghost predicate CrBound(t: Text, k: nat) {
    (forall l :: l in t.lines ==> CrRun(l) <= k) && CrRun(t.rest) <= k
  }

  /** CR-aware convergence: where the line is kept, and no run of CRs before an LF or the end is
      longer than `k`, the content no longer changes after 1 + k runs, at least two if the match is
      lost by the first; then nothing matches but the line itself. */
  lemma SettlesAfterCrs(current: string, matches: Pattern, line: string, k: nat, n: nat)
    requires LF !in line && Kept(line, matches) && CrBound(Parse(current), k)
    requires n >= 1 + k && (n >= 2 || !RestMatches(Parse(current), matches) || KeptLast(line, matches))
    ensures var last := Applied(current, matches, line, n);
            && NewContent(last, matches, line) == last && AnyMatch(Lines(last), matches)
            && (forall l :: l in Lines(last) && matches(l) ==> l == line || l == StripCr(line))
            && (CR !in line ==> line in Lines(last) && StripCr(line) == line)
  {
    hide NewContent, Parse, CrBound, SettledAfter, Kept, KeptLast, RestMatches, Lines, StripCr, CrRun;
    SettlesExactly(current, matches, line, n);
    BoundSettles(Parse(current), matches, line, k, n);
    SettledIsWanted(Applied(current, matches, line, n), matches, line);
    if CR !in line { CrFreeRun(line); }
  }

  lemma BoundNeeds(t: Text, matches: Pattern, line: string, k: nat)
    requires CrBound(t, k)
    ensures LinesNeed(t.lines, matches, line, 1 + k)
    ensures !Found(t, matches) ==> LinesNeed(t.lines, matches, line, k)
    ensures !Found(t, matches) && !RestMatches(t, matches) ==> LinesNeed(Raw(t), matches, line, k)
  {
    hide StripCr, CrRun, RunsNeeded;
    forall l | l in t.lines ensures RunsNeeded(l, matches, line) <= 1 + k { OneRunPerCr(l, matches, line); }
    if !Found(t, matches) {
      forall l | l in t.lines ensures RunsNeeded(l, matches, line) <= k { OneRunPerCr(l, matches, line); }
      if t.rest != "" && !matches(t.rest) { UnmatchedNeeds(t.rest, matches, line); }
    }
  }

  /** A line that does not match as it is needs no more runs than it has CRs. */
  lemma UnmatchedNeeds(l: string, matches: Pattern, line: string)
    requires !matches(l)
    ensures RunsNeeded(l, matches, line) <= CrRun(l)
  {
    StripLowersRun(l);
    OneRunPerCr(l, matches, line);
  }

  lemma BoundSettles(t: Text, matches: Pattern, line: string, k: nat, n: nat)
    requires Kept(line, matches) && CrBound(t, k)
    requires n >= 1 + k && (n >= 2 || !RestMatches(t, matches) || KeptLast(line, matches))
    ensures SettledAfter(t, matches, line, n)
  {
    hide Edit, StripCr, CrRun, Found, RunsNeeded, CrBound;
    BoundNeeds(t, matches, line, k);
    if !Lasting(t, matches, line) && RestMatches(t, matches) { PassingBound(t, matches, line, k, n); }
  }

  lemma PassingBound(t: Text, matches: Pattern, line: string, k: nat, n: nat)
    requires Kept(line, matches) && CrBound(t, k) && n >= 1 + k && n >= 2
    requires RestMatches(t, matches) && !Lasting(t, matches, line)
    ensures SettledAfter(t, matches, line, n)
  {
    hide Edit, StripCr, CrRun, RunsNeeded;
    var t' := Edit(t, matches, line);
    MatchingEdit(t, matches, line);
    forall l | l in t'.lines
      ensures RunsNeeded(l, matches, line) <= Less(k)
      ensures k == 0 ==> !matches(StripCr(l))
    {
      var i :| 0 <= i < |t'.lines| && t'.lines[i] == l;
      assert t.lines[i] in t.lines;
      StripLowersRun(t.lines[i]);
      UnmatchedNeeds(l, matches, line);
    }
    assert RunsNeeded(line, matches, line) == 0 by { WantedNeedsNothing(matches, line); }
  }

  lemma WantedNeedsNothing(matches: Pattern, line: string)
    requires Kept(line, matches)
    ensures RunsNeeded(line, matches, line) == 0
  {
  }

  lemma CrsOf(other: string)
    requires CR !in other
    ensures StripCr(other + [CR]) == other && CrRun(other + [CR]) == 1 && CrRun(other) == 0 && StripCr(other) == other
    ensures StripCr(other + [CR, CR]) == other + [CR] && CrRun(other + [CR, CR]) == 2
  {
    CrFreeRun(other);
    assert (other + [CR])[..|other|] == other && (other + [CR, CR])[..|other| + 1] == other + [CR];
  }

  lemma RunsOfCrs(matches: Pattern, line: string, other: string)
    requires CR !in line && matches(line) && CR !in other && !matches(other) && !matches(other + [CR])
    ensures RunsNeeded(other + [CR], matches, line) == 1 && RunsNeeded(other + [CR, CR], matches, line) == 2
    ensures RunsNeeded(line + [CR], matches, line) == 1 && RunsNeeded(line, matches, line) == 0
  {
    hide CrRun, StripCr;
    CrsOf(other);
    CrsOf(line);
  }

  lemma ParseTwo(a: string, b: string)
    requires LF !in a && LF !in b
    ensures Parse(a + [LF] + (b + [LF])) == Text([a, b], "")
  {
    hide Parse;
    ParseCons(a, b + [LF]);
    ParseCons(b, "");
    assert b + [LF] + "" == b + [LF];
    ParseLast("");
  }

  /** Settled after `n` runs, for two lines of which the second matches. */
  lemma TwoLinesSettle(matches: Pattern, line: string, a: string, b: string, n: nat)
    requires LF !in line && Kept(line, matches) && matches(StripCr(b))
    ensures Settles(Text([a, b], ""), matches, line, n) <==>
            RunsNeeded(a, matches, line) <= n && RunsNeeded(b, matches, line) <= n
  {
    hide StripCr, RunsNeeded;
    assert b in [a, b] && a in [a, b];
  }

  /** CR LF alone does not cost a run: a content of two lines with one CR each is settled by one
      run if the wanted line is among them; where the other line has two CRs it takes a second. */
  lemma CrsCostRuns(matches: Pattern, line: string, other: string)
    requires LF !in line && CR !in line && matches(line)
    requires CR !in other && LF !in other && !matches(other) && !matches(other + [CR])
    ensures var once := NewContent(other + [CR] + [LF] + (line + [CR] + [LF]), matches, line);
            NewContent(once, matches, line) == once
    ensures var once := NewContent(other + [CR, CR] + [LF] + (line + [LF]), matches, line);
            var twice := NewContent(once, matches, line);
            twice != once && NewContent(twice, matches, line) == twice
  {
    hide CrRun, StripCr, RunsNeeded, NewContent, Parse, Settles;
    RunsOfCrs(matches, line, other);
    CrsOf(line);
    var a, b := other + [CR] + [LF] + (line + [CR] + [LF]), other + [CR, CR] + [LF] + (line + [LF]);
    ParseTwo(other + [CR], line + [CR]);
    ParseTwo(other + [CR, CR], line);
    TwoLinesSettle(matches, line, other + [CR], line + [CR], 1);
    TwoLinesSettle(matches, line, other + [CR, CR], line, 1);
    TwoLinesSettle(matches, line, other + [CR, CR], line, 2);
    AppliedTwice(a, matches, line);
    AppliedTwice(b, matches, line);
    SettlesExactly(a, matches, line, 1);
    SettlesExactly(b, matches, line, 1);
    SettlesExactly(b, matches, line, 2);
  }

  lemma AppliedTwice(current: string, matches: Pattern, line: string)
    ensures Applied(current, matches, line, 1) == NewContent(current, matches, line)
    ensures Applied(current, matches, line, 2) == NewContent(NewContent(current, matches, line), matches, line)
  {
    assert Applied(current, matches, line, 0) == current;
  }

  /** The case in the concrete: from nothing, the line is written once more by every run. */
  lemma AppendsForEver(matches: Pattern, line: string)
    requires LF !in line && !Kept(line, matches)
    ensures NewContent("", matches, line) == line + [LF]
    ensures NewContent(line + [LF], matches, line) == line + [LF] + line + [LF]
  {
    FirstLfOf(line, "");
    var c := line + [LF];
    assert c == line + [LF] + "" && c[..|line|] == line && c[|line| + 1..] == "";
    assert Lines(c) == [StripCr(line)];
  }

  // ---------- what a run keeps ----------

  /** A matching run writes every line as `lines()` yields it, in order, the matching ones
      replaced, each followed by LF, only that the last LF is dropped where there was none; a
      run without a match keeps the content, completes its last line and adds the line. */
  lemma LinesAreKept(current: string, matches: Pattern, line: string)
    ensures AnyMatch(Lines(current), matches) ==>
              NewContent(current, matches, line) + (if EndsWithLf(current) then "" else [LF])
              == Unparse(Text(ReplaceAll(Lines(current), matches, line), ""))
    ensures !AnyMatch(Lines(current), matches) ==>
              NewContent(current, matches, line) == Unparse(Text(Raw(Parse(current)) + [line], ""))
  {
    hide Unparse, Lines, Render, ReplaceAll, Parse;
    LinesAreSeen(current);
    EditIsNewContent(current, matches, line);
    if AnyMatch(Lines(current), matches) {
      RenderIsUnparse(Lines(current), matches, line);
      RenderEndsWithLf(Lines(current), matches, line);
    }
  }

  lemma RenderEndsWithLf(ls: seq<string>, matches: Pattern, line: string)
    requires ls != []
    ensures EndsWithLf(Render(ls, matches, line))
  {
  }

  /** Read back, these are the lines of the new content, unless the line itself breaks one. */
  lemma LinesAreReadBack(current: string, matches: Pattern, line: string)
    requires LF !in line
    ensures AnyMatch(Lines(current), matches) && (line != "" || !RestMatches(Parse(current), matches)) ==>
              Raw(Parse(NewContent(current, matches, line))) == ReplaceAll(Lines(current), matches, line)
    ensures AnyMatch(Lines(current), matches) && line == "" && RestMatches(Parse(current), matches) ==>
              Raw(Parse(NewContent(current, matches, line))) + [""] == ReplaceAll(Lines(current), matches, line)
    ensures !AnyMatch(Lines(current), matches) ==>
              Raw(Parse(NewContent(current, matches, line))) == Raw(Parse(current)) + [line]
  {
    hide Parse, Unparse, Lines, NewContent, Seen, ReplaceAll, StripAll, AnyMatch, Proper;
    var t := Parse(current);
    LinesAreSeen(current);
    ParseUnparse(current);
    EditIsNewContent(current, matches, line);
    EditIsProper(t, matches, line);
    UnparseParse(Edit(t, matches, line));
    if AnyMatch(Lines(current), matches) { RawOfMatchingEdit(t, matches, line); }
  }

  lemma RawOfMatchingEdit(t: Text, matches: Pattern, line: string)
    requires AnyMatch(Seen(t), matches)
    ensures Raw(Edit(t, matches, line)) + (if line == "" && RestMatches(t, matches) then [""] else [])
            == ReplaceAll(Seen(t), matches, line)
  {
    hide StripAll, AnyMatch;
    if t.rest != "" { ReplaceAllSnoc(StripAll(t.lines), t.rest, matches, line); }
    else { assert Seen(t) == StripAll(t.lines); }
  }
}
