/** The apt batchers against one-at-a-time convergence (`AptPackageBatcher` and
    `AptPackage::converge_one`, `AbsentAptPackageBatcher` and its twin): a batch is a
    refinement of converging its packages one by one, in any order. */
module AptBatch {
  import HostModel
  import opened Run

  /** Which packages apt installs along with a package, or removes along with it. */
  type Closure = string -> set<string>

  /** Asking for a package includes it, and includes what its dependencies pull in. */
  ghost predicate IsClosure(f: Closure) {
    && (forall n :: n in f(n))
    && (forall n, m :: m in f(n) ==> f(m) <= f(n))
  }

  function ClosureOf(f: Closure, names: seq<string>): set<string> {
    set n, x | n in names && x in f(n) :: x
  }

  function Missing(names: seq<string>, installed: set<string>): seq<string> {
    if names == [] then [] else (if names[0] in installed then [] else [names[0]]) + Missing(names[1..], installed)
  }

  lemma {:induction false} MissingHas(names: seq<string>, installed: set<string>)
    ensures forall n :: n in Missing(names, installed) <==> n in names && n !in installed
  {
    if names != [] { MissingHas(names[1..], installed); }
  }

  /** The packages installed after converging `names` one by one, in this order. */
  function InTurn(f: Closure, installed: set<string>, names: seq<string>): set<string>
    decreases |names|
  {
    if names == [] then installed else
      InTurn(f, if names[0] in installed then installed else installed + f(names[0]), names[1..])
  }

  /** The verdicts reported on the way. */
  function VerdictsInTurn(f: Closure, installed: set<string>, names: seq<string>): (v: seq<Changed>)
    ensures |v| == |names|
    decreases |names|
  {
    if names == [] then [] else
      [if names[0] in installed then No else Yes]
      + VerdictsInTurn(f, if names[0] in installed then installed else installed + f(names[0]), names[1..])
  }

  // ---------- the backend, as it changes the host ----------

  class AptHost {
    var installed: set<string>
    var updates: nat

    constructor (already: set<string>)
      ensures installed == already && updates == 0
    {
      installed, updates := already, 0;
    }

    method AptUpdate()
      modifies this`updates
      ensures updates == old(updates) + 1
    {
      updates := updates + 1;
    }

    /** One `apt-get install` with all the names on its command line. */
    method AptInstall(f: Closure, names: seq<string>)
      modifies this`installed
      ensures installed == old(installed) + ClosureOf(f, names)
    {
      for i := 0 to |names|
        invariant installed == old(installed) + ClosureOf(f, names[..i])
      {
        assert names[..i + 1] == names[..i] + [names[i]];
        installed := installed + f(names[i]);
      }
      assert names[..|names|] == names;
    }

    method ConvergeOne(f: Closure, name: string, dryRun: bool) returns (changed: Changed)
      modifies this
      ensures changed == if name in old(installed) then No else Yes
      ensures installed == if name in old(installed) || dryRun then old(installed) else old(installed) + f(name)
      ensures updates == old(updates) + if name in old(installed) || dryRun then 0 else 1
    {
      if name in installed {
        return No;
      }
      if dryRun {
        return Yes;
      }
      AptUpdate();
      AptInstall(f, [name]);
      return Yes;
    }

    /** What the batcher replaces: one `converge_one` after the other. */
    method ConvergeInTurn(f: Closure, names: seq<string>) returns (verdicts: seq<Changed>)
      modifies this
      ensures installed == InTurn(f, old(installed), names)
      ensures verdicts == VerdictsInTurn(f, old(installed), names)
    {
      verdicts := [];
      for i := 0 to |names|
        invariant InTurn(f, old(installed), names) == InTurn(f, installed, names[i..])
        invariant VerdictsInTurn(f, old(installed), names) == verdicts + VerdictsInTurn(f, installed, names[i..])
      {
        var changed := ConvergeOne(f, names[i], false);
        verdicts := verdicts + [changed];
      }
    }

    method ConvergeBatch(f: Closure, names: seq<string>, dryRun: bool) returns (verdicts: seq<Changed>)
      modifies this
      ensures |verdicts| == |names|
      ensures forall i :: 0 <= i < |names| ==> verdicts[i] == if names[i] in old(installed) then No else Yes
      ensures installed == if dryRun then old(installed)
                           else old(installed) + ClosureOf(f, Missing(names, old(installed)))
      ensures updates == old(updates) + if dryRun || Missing(names, old(installed)) == [] then 0 else 1
    {
      var before := installed;
      var todo := Missing(names, installed);
      if todo != [] && !dryRun {
        AptUpdate();
        AptInstall(f, todo);
      } else if todo == [] {
        assert ClosureOf(f, todo) == {};
      }
      verdicts := seq(|names|, i requires 0 <= i < |names| => if names[i] in before then No else Yes);
    }

    /** One `apt-get remove --purge` with all the names on its command line. */
    method AptRemove(f: Closure, names: seq<string>)
      modifies this`installed
      ensures installed == old(installed) - ClosureOf(f, names)
    {
      for i := 0 to |names|
        invariant installed == old(installed) - ClosureOf(f, names[..i])
      {
        assert names[..i + 1] == names[..i] + [names[i]];
        installed := installed - f(names[i]);
      }
      assert names[..|names|] == names;
    }

    method RemoveOne(f: Closure, name: string, dryRun: bool) returns (changed: Changed)
      modifies this`installed
      ensures changed == if name in old(installed) then Yes else No
      ensures installed == if name !in old(installed) || dryRun then old(installed) else old(installed) - f(name)
    {
      if name !in installed {
        return No;
      }
      if dryRun {
        return Yes;
      }
      AptRemove(f, [name]);
      return Yes;
    }

    method RemoveInTurn(f: Closure, names: seq<string>) returns (verdicts: seq<Changed>)
      modifies this`installed
      ensures installed == RemovedInTurn(f, old(installed), names)
      ensures verdicts == VerdictsRemoved(f, old(installed), names)
    {
      verdicts := [];
      for i := 0 to |names|
        invariant RemovedInTurn(f, old(installed), names) == RemovedInTurn(f, installed, names[i..])
        invariant VerdictsRemoved(f, old(installed), names) == verdicts + VerdictsRemoved(f, installed, names[i..])
      {
        var changed := RemoveOne(f, names[i], false);
        verdicts := verdicts + [changed];
      }
    }

    method RemoveBatch(f: Closure, names: seq<string>, dryRun: bool) returns (verdicts: seq<Changed>)
      modifies this`installed
      ensures |verdicts| == |names|
      ensures forall i :: 0 <= i < |names| ==> verdicts[i] == if names[i] in old(installed) then Yes else No
      ensures installed == if dryRun then old(installed)
                           else old(installed) - ClosureOf(f, Present(names, old(installed)))
    {
      var before := installed;
      var todo := Present(names, installed);
      if todo != [] && !dryRun {
        AptRemove(f, todo);
      } else if todo == [] {
        assert ClosureOf(f, todo) == {};
      }
      verdicts := seq(|names|, i requires 0 <= i < |names| => if names[i] in before then Yes else No);
    }
  }

  // ---------- the batch refines one at a time ----------

  /** Whatever the order, one by one installs exactly what the batch installs. */
  lemma {:induction false} SameInstalled(f: Closure, installed: set<string>, names: seq<string>)
    requires IsClosure(f)
    ensures InTurn(f, installed, names) == installed + ClosureOf(f, Missing(names, installed))
    decreases |names|
  {
    if names == [] {
    } else if names[0] in installed {
      SameInstalled(f, installed, names[1..]);
    } else {
      var next := installed + f(names[0]);
      SameInstalled(f, next, names[1..]);
      MissingHas(names, installed);
      MissingHas(names[1..], next);
      // a name skipped because the first package pulled it in adds nothing of its own
      forall x ensures x in next + ClosureOf(f, Missing(names[1..], next)) <==>
        x in installed + ClosureOf(f, Missing(names, installed)) {
        if x in f(names[0]) { assert names[0] in Missing(names, installed); }
        if n :| n in Missing(names, installed) && x in f(n) {
          if n != names[0] && n !in f(names[0]) { assert n in Missing(names[1..], next); }
        }
      }
    }
  }

  /** Any two orders of the same names install the same packages. */
  lemma OrderDoesNotMatter(f: Closure, installed: set<string>, a: seq<string>, b: seq<string>)
    requires IsClosure(f) && multiset(a) == multiset(b)
    ensures InTurn(f, installed, a) == InTurn(f, installed, b)
  {
    SameInstalled(f, installed, a);
    SameInstalled(f, installed, b);
    MissingHas(a, installed);
    MissingHas(b, installed);
    forall n ensures n in a <==> n in b {
      assert n in a <==> n in multiset(a);
      assert n in b <==> n in multiset(b);
    }
  }

  /** An earlier package of the list pulls this one in. */
  ghost predicate PulledIn(f: Closure, installed: set<string>, names: seq<string>, i: nat)
    requires i < |names|
  {
    exists k :: 0 <= k < i && names[k] !in installed && names[i] in f(names[k])
  }

  /** One by one, a package is reported Yes exactly if it was missing at the start and
      no earlier missing package pulled it in. */
  lemma {:induction false} VerdictInTurn(f: Closure, installed: set<string>, names: seq<string>, i: nat)
    requires IsClosure(f) && i < |names|
    ensures VerdictsInTurn(f, installed, names)[i] ==
            if names[i] !in installed && !PulledIn(f, installed, names, i) then Yes else No
    decreases |names|
  {
    var next := if names[0] in installed then installed else installed + f(names[0]);
    if i > 0 {
      VerdictInTurn(f, next, names[1..], i - 1);
      if PulledIn(f, installed, names, i) && names[i] !in next {
        var k :| 0 <= k < i && names[k] !in installed && names[i] in f(names[k]);
        // a puller that was itself pulled in by the first package would have brought this one along
        assert k > 0;
        assert names[k] !in next;
        assert names[1..][k - 1] == names[k];
      }
      if PulledIn(f, next, names[1..], i - 1) {
        var k :| 0 <= k < i - 1 && names[1..][k] !in next && names[1..][i - 1] in f(names[1..][k]);
        assert names[k + 1] == names[1..][k];
      }
      if names[i] in next && names[i] !in installed { assert names[0] !in installed && names[i] in f(names[0]); }
    }
  }

  /** So the verdicts of the batch and of one by one agree, for every package, exactly
      when no missing package of the list pulls in a later missing one (a repeated name
      pulls in its repetition); a Yes one by one is always a Yes of the batch. */
  lemma BatchVerdicts(f: Closure, installed: set<string>, names: seq<string>)
    requires IsClosure(f)
    ensures forall i :: 0 <= i < |names| && VerdictsInTurn(f, installed, names)[i] == Yes ==> names[i] !in installed
    ensures (forall i :: 0 <= i < |names| ==> (VerdictsInTurn(f, installed, names)[i] == Yes <==>
                                               names[i] !in installed))
            <==> forall k, i :: 0 <= k < i < |names| && names[k] !in installed && names[i] !in installed ==>
                names[i] !in f(names[k])
  {
    forall i | 0 <= i < |names|
      ensures VerdictsInTurn(f, installed, names)[i] ==
              if names[i] !in installed && !PulledIn(f, installed, names, i) then Yes else No
    {
      VerdictInTurn(f, installed, names, i);
    }
    if k, i :| 0 <= k < i < |names| && names[k] !in installed && names[i] !in installed && names[i] in f(names[k]) {
      assert PulledIn(f, installed, names, i);
    }
  }

  /** After a batch, a second one finds everything installed. */
  lemma SecondBatchIsNo(f: Closure, installed: set<string>, names: seq<string>)
    requires IsClosure(f)
    ensures Missing(names, installed + ClosureOf(f, Missing(names, installed))) == []
  {
    var after := installed + ClosureOf(f, Missing(names, installed));
    MissingHas(names, installed);
    MissingHas(names, after);
    forall n | n in names ensures n in after {
      if n !in installed { assert n in Missing(names, installed) && n in f(n); }
    }
    HostModel.NonemptyHasMember(Missing(names, after));
  }

  // ---------- removal ----------

  function RemovedInTurn(f: Closure, installed: set<string>, names: seq<string>): set<string> {
    if names == [] then installed else
      RemovedInTurn(f, if names[0] in installed then installed - f(names[0]) else installed, names[1..])
  }

  function VerdictsRemoved(f: Closure, installed: set<string>, names: seq<string>): (v: seq<Changed>)
    ensures |v| == |names|
    decreases |names|
  {
    if names == [] then [] else
      [if names[0] in installed then Yes else No]
      + VerdictsRemoved(f, if names[0] in installed then installed - f(names[0]) else installed, names[1..])
  }

  function Present(names: seq<string>, installed: set<string>): seq<string> {
    if names == [] then [] else (if names[0] in installed then [names[0]] else []) + Present(names[1..], installed)
  }

  lemma {:induction false} PresentHas(names: seq<string>, installed: set<string>)
    ensures forall n :: n in Present(names, installed) <==> n in names && n in installed
  {
    if names != [] { PresentHas(names[1..], installed); }
  }

  /** The dual: a batch removal takes away what one by one takes away, in any order. */
  lemma {:induction false} SameRemoved(f: Closure, installed: set<string>, names: seq<string>)
    requires IsClosure(f)
    ensures RemovedInTurn(f, installed, names) == installed - ClosureOf(f, Present(names, installed))
    decreases |names|
  {
    if names == [] {
    } else if names[0] !in installed {
      SameRemoved(f, installed, names[1..]);
    } else {
      var next := installed - f(names[0]);
      SameRemoved(f, next, names[1..]);
      PresentHas(names, installed);
      PresentHas(names[1..], next);
      forall x ensures x in next - ClosureOf(f, Present(names[1..], next)) <==>
        x in installed - ClosureOf(f, Present(names, installed)) {
        if x in f(names[0]) { assert names[0] in Present(names, installed); }
        if n :| n in Present(names, installed) && x in f(n) {
          if n != names[0] && n !in f(names[0]) { assert n in Present(names[1..], next); }
        }
        if n :| n in Present(names[1..], next) && x in f(n) { assert n in Present(names, installed); }
      }
    }
  }

  /** Removing packages is installing their absence. */
  lemma {:induction false} RemovalIsDual(f: Closure, all: set<string>, installed: set<string>, names: seq<string>)
    requires installed <= all && ClosureOf(f, names) <= all && forall n :: n in names ==> n in all
    ensures VerdictsRemoved(f, installed, names) == VerdictsInTurn(f, all - installed, names)
    ensures all - RemovedInTurn(f, installed, names) == InTurn(f, all - installed, names)
    decreases |names|
  {
    if names != [] {
      var next := if names[0] in installed then installed - f(names[0]) else installed;
      var missing := if names[0] in all - installed then all - installed else all - installed + f(names[0]);
      assert f(names[0]) <= all by {
        forall x | x in f(names[0]) ensures x in all { assert x in ClosureOf(f, names); }
      }
      assert missing == all - next;
      RemovalIsDual(f, all, next, names[1..]);
    }
  }

  /** The removal verdicts agree, for every package, exactly when no present package of
      the list takes a later present one with it. */
  lemma BatchRemovalVerdicts(f: Closure, installed: set<string>, names: seq<string>)
    requires IsClosure(f)
    ensures forall i :: 0 <= i < |names| && VerdictsRemoved(f, installed, names)[i] == Yes ==> names[i] in installed
    ensures (forall i :: 0 <= i < |names| ==> (VerdictsRemoved(f, installed, names)[i] == Yes <==>
                                               names[i] in installed))
            <==> forall k, i :: 0 <= k < i < |names| && names[k] in installed && names[i] in installed ==>
                names[i] !in f(names[k])
  {
    var all := installed + (set n | n in names) + ClosureOf(f, names);
    RemovalIsDual(f, all, installed, names);
    BatchVerdicts(f, all - installed, names);
    forall i | 0 <= i < |names| ensures names[i] in installed <==> names[i] !in all - installed {
      assert names[i] in names;
    }
  }
}
