/** What `_merge` of plugins/action/include_vars_merged.py computes, on trees of dicts,
    lists and scalars. `E` is the type of list elements, which are never looked into. */
module MergeTree {
  import opened HostModel

  /** Scalars by Python type. `Date` stands for the types that cannot be made from nothing. */
  datatype Scalar = Text(text: string) | Number(number: int) | Float(float: real) | Flag(flag: bool) | Null
    | Date(date: string)

  datatype Tree<E> = Leaf(scalar: Scalar) | List(items: seq<E>) | Dict(entries: map<string, Tree<E>>)

  /** `type(x)()` */
  function Default<E>(t: Tree<E>): (r: Option<Tree<E>>)
    ensures r.None? <==> IsDate(t)
    ensures r.Some? ==> SameType(r.value, t)
  {
    match t
    case Leaf(Text(_)) => Some(Leaf(Text("")))
    case Leaf(Number(_)) => Some(Leaf(Number(0)))
    case Leaf(Float(_)) => Some(Leaf(Float(0.0)))
    case Leaf(Flag(_)) => Some(Leaf(Flag(false)))
    case Leaf(Null) => Some(Leaf(Null))
    case Leaf(Date(_)) => None
    case List(_) => Some(List([]))
    case Dict(_) => Some(Dict(map[]))
  }

  predicate IsDate<E>(t: Tree<E>) { t.Leaf? && t.scalar.Date? }

  predicate SameType<E>(a: Tree<E>, b: Tree<E>) {
    match (a, b)
    case (Leaf(x), Leaf(y)) =>
      (x.Text? <==> y.Text?) && (x.Number? <==> y.Number?) && (x.Float? <==> y.Float?) && (x.Flag? <==> y.Flag?)
        && (x.Null? <==> y.Null?)
    case _ => (a.List? <==> b.List?) && (a.Dict? <==> b.Dict?)
  }

  /** The value a key starts from: what is there, or an empty value of the right's type. */
  function Start<E>(l: Option<Tree<E>>, r: Tree<E>): Option<Tree<E>> {
    if Default(r).None? then None else if l.Some? then l else Default(r)
  }

  function Get<E>(t: Tree<E>, k: string): Option<Tree<E>>
    requires t.Dict?
  {
    if k in t.entries then Some(t.entries[k]) else None
  }

  /** Merging `r` into what is there raises no error. */
  predicate Fits<E>(l: Option<Tree<E>>, r: Tree<E>)
    decreases r, 1
  {
    var start := Start(l, r);
    start.Some? && SameType(start.value, r) && (r.Dict? ==> Compatible(start.value, r))
  }

  predicate Compatible<E>(left: Tree<E>, right: Tree<E>)
    requires left.Dict? && right.Dict?
    decreases right, 0
  {
    forall k :: k in right.entries ==> Fits(Get(left, k), right.entries[k])
  }

  /** Lists are joined, dicts merged, and scalars stay as they start. */
  function Joined<E>(l: Option<Tree<E>>, r: Tree<E>): Tree<E>
    decreases r, 1
  {
    var start := Start(l, r);
    if start.None? then r
    else match (start.value, r)
      case (List(a), List(b)) => List(a + b)
      case (Dict(_), Dict(_)) => Merged(start.value, r)
      case _ => start.value
  }

  function Merged<E>(left: Tree<E>, right: Tree<E>): (r: Tree<E>)
    requires left.Dict? && right.Dict?
    ensures r.Dict? && r.entries.Keys == left.entries.Keys + right.entries.Keys
    decreases right, 0
  {
    Dict(map k | k in left.entries.Keys + right.entries.Keys ::
      if k in right.entries then Joined(Get(left, k), right.entries[k]) else left.entries[k])
  }

  function Empty<E>(): Tree<E> { Dict(map[]) }

  lemma MergedKeys<E>(left: Tree<E>, right: Tree<E>)
    requires left.Dict? && right.Dict?
    ensures forall k :: k in Merged(left, right).entries <==> k in left.entries || k in right.entries
    ensures forall k :: k in right.entries ==> Merged(left, right).entries[k] == Joined(Get(left, k), right.entries[k])
    ensures forall k :: k in left.entries && k !in right.entries ==> Merged(left, right).entries[k] == left.entries[k]
  {
  }

  lemma FitCases<E>(l: Option<Tree<E>>, r: Tree<E>)
    requires Fits(l, r)
    ensures !IsDate(r) && SameType(Start(l, r).value, r) && SameType(Joined(l, r), r)
    ensures r.List? ==> Start(l, r).value.List? && Joined(l, r) == List(Start(l, r).value.items + r.items)
    ensures r.Leaf? ==> Start(l, r).value.Leaf? && Joined(l, r) == Start(l, r).value
    ensures r.Dict? ==> Start(l, r).value.Dict? && Compatible(Start(l, r).value, r)
                        && Joined(l, r) == Merged(Start(l, r).value, r)
  {
    hide Compatible, Merged;
  }

  // ---------- by paths ----------

  /** What stands at a path of keys. */
  function At<E>(t: Tree<E>, path: seq<string>): Option<Tree<E>> {
    if path == [] then Some(t)
    else if t.Dict? && path[0] in t.entries then At(t.entries[path[0]], path[1..])
    else None
  }

  lemma AtKey<E>(t: Tree<E>, k: string, path: seq<string>)
    ensures At(t, [k] + path) == if t.Dict? && k in t.entries then At(t.entries[k], path) else None
  {
    assert ([k] + path)[1..] == path;
  }

  /** The Python type of what stands there. */
  function TypeName<E>(t: Tree<E>): string {
    match t
    case Leaf(Text(_)) => "str"
    case Leaf(Number(_)) => "int"
    case Leaf(Float(_)) => "float"
    case Leaf(Flag(_)) => "bool"
    case Leaf(Null) => "NoneType"
    case Leaf(Date(_)) => "date"
    case List(_) => "list"
    case Dict(_) => "dict"
  }

  predicate AgreeAt<E>(left: Tree<E>, right: Tree<E>, path: seq<string>) {
    var l, r := At(left, path), At(right, path);
    r.Some? ==> TypeName(r.value) != "date" && (l.Some? ==> TypeName(l.value) == TypeName(r.value))
  }

  /** Which types are the same, by their names. */
  lemma TypesByName<E>(a: Tree<E>, b: Tree<E>)
    ensures IsDate(a) <==> TypeName(a) == "date"
    ensures SameType(a, b) <==> TypeName(a) == TypeName(b)
  {
    assert |"str"| == |"int"| == 3 && |"bool"| == |"date"| == |"list"| == |"dict"| == 4 && |"float"| == 5;
    assert "str"[0] == 's' && "int"[0] == 'i' && "bool"[0] == 'b' && "date"[1] == 'a' && "list"[0] == 'l';
    assert "date"[0] == 'd' && "dict"[0] == 'd' && "dict"[1] == 'i' && |"NoneType"| == 8;
  }

  lemma NothingBelow<E>(path: seq<string>)
    ensures At<E>(Empty(), path) == if path == [] then Some(Empty()) else None
  {
  }

  lemma NonDictAt<E>(t: Tree<E>, path: seq<string>)
    requires !t.Dict?
    ensures At(t, path) == if path == [] then Some(t) else None
  {
  }

  lemma {:induction false} CompatibleAgrees<E>(left: Tree<E>, right: Tree<E>, path: seq<string>)
    requires left.Dict? && right.Dict? && Compatible(left, right)
    ensures AgreeAt(left, right, path)
    decreases |path|
  {
    hide TypeName;
    TypesByName(left, right);
    if path != [] && path[0] in right.entries {
      var l, r := Get(left, path[0]), right.entries[path[0]];
      FitCases(l, r);
      TypesByName(r, r);
      if r.Dict? {
        CompatibleAgrees(Start(l, r).value, r, path[1..]);
      } else {
        NonDictAt(r, path[1..]);
        if l.Some? { TypesByName(l.value, r); }
        if path[1..] == [] { assert At(left, path) == l; }
      }
    }
  }

  lemma {:induction false} AgreeingIsCompatible<E>(left: Tree<E>, right: Tree<E>)
    requires left.Dict? && right.Dict? && forall path :: AgreeAt(left, right, path)
    ensures Compatible(left, right)
    decreases right
  {
    hide TypeName;
    forall k | k in right.entries ensures Fits(Get(left, k), right.entries[k]) {
      var l, r := Get(left, k), right.entries[k];
      TypesByName(if l.Some? then l.value else r, r);
      TypesByName(r, r);
      TypesByName(Empty(), r);
      AtKey(left, k, []);
      AtKey(right, k, []);
      assert AgreeAt(left, right, [k] + []);
      if r.Dict? {
        var start := Start(l, r).value;
        forall path ensures AgreeAt(start, r, path) {
          AtKey(left, k, path);
          AtKey(right, k, path);
          assert AgreeAt(left, right, [k] + path);
          NothingBelow<E>(path);
        }
        AgreeingIsCompatible(start, r);
      }
    }
  }

  /** The merge succeeds exactly if the types agree at every path both sides have, and
      the right side has no value whose type cannot be made from nothing. */
  lemma MergeSucceedsIffTypesAgree<E>(left: Tree<E>, right: Tree<E>)
    requires left.Dict? && right.Dict?
    ensures Compatible(left, right) <==> forall path :: AgreeAt(left, right, path)
  {
    if Compatible(left, right) {
      forall path ensures AgreeAt(left, right, path) { CompatibleAgrees(left, right, path); }
    }
    if forall path :: AgreeAt(left, right, path) { AgreeingIsCompatible(left, right); }
  }

  /** `''`, `0`, `0.0`, `False` and `None`; there is no empty date. */
  predicate IsEmptyScalar(s: Scalar) {
    s == Text("") || s == Number(0) || s == Float(0.0) || s == Flag(false) || s == Null
  }

  /** What two sides leave at a path. */
  ghost predicate JoinedAt<E>(l: Option<Tree<E>>, r: Option<Tree<E>>, m: Option<Tree<E>>) {
    match (l, r)
    case (None, None) => m.None?
    case (Some(x), None) => m == l
    case (None, Some(List(b))) => m == r
    case (None, Some(Leaf(_))) =>
      m.Some? && m.value.Leaf? && IsEmptyScalar(m.value.scalar) && TypeName(m.value) == TypeName(r.value)
    case (Some(List(a)), Some(List(b))) => m == Some(List(a + b))
    case (Some(Leaf(_)), Some(Leaf(_))) => m == l
    case _ => m.Some? && m.value.Dict?
  }

  /** The merged tree, path by path: the paths of both sides, each list the left list
      followed by the right one, a scalar of the left kept, and a scalar that only the
      right has replaced by the empty value of its type. */
  lemma {:induction false} MergedAtPath<E>(left: Tree<E>, right: Tree<E>, path: seq<string>)
    requires left.Dict? && right.Dict? && Compatible(left, right)
    ensures JoinedAt(At(left, path), At(right, path), At(Merged(left, right), path))
    decreases |path|
  {
    hide Merged, Joined;
    MergedKeys(left, right);
    if path != [] && path[0] in right.entries {
      var l, r := Get(left, path[0]), right.entries[path[0]];
      FitCases(l, r);
      var start := Start(l, r).value;
      if r.Dict? {
        MergedAtPath(start, r, path[1..]);
        NothingBelow<E>(path[1..]);
      } else {
        NonDictAt(r, path[1..]);
        NonDictAt(start, path[1..]);
        NonDictAt(Joined(l, r), path[1..]);
        if r.List? { assert [] + r.items == r.items; }
      }
    }
  }

  // ---------- the monoid ----------

  lemma {:induction false} EmptyRight<E>(a: Tree<E>)
    requires a.Dict?
    ensures Compatible(a, Empty()) && Merged(a, Empty()) == a
  {
    assert Merged(a, Empty()).entries == a.entries;
  }

  ghost predicate AllDefault<E>(t: Tree<E>)
    decreases t
  {
    match t
    case Leaf(s) => IsEmptyScalar(s)
    case List(_) => true
    case Dict(entries) => forall k :: k in entries ==> AllDefault(entries[k])
  }

  /** `{}` is a left identity for exactly the trees whose scalars are all empty values. */
  lemma {:induction false} EmptyLeft<E>(r: Tree<E>)
    requires r.Dict?
    ensures Compatible(Empty(), r) && Merged(Empty(), r) == r <==> AllDefault(r)
    decreases r, 0
  {
    hide Compatible, Merged, AllDefault, Fits, Joined;
    forall k | k in r.entries ensures Fits(None, r.entries[k]) && Joined(None, r.entries[k]) == r.entries[k] <==>
      AllDefault(r.entries[k]) {
      EmptyLeftValue(r.entries[k]);
    }
    MergedKeys(Empty(), r);
    EmptyLeftKeys(r);
  }

  lemma EmptyLeftKeys<E>(r: Tree<E>)
    requires r.Dict?
    ensures Compatible(Empty(), r) <==> forall k :: k in r.entries ==> Fits(None, r.entries[k])
    ensures Merged(Empty(), r) == r <==> forall k :: k in r.entries ==> Joined(None, r.entries[k]) == r.entries[k]
    ensures AllDefault(r) <==> forall k :: k in r.entries ==> AllDefault(r.entries[k])
  {
    hide Fits, Joined;
    if forall k :: k in r.entries ==> Joined(None, r.entries[k]) == r.entries[k] {
      assert Merged(Empty(), r).entries == r.entries;
    }
    if Merged(Empty(), r) == r {
      forall k | k in r.entries ensures Joined(None, r.entries[k]) == r.entries[k] {
        assert Merged(Empty(), r).entries[k] == r.entries[k];
      }
    }
  }

  lemma {:induction false} EmptyLeftValue<E>(r: Tree<E>)
    ensures Fits(None, r) && Joined(None, r) == r <==> AllDefault(r)
    decreases r, 1
  {
    hide Compatible, Merged;
    if r.Dict? {
      EmptyLeft(r);
    } else if r.List? {
      assert [] + r.items == r.items;
    }
  }

  predicate BothFit<E>(a: Tree<E>, b: Tree<E>, c: Tree<E>)
    requires a.Dict? && b.Dict? && c.Dict?
  {
    Compatible(a, b) && Compatible(Merged(a, b), c)
  }

  predicate InnerFit<E>(a: Tree<E>, b: Tree<E>, c: Tree<E>)
    requires a.Dict? && b.Dict? && c.Dict?
  {
    Compatible(b, c) && Compatible(a, Merged(b, c))
  }

  /** The same for one key, where a side may have nothing. */
  function Both<E>(x: Option<Tree<E>>, y: Option<Tree<E>>): Option<Tree<E>> {
    if y.Some? then Some(Joined(x, y.value)) else x
  }

  predicate OuterFits<E>(x: Option<Tree<E>>, y: Option<Tree<E>>, z: Tree<E>) {
    (y.Some? ==> Fits(x, y.value)) && Fits(Both(x, y), z)
  }

  predicate InnerFits<E>(x: Option<Tree<E>>, y: Option<Tree<E>>, z: Tree<E>) {
    Fits(y, z) && Fits(x, Joined(y, z))
  }

  lemma {:induction false} ValueAssociative<E>(x: Option<Tree<E>>, y: Option<Tree<E>>, z: Tree<E>)
    ensures OuterFits(x, y, z) <==> InnerFits(x, y, z)
    ensures OuterFits(x, y, z) ==> Joined(Both(x, y), z) == Joined(x, Joined(y, z))
    decreases z, 1
  {
    hide Compatible, Merged;
    if z.Dict? {
      if (x.None? || x.value.Dict?) && (y.None? || y.value.Dict?) {
        var a, b := if x.Some? then x.value else Empty(), if y.Some? then y.value else Empty();
        MergeIsAssociative(a, b, z);
        EmptyRight(a);
      }
    } else if z.List? {
      if x.Some? && x.value.List? && y.Some? && y.value.List? {
        assert x.value.items + y.value.items + z.items == x.value.items + (y.value.items + z.items);
      }
      ListUnits(x, y, z.items);
    }
  }

  lemma ListUnits<E>(x: Option<Tree<E>>, y: Option<Tree<E>>, items: seq<E>)
    ensures [] + items == items
    ensures x.Some? && x.value.List? ==> x.value.items + [] == x.value.items
    ensures y.Some? && y.value.List? ==> [] + y.value.items == y.value.items
                                         && [] + (y.value.items + items) == y.value.items + items
  {
  }

  /** Keys that the last side leaves alone. */
  predicate OthersFit<E>(a: Tree<E>, b: Tree<E>, c: Tree<E>)
    requires a.Dict? && b.Dict? && c.Dict?
  {
    forall k :: k in b.entries && k !in c.entries ==> Fits(Get(a, k), b.entries[k])
  }

  lemma BothByKeys<E>(a: Tree<E>, b: Tree<E>, c: Tree<E>)
    requires a.Dict? && b.Dict? && c.Dict?
    ensures BothFit(a, b, c)
       <==> OthersFit(a, b, c) && forall k :: k in c.entries ==> OuterFits(Get(a, k), Get(b, k), c.entries[k])
    ensures forall k :: k in c.entries ==> Merged(Merged(a, b), c).entries[k]
                                           == Joined(Both(Get(a, k), Get(b, k)), c.entries[k])
  {
    hide Fits, Joined, Merged;
    MergedKeys(a, b);
    MergedKeys(Merged(a, b), c);
    forall k ensures Get(Merged(a, b), k) == Both(Get(a, k), Get(b, k)) {}
    if OthersFit(a, b, c) && forall k :: k in c.entries ==> OuterFits(Get(a, k), Get(b, k), c.entries[k]) {
      forall k | k in b.entries ensures Fits(Get(a, k), b.entries[k]) {
        if k in c.entries { assert OuterFits(Get(a, k), Get(b, k), c.entries[k]); }
      }
    }
  }

  lemma InnerByKeys<E>(a: Tree<E>, b: Tree<E>, c: Tree<E>)
    requires a.Dict? && b.Dict? && c.Dict?
    ensures InnerFit(a, b, c)
       <==> OthersFit(a, b, c) && forall k :: k in c.entries ==> InnerFits(Get(a, k), Get(b, k), c.entries[k])
    ensures forall k :: k in c.entries ==> Merged(a, Merged(b, c)).entries[k]
                                           == Joined(Get(a, k), Joined(Get(b, k), c.entries[k]))
  {
    hide Fits, Joined, Merged;
    MergedKeys(b, c);
    MergedKeys(a, Merged(b, c));
  }

  lemma SameElsewhere<E>(a: Tree<E>, b: Tree<E>, c: Tree<E>)
    requires a.Dict? && b.Dict? && c.Dict?
    requires forall k :: k in c.entries ==> Merged(Merged(a, b), c).entries[k] == Merged(a, Merged(b, c)).entries[k]
    ensures Merged(Merged(a, b), c) == Merged(a, Merged(b, c))
  {
    hide Joined, Merged;
    MergedKeys(a, b);
    MergedKeys(b, c);
    MergedKeys(Merged(a, b), c);
    MergedKeys(a, Merged(b, c));
    assert Merged(Merged(a, b), c).entries == Merged(a, Merged(b, c)).entries;
  }

  /** Merging is associative, errors included. */
  lemma {:induction false} MergeIsAssociative<E>(a: Tree<E>, b: Tree<E>, c: Tree<E>)
    requires a.Dict? && b.Dict? && c.Dict?
    ensures BothFit(a, b, c) <==> InnerFit(a, b, c)
    ensures BothFit(a, b, c) ==> Merged(Merged(a, b), c) == Merged(a, Merged(b, c))
    decreases c, 0
  {
    hide Joined, Merged, BothFit, InnerFit, OthersFit, OuterFits, InnerFits;
    BothByKeys(a, b, c);
    InnerByKeys(a, b, c);
    forall k | k in c.entries
      ensures OuterFits(Get(a, k), Get(b, k), c.entries[k]) <==> InnerFits(Get(a, k), Get(b, k), c.entries[k])
      ensures OuterFits(Get(a, k), Get(b, k), c.entries[k]) ==>
                Joined(Both(Get(a, k), Get(b, k)), c.entries[k]) == Joined(Get(a, k), Joined(Get(b, k), c.entries[k]))
    {
      ValueAssociative(Get(a, k), Get(b, k), c.entries[k]);
    }
    if BothFit(a, b, c) { SameElsewhere(a, b, c); }
  }

  // ---------- folding files ----------

  /** Merging into a result that may already have failed. */
  function Step<E>(acc: Option<Tree<E>>, file: Tree<E>): (r: Option<Tree<E>>)
    requires file.Dict? && (acc.Some? ==> acc.value.Dict?)
    ensures r.Some? ==> r.value.Dict?
  {
    if acc.Some? && Compatible(acc.value, file) then Some(Merged(acc.value, file)) else None
  }

  predicate AllDicts<E>(files: seq<Tree<E>>) { forall i :: 0 <= i < |files| ==> files[i].Dict? }

  /** All files merged into `acc`, in order. */
  function Fold<E>(acc: Option<Tree<E>>, files: seq<Tree<E>>): (r: Option<Tree<E>>)
    requires AllDicts(files) && (acc.Some? ==> acc.value.Dict?)
    ensures r.Some? ==> r.value.Dict?
    decreases |files|
  {
    if files == [] then acc else Step(Fold(acc, files[..|files| - 1]), files[|files| - 1])
  }

  function Combine<E>(a: Option<Tree<E>>, b: Option<Tree<E>>): Option<Tree<E>>
    requires (a.Some? ==> a.value.Dict?) && (b.Some? ==> b.value.Dict?)
  {
    if b.None? then None else Step(a, b.value)
  }

  lemma {:induction false} FoldFrom<E>(acc: Tree<E>, files: seq<Tree<E>>)
    requires acc.Dict? && AllDicts(files)
    ensures Fold(Some(acc), files) == Combine(Some(acc), Fold(Some(Empty()), files))
    decreases |files|
  {
    hide Compatible, Merged;
    if files == [] {
      EmptyRight(acc);
    } else {
      var init, last := files[..|files| - 1], files[|files| - 1];
      FoldFrom(acc, init);
      var rest := Fold(Some(Empty()), init);
      if rest.Some? { MergeIsAssociative(acc, rest.value, last); }
    }
  }

  lemma {:induction false} FoldAppend<E>(acc: Option<Tree<E>>, a: seq<Tree<E>>, b: seq<Tree<E>>)
    requires AllDicts(a) && AllDicts(b) && (acc.Some? ==> acc.value.Dict?)
    ensures Fold(acc, a + b) == Fold(Fold(acc, a), b)
    decreases |b|
  {
    hide Step;
    if b == [] {
      assert a + b == a;
    } else {
      FoldAppend(acc, a, b[..|b| - 1]);
      assert (a + b)[..|a + b| - 1] == a + b[..|b| - 1];
    }
  }

  lemma {:induction false} FoldOfNothing<E>(files: seq<Tree<E>>)
    requires AllDicts(files)
    ensures Fold<E>(None, files) == None
    decreases |files|
  {
    if files != [] { FoldOfNothing(files[..|files| - 1]); }
  }

  /** Folding the files one by one is merging the results of any split of them. */
  lemma FoldIsMergeOfSplit<E>(a: seq<Tree<E>>, b: seq<Tree<E>>)
    requires AllDicts(a) && AllDicts(b)
    ensures Fold(Some(Empty()), a + b) == Combine(Fold(Some(Empty()), a), Fold(Some(Empty()), b))
  {
    hide Fold, Step;
    FoldAppend(Some(Empty()), a, b);
    var left := Fold(Some(Empty()), a);
    if left.Some? {
      FoldFrom(left.value, b);
    } else {
      FoldOfNothing(b);
      StepOfNothing(Fold(Some(Empty()), b));
    }
  }

  lemma StepOfNothing<E>(b: Option<Tree<E>>)
    requires b.Some? ==> b.value.Dict?
    ensures Combine(None, b) == None
  {
  }
}
