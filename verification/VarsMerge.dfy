/** `_merge` and `_load_files_in_dir` of plugins/action/include_vars_merged.py, on dict and
    list objects that are updated in place. */
module VarsMerge {
  import opened HostModel
  import opened MergeTree

  datatype Value = Plain(scalar: Scalar) | ListRef(list: PyList) | DictRef(dict: PyDict)

  class PyList {
    var items: seq<Value>

    constructor ()
      ensures items == []
    {
      items := [];
    }

    method Extend(other: PyList)
      modifies this
      ensures items == old(items) + old(other.items)
    {
      items := items + other.items;
    }
  }

  /** `Valid`: the nested dicts and lists form a tree, no container is reached twice, so the
      dict can be updated in place. `Readable`: they may be shared, as YAML anchors make them,
      but no container holds itself. */
  class PyDict {
    var items: map<string, Value>
    ghost var Repr: set<object>
    ghost var Model: Tree<Value>

    ghost predicate Valid()
      reads this, Repr
      ensures Valid() ==> this in Repr && Model.Dict?
      decreases Repr, 0
    {
      && this in Repr && Model.Dict? && Model.entries.Keys == items.Keys
      && (forall k :: k in items ==> Owns(k))
      && (forall j, k :: j in items && k in items && j != k ==> Containers(items[j]) !! Containers(items[k]))
    }

    /** The value at `k` belongs to this dict alone and reads as the model says. */
    ghost predicate Owns(k: string)
      requires this in Repr && Model.Dict? && Model.entries.Keys == items.Keys && k in items
      reads this, Repr
      decreases Repr, 0, 0
    {
      && Roots(items[k]) <= Repr
      && Containers(items[k]) <= Repr - {this}
      && IsTree(items[k], Model.entries[k])
    }

    ghost predicate Readable()
      reads this, Repr
      ensures Readable() ==> this in Repr && Model.Dict?
      decreases Repr, 0
    {
      && this in Repr && Model.Dict? && Model.entries.Keys == items.Keys
      && (forall k :: k in items ==> Reads(k))
    }

    ghost predicate Reads(k: string)
      requires this in Repr && Model.Dict? && Model.entries.Keys == items.Keys && k in items
      reads this, Repr
      decreases Repr, 0, 0
    {
      && Roots(items[k]) <= Repr
      && Containers(items[k]) <= Repr - {this}
      && ReadsAs(items[k], Model.entries[k])
    }

    constructor ()
      ensures Valid() && fresh(Repr) && Model == Empty() && items == map[]
    {
      items, Repr, Model := map[], {this}, Empty();
    }
  }

  ghost function Roots(v: Value): set<object> {
    match v
    case Plain(_) => {}
    case ListRef(l) => {l}
    case DictRef(d) => {d}
  }

  /** The containers a value consists of. */
  ghost function Containers(v: Value): set<object>
    reads Roots(v)
  {
    match v
    case Plain(_) => {}
    case ListRef(l) => {l}
    case DictRef(d) => d.Repr
  }

  ghost predicate IsTree(v: Value, t: Tree<Value>)
    reads Roots(v), Containers(v)
    decreases Containers(v), 1
  {
    match v
    case Plain(s) => t == Leaf(s)
    case ListRef(l) => t == List(l.items)
    case DictRef(d) => d.Valid() && t == d.Model
  }

  ghost predicate ReadsAs(v: Value, t: Tree<Value>)
    reads Roots(v), Containers(v)
    decreases Containers(v), 1
  {
    match v
    case Plain(s) => t == Leaf(s)
    case ListRef(l) => t == List(l.items)
    case DictRef(d) => d.Readable() && t == d.Model
  }

  /** A tree can be read. */
  lemma {:induction false} ValidIsReadable(d: PyDict)
    requires d.Valid()
    ensures d.Readable()
    decreases d.Repr
  {
    forall k | k in d.items ensures d.Reads(k) {
      OwnedValue(d, k);
      if d.items[k].DictRef? { ValidIsReadable(d.items[k].dict); }
    }
  }

  /** One list under two keys, as an anchor makes it, can be read though it is no tree. */
  method Anchored(a: string, b: string) returns (d: PyDict)
    requires a != b
    ensures fresh(d) && d.Readable() && !d.Valid() && d.items.Keys == {a, b} && d.items[a] == d.items[b]
  {
    d := new PyDict();
    var l := new PyList();
    d.items := map[a := ListRef(l), b := ListRef(l)];
    d.Repr, d.Model := {d, l}, Dict(map[a := List(l.items), b := List(l.items)]);
    assert d.Reads(a) && d.Reads(b);
    assert l in Containers(d.items[a]) && l in Containers(d.items[b]);
  }

  /** `type(a) == type(b)` */
  predicate SameKind(a: Value, b: Value) {
    match (a, b)
    case (Plain(x), Plain(y)) => SameType<Value>(Leaf(x), Leaf(y))
    case _ => (a.ListRef? <==> b.ListRef?) && (a.DictRef? <==> b.DictRef?)
  }

  /** The value and its reading are of the same type. */
  predicate SameShape(v: Value, t: Tree<Value>) {
    match v
    case Plain(s) => t.Leaf? && t.scalar == s
    case ListRef(_) => t.List?
    case DictRef(_) => t.Dict?
  }

  /** `type(r)()`, when the type can be made from nothing. */
  method MakeDefault(r: Value, ghost t: Tree<Value>) returns (v: Value)
    requires SameShape(r, t) && !IsDate(t)
    ensures Roots(v) <= Containers(v) && fresh(Containers(v)) && IsTree(v, Default(t).value)
  {
    match r {
      case Plain(Text(_)) => v := Plain(Text(""));
      case Plain(Number(_)) => v := Plain(Number(0));
      case Plain(Float(_)) => v := Plain(Float(0.0));
      case Plain(Flag(_)) => v := Plain(Flag(false));
      case Plain(Null) => v := Plain(Null);
      case ListRef(_) => var l := new PyList(); v := ListRef(l);
      case DictRef(_) => var d := new PyDict(); v := DictRef(d);
    }
  }

  /** What `Valid` says of one key. */
  lemma OwnedValue(left: PyDict, k: string)
    requires left.Valid() && k in left.items
    ensures var v := left.items[k];
            Roots(v) <= Containers(v) <= left.Repr - {left} && IsTree(v, left.Model.entries[k])
  {
    assert left.Owns(k);
    assert IsTree(left.items[k], left.Model.entries[k]);
  }

  /** The dict is as its model says, except perhaps at `key`. */
  ghost predicate ValidBut(left: PyDict, key: string)
    reads left, left.Repr
  {
    && left in left.Repr && left.Model.Dict? && left.Model.entries.Keys == left.items.Keys
    && (forall k :: k in left.items ==> Roots(left.items[k]) <= left.Repr)
    && (forall k :: k in left.items && k != key ==>
          Roots(left.items[k]) <= Containers(left.items[k]) <= left.Repr - {left}
            && IsTree(left.items[k], left.Model.entries[k]))
    && (forall j, k :: j in left.items && k in left.items && j != k ==>
          Containers(left.items[j]) !! Containers(left.items[k]))
  }

  lemma ValidIsValidBut(left: PyDict, key: string)
    requires left.Valid()
    ensures ValidBut(left, key)
  {
    forall k | k in left.items
      ensures Roots(left.items[k]) <= Containers(left.items[k]) <= left.Repr - {left}
      ensures IsTree(left.items[k], left.Model.entries[k])
    {
      OwnedValue(left, k);
    }
  }

  /** A dict that is as its model says at `key` too. */
  lemma RepairedIsValid(left: PyDict, key: string)
    requires ValidBut(left, key) && key in left.items
    requires Roots(left.items[key]) <= Containers(left.items[key]) <= left.Repr - {left}
    requires IsTree(left.items[key], left.Model.entries[key])
    ensures left.Valid()
  {
    forall k | k in left.items ensures left.Owns(k) {}
  }

  /** A value that shares nothing with the dict keeps the containers of its keys apart. */
  lemma PutKeepsApart(items: map<string, Value>, repr: set<object>, key: string, v: Value)
    requires key !in items && Containers(v) !! repr
    requires forall k :: k in items ==> Containers(items[k]) <= repr
    requires forall j, k :: j in items && k in items && j != k ==> Containers(items[j]) !! Containers(items[k])
    ensures var items' := items[key := v];
            forall j, k :: j in items' && k in items' && j != k ==> Containers(items'[j]) !! Containers(items'[k])
  {
    hide Containers;
    var items' := items[key := v];
    forall j, k | j in items' && k in items' && j != k ensures Containers(items'[j]) !! Containers(items'[k]) {
      assert k != key ==> Containers(items'[k]) <= repr;
      assert j != key ==> Containers(items'[j]) <= repr;
    }
  }

  /** What the old values consist of does not include the dict, so writing to it leaves them. */
  lemma OwnedApart(left: PyDict, key: string)
    requires left.Valid() && key !in left.items
    ensures forall k :: k in left.items ==>
              Roots(left.items[k]) <= Containers(left.items[k]) <= left.Repr - {left}
              && IsTree(left.items[k], left.Model.entries[k])
    ensures forall j, k :: j in left.items && k in left.items && j != k ==>
              Containers(left.items[j]) !! Containers(left.items[k])
  {
    hide IsTree, Containers, Roots, PyDict.Valid, PyDict.Owns;
    ValidIsValidBut(left, key);
  }

  /** `ValidBut`, from what holds of the other keys and of the new one. */
  lemma PlacedIsValidBut(left: PyDict, key: string)
    requires left in left.Repr && left.Model.Dict? && left.Model.entries.Keys == left.items.Keys
    requires key in left.items && Roots(left.items[key]) <= left.Repr
    requires forall k :: k in left.items && k != key ==>
               Roots(left.items[k]) <= Containers(left.items[k]) <= left.Repr - {left}
               && IsTree(left.items[k], left.Model.entries[k])
    requires forall j, k :: j in left.items && k in left.items && j != k ==>
               Containers(left.items[j]) !! Containers(left.items[k])
    ensures ValidBut(left, key)
  {
  }

  /** `left[key] = v`, for a new key and a value that shares nothing with the dict. */
  method Put(left: PyDict, key: string, v: Value, ghost t: Tree<Value>)
    requires left.Valid() && key !in left.items
    requires IsTree(v, t) && Roots(v) <= Containers(v) && Containers(v) !! left.Repr
    modifies left
    ensures left.Valid() && left.Repr == old(left.Repr) + Containers(v)
    ensures left.items == old(left.items)[key := v]
    ensures left.Model == Dict(old(left.Model).entries[key := t])
  {
    hide PyDict.Valid, PyDict.Owns, IsTree, Containers, Roots, ValidBut;
    OwnedApart(left, key);
    SameKeys(left);
    PutKeepsApart(left.items, left.Repr, key, v);
    left.items, left.Repr, left.Model :=
      left.items[key := v], left.Repr + Containers(v), Dict(left.Model.entries[key := t]);
    PlacedIsValidBut(left, key);
    RepairedIsValid(left, key);
  }

  lemma OwnedDict(left: PyDict, key: string)
    requires left.Valid() && key in left.items && left.items[key].DictRef?
    ensures var d := left.items[key].dict; d.Valid() && d.Repr <= left.Repr - {left}
                                           && left.Model.entries[key] == d.Model
  {
    assert left.Owns(key);
    assert IsTree(left.items[key], left.Model.entries[key]);
  }

  /** What `Readable` says of one key. */
  lemma ReadValue(right: PyDict, k: string)
    requires right.Readable() && k in right.items
    ensures var v := right.items[k];
            Roots(v) <= right.Repr && Containers(v) <= right.Repr - {right} && ReadsAs(v, right.Model.entries[k])
  {
    assert right.Reads(k);
    assert ReadsAs(right.items[k], right.Model.entries[k]);
  }

  /** `left[key].extend(right[key])` */
  method ExtendAt(left: PyDict, key: string, other: PyList)
    requires left.Valid() && key in left.items && left.items[key].ListRef? && other !in left.Repr
    modifies left, left.items[key].list
    ensures left.Valid() && left.Repr == old(left.Repr)
    ensures left.Model == Dict(old(left.Model).entries[key := List(old(left.items[key].list.items) + other.items)])
  {
    hide PyDict.Valid, PyDict.Owns;
    ValidIsValidBut(left, key);
    OwnedValue(left, key);
    var l := left.items[key].list;
    l.Extend(other);
    left.Model := Dict(left.Model.entries[key := List(l.items)]);
    RepairedIsValid(left, key);
  }

  lemma DictIsTree(d: PyDict)
    requires d.Valid()
    ensures IsTree(DictRef(d), d.Model) && Containers(DictRef(d)) == d.Repr && d in d.Repr
  {
  }

  /** Take over what a nested dict has become. */
  ghost method Adopt(left: PyDict, key: string)
    requires ValidBut(left, key) && key in left.items && left.items[key].DictRef?
    requires var d := left.items[key].dict; d.Valid() && left !in d.Repr
    modifies left`Repr, left`Model
    ensures left.Valid() && left.Repr == old(left.Repr) + left.items[key].dict.Repr
    ensures left.Model == Dict(old(left.Model).entries[key := left.items[key].dict.Model])
  {
    hide PyDict.Valid, PyDict.Owns, IsTree;
    var d := left.items[key].dict;
    DictIsTree(d);
    left.Repr := left.Repr + d.Repr;
    left.Model := Dict(left.Model.entries[key := d.Model]);
    DictIsTree(d);
    RepairedIsValid(left, key);
  }

  /** `self._merge(left[key], right[key])` */
  method MergeAt(left: PyDict, key: string, right: PyDict) returns (ok: bool)
    requires left.Valid() && key in left.items && left.items[key].DictRef? && left.Model.entries[key].Dict?
    requires right.Readable() && left.Repr !! right.Repr
    modifies left.Repr
    ensures left.Valid() && fresh(left.Repr - old(left.Repr)) && left.Repr >= old(left.Repr)
    ensures ok <==> Compatible(old(left.Model).entries[key], right.Model)
    ensures ok ==> left.Model == Dict(old(left.Model).entries[key := Merged(old(left.Model).entries[key], right.Model)])
    decreases right.Repr, 1
  {
    hide Compatible, Merged, IsTree;
    var child := left.items[key].dict;
    ValidIsValidBut(left, key);
    OwnedDict(left, key);
    ok := Merge(child, right);
    Adopt(left, key);
  }

  lemma KindIsType(v: Value, tv: Tree<Value>, r: Value, t: Tree<Value>)
    requires IsTree(v, tv) && ReadsAs(r, t)
    ensures SameKind(v, r) <==> SameType(tv, t)
    ensures (v.DictRef? <==> tv.Dict?) && (v.ListRef? <==> tv.List?)
    ensures r.ListRef? ==> t == List(r.list.items)
    ensures v.ListRef? ==> tv == List(v.list.items)
    ensures r.DictRef? ==> r.dict.Readable() && t == r.dict.Model
  {
  }

  /** `left[key] = left.get(key, type(right[key])())`, if that raises no error. */
  method SetDefault(left: PyDict, right: PyDict, key: string) returns (ok: bool)
    requires left.Valid() && right.Readable() && left.Repr !! right.Repr && key in right.items
    modifies left
    ensures left.Valid() && fresh(left.Repr - old(left.Repr)) && left.Repr >= old(left.Repr)
    ensures ok <==> !IsDate(right.Model.entries[key])
    ensures ok ==> key in left.items
    ensures ok ==> left.Model == Dict(old(left.Model).entries[key := Start(Get(old(left.Model), key),
                                                                           right.Model.entries[key]).value])
  {
    hide IsTree, PyDict.Valid, PyDict.Owns, PyDict.Readable, PyDict.Reads;
    SameKeys(left);
    var r := right.items[key];
    ReadKeys(right);
    ReadValue(right, key);
    ghost var t := right.Model.entries[key];
    assert SameShape(r, t);
    if r.Plain? && r.scalar.Date? {
      return false;
    }
    ok := true;
    if key !in left.items {
      var v := MakeDefault(r, t);
      Put(left, key, v, Default(t).value);
    } else {
      assert left.Model.entries[key := left.Model.entries[key]] == left.Model.entries;
    }
  }

  lemma FromStart(l: Option<Tree<Value>>, t: Tree<Value>)
    ensures IsDate(t) ==> !Fits(l, t)
    ensures !IsDate(t) ==> Start(l, t).Some? && (Fits(l, t) <==>
                                                 SameType(Start(l, t).value, t)
                                                   && (t.Dict? ==> Compatible(Start(l, t).value, t)))
    ensures Fits(l, t) && t.Leaf? ==> Joined(l, t) == Start(l, t).value
    ensures Fits(l, t) && t.List? ==> Joined(l, t) == List(Start(l, t).value.items + t.items)
    ensures Fits(l, t) && t.Dict? ==> Joined(l, t) == Merged(Start(l, t).value, t)
  {
    hide Compatible, Merged;
  }

  lemma PutTwice(t: Tree<Value>, k: string, a: Tree<Value>, b: Tree<Value>)
    requires t.Dict?
    ensures Dict(Dict(t.entries[k := a]).entries[k := b]) == Dict(t.entries[k := b])
  {
    assert t.entries[k := a][k := b] == t.entries[k := b];
  }

  /** One turn of the loop of `_merge`. */
  method MergeKey(left: PyDict, right: PyDict, key: string) returns (ok: bool)
    requires left.Valid() && right.Readable() && left.Repr !! right.Repr && key in right.items
    modifies left.Repr
    ensures left.Valid() && fresh(left.Repr - old(left.Repr)) && left.Repr >= old(left.Repr)
    ensures ok <==> Fits(Get(old(left.Model), key), right.Model.entries[key])
    ensures ok ==> left.Model == Dict(old(left.Model).entries[key := Joined(Get(old(left.Model), key),
          right.Model.entries[key])])
    decreases right.Repr, 0, 0
  {
    hide IsTree, ReadsAs, Compatible, Merged, Fits, Joined, Start, SameType, PyDict.Valid, PyDict.Owns,
         PyDict.Readable, PyDict.Reads;
    ReadKeys(right);
    ghost var before, t := left.Model, right.Model.entries[key];
    FromStart(Get(before, key), t);
    ok := SetDefault(left, right, key);
    if !ok {
      return;
    }
    ghost var start := Start(Get(before, key), t).value;
    var l, r := left.items[key], right.items[key];
    OwnedValue(left, key);
    ReadValue(right, key);
    KindIsType(l, start, r, t);
    if !SameKind(l, r) {
      return false;
    }
    PutTwice(before, key, start, Joined(Get(before, key), t));
    if r.ListRef? {
      ExtendAt(left, key, r.list);
    } else if r.DictRef? {
      ok := MergeAt(left, key, r.dict);
    }
  }

  /** What `left` has become when all keys but those in `todo` have been merged. */
  ghost function MergedBut(left: Tree<Value>, right: Tree<Value>, todo: set<string>): Tree<Value>
    requires left.Dict? && right.Dict?
  {
    Dict(map k | k in left.entries.Keys + (right.entries.Keys - todo) ::
      if k in right.entries && k !in todo then Joined(Get(left, k), right.entries[k]) else left.entries[k])
  }

  ghost predicate FitsBut(left: Tree<Value>, right: Tree<Value>, todo: set<string>)
    requires left.Dict? && right.Dict?
  {
    forall k :: k in right.entries && k !in todo ==> Fits(Get(left, k), right.entries[k])
  }

  lemma NothingMerged(left: Tree<Value>, right: Tree<Value>)
    requires left.Dict? && right.Dict?
    ensures MergedBut(left, right, right.entries.Keys) == left && FitsBut(left, right, right.entries.Keys)
  {
    assert MergedBut(left, right, right.entries.Keys).entries == left.entries;
  }

  lemma OneMoreMerged(left: Tree<Value>, right: Tree<Value>, todo: set<string>, key: string)
    requires left.Dict? && right.Dict? && key in right.entries && key in todo
    ensures var now := MergedBut(left, right, todo);
            && Get(now, key) == Get(left, key)
            && Dict(now.entries[key := Joined(Get(left, key), right.entries[key])])
               == MergedBut(left, right, todo - {key})
    ensures FitsBut(left, right, todo - {key}) <==> FitsBut(left, right, todo)
                                                    && Fits(Get(left, key), right.entries[key])
  {
    hide Joined, Fits;
    var now := MergedBut(left, right, todo);
    assert now.entries[key := Joined(Get(left, key), right.entries[key])]
           == MergedBut(left, right, todo - {key}).entries;
  }

  lemma AllMerged(left: Tree<Value>, right: Tree<Value>)
    requires left.Dict? && right.Dict?
    ensures MergedBut(left, right, {}) == Merged(left, right)
    ensures FitsBut(left, right, {}) <==> Compatible(left, right)
  {
    hide Joined, Fits;
    assert MergedBut(left, right, {}).entries == Merged(left, right).entries;
  }

  /** `_merge`, the keys in any order: it raises an error exactly if the trees do not fit,
      otherwise `left` reads as the merged tree. Nothing but `left` and what it owns is
      changed, and what it owns afterwards is old or new, never a container of `right`. */
  method Merge(left: PyDict, right: PyDict) returns (ok: bool)
    requires left.Valid() && right.Readable() && left.Repr !! right.Repr
    modifies left.Repr
    ensures left.Valid() && fresh(left.Repr - old(left.Repr)) && left.Repr >= old(left.Repr)
    ensures ok <==> Compatible(old(left.Model), right.Model)
    ensures ok ==> left.Model == Merged(old(left.Model), right.Model)
    ensures right.Readable() && left.Repr !! right.Repr
    decreases right.Repr, 0, 1
  {
    hide Compatible, Merged, MergedBut, FitsBut, Fits, Joined, Get, IsTree, Containers, PyDict.Valid, PyDict.Owns,
         PyDict.Readable, PyDict.Reads;
    ReadKeys(right);
    ghost var before, t, owned := left.Model, right.Model, left.Repr;
    var todo := right.items.Keys;
    NothingMerged(before, t);
    while todo != {}
      invariant todo <= right.items.Keys
      invariant left.Valid() && owned <= left.Repr && fresh(left.Repr - owned)
      invariant left.Model == MergedBut(before, t, todo) && FitsBut(before, t, todo)
      decreases |todo|
    {
      var key :| key in todo;
      OneMoreMerged(before, t, todo, key);
      ok := MergeKey(left, right, key);
      if !ok {
        NotAllFit(before, t, key);
        return;
      }
      todo := todo - {key};
    }
    AllMerged(before, t);
    ok := true;
  }

  lemma ReadKeys(d: PyDict)
    requires d.Readable()
    ensures d.Model.entries.Keys == d.items.Keys
  {
  }

  lemma SameKeys(d: PyDict)
    requires d.Valid()
    ensures d.Model.entries.Keys == d.items.Keys
  {
  }

  lemma NotAllFit(left: Tree<Value>, right: Tree<Value>, key: string)
    requires left.Dict? && right.Dict? && key in right.entries && !Fits(Get(left, key), right.entries[key])
    ensures !Compatible(left, right)
  {
    hide Fits;
  }

  // ---------- the files of a role ----------

  /** A file may be missing, or hold something that is no dict and has no keys to merge. */
  datatype VarsFile = Missing | NoDict | Loaded(dict: PyDict)

  ghost predicate AllReadable(files: seq<VarsFile>)
    reads set i | 0 <= i < |files| && files[i].Loaded? :: files[i].dict
    reads set i, o | 0 <= i < |files| && files[i].Loaded? && o in files[i].dict.Repr :: o
  {
    forall i :: 0 <= i < |files| && files[i].Loaded? ==> files[i].dict.Readable()
  }

  /** The trees of the files that hold a dict, in order. */
  ghost function Trees(files: seq<VarsFile>): (r: seq<Tree<Value>>)
    reads set i | 0 <= i < |files| && files[i].Loaded? :: files[i].dict
  {
    if files == [] then []
    else
      var last := files[|files| - 1];
      Trees(files[..|files| - 1]) + (if last.Loaded? then [last.dict.Model] else [])
  }

  lemma {:induction false} TreesAppend(a: seq<VarsFile>, b: seq<VarsFile>)
    ensures Trees(a + b) == Trees(a) + Trees(b)
    decreases |b|
  {
    if b == [] {
      assert a + b == a;
    } else {
      var init := b[..|b| - 1];
      assert (a + b)[..|a + b| - 1] == a + init;
      TreesAppend(a, init);
    }
  }

  lemma {:induction false} TreesAreDicts(files: seq<VarsFile>)
    requires AllReadable(files)
    ensures AllDicts(Trees(files))
    decreases |files|
  {
    hide PyDict.Readable;
    if files != [] {
      TreesAreDicts(files[..|files| - 1]);
    }
  }

  /** The files merged so far, and the next one. */
  lemma NextFile(files: seq<VarsFile>, i: nat)
    requires AllReadable(files) && i < |files|
    ensures AllDicts(Trees(files[..i])) && AllDicts(Trees(files[..i + 1]))
    ensures var acc := Fold(Some(Empty()), Trees(files[..i]));
            Fold(Some(Empty()), Trees(files[..i + 1])) ==
              if files[i].Loaded? then Step(acc, files[i].dict.Model) else acc
  {
    hide PyDict.Readable, Step;
    TreesAreDicts(files[..i]);
    TreesAreDicts(files[..i + 1]);
    assert files[..i + 1][..i] == files[..i];
    var sofar, all := Trees(files[..i]), Trees(files[..i + 1]);
    if files[i].Loaded? {
      assert all == sofar + [files[i].dict.Model] && all[..|all| - 1] == sofar;
    } else {
      assert all == sofar;
    }
  }

  /** Once the merge has failed it stays failed. */
  lemma FailedForGood(files: seq<VarsFile>, i: nat)
    requires AllReadable(files) && i <= |files| && AllDicts(Trees(files[..i]))
    requires Fold(Some(Empty()), Trees(files[..i])).None?
    ensures AllDicts(Trees(files)) && Fold(Some(Empty()), Trees(files)).None?
  {
    hide Fold;
    assert files == files[..i] + files[i..];
    TreesAppend(files[..i], files[i..]);
    TreesAreDicts(files);
    TreesAreDicts(files[i..]);
    FoldAppend(Some(Empty()), Trees(files[..i]), Trees(files[i..]));
    FoldOfNothing(Trees(files[i..]));
  }

  /** `_load_files_in_dir`: missing files are passed over, and the result is a new dict
      that reads as all files merged in order. The loaded dicts are not changed. */
  method LoadFiles(files: seq<VarsFile>) returns (ok: bool, results: PyDict)
    requires AllReadable(files)
    ensures results.Valid() && fresh(results.Repr) && AllDicts(Trees(files))
    ensures ok <==> NoDict !in files && Fold(Some(Empty()), Trees(files)).Some?
    ensures ok ==> Fold(Some(Empty()), Trees(files)) == Some(results.Model)
  {
    hide PyDict.Valid, PyDict.Readable, Fold, Trees, Compatible, Merged;
    results := new PyDict();
    TreesAreDicts(files);
    NoFiles(files);
    for i := 0 to |files|
      invariant results.Valid() && fresh(results.Repr) && AllReadable(files)
      invariant NoDict !in files[..i]
      invariant AllDicts(Trees(files[..i])) && Fold(Some(Empty()), Trees(files[..i])) == Some(results.Model)
      invariant Trees(files) == old(Trees(files))
    {
      NextFile(files, i);
      if files[i].NoDict? {
        return false, results;
      }
      if files[i].Loaded? {
        ghost var before := results.Model;
        var merged := Merge(results, files[i].dict);
        if !merged {
          FailedForGood(files, i + 1);
          return false, results;
        }
      }
    }
    assert files[..|files|] == files;
    ok := true;
  }

  lemma NoFiles(files: seq<VarsFile>)
    ensures files[..0] == [] && Trees(files[..0]) == [] && Fold(Some(Empty()), []) == Some(Empty<Value>())
  {
  }
}
