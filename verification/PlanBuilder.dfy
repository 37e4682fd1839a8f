/** Building a plan from bundles (`Context::memoized` in src/bundles.rs, `Plan::add` in
    src/plan.rs). For a fixed host and configuration a bundle's `build` is a program of
    two instructions, each returning an id: add a resource that refers to ids returned
    before, or call another bundle through the cache. */
module PlanBuilder {
  import opened TopoLevels

  /** `deps` and `triggers` name the results of earlier instructions of the same body. */
  datatype Instr<R> =
    | Add(resource: R, deps: seq<nat>, triggers: seq<nat>)
    | Call(bundle: nat)

  datatype Body<R> = Body(instrs: seq<Instr<R>>, ret: nat)

  type Catalog<R> = seq<Body<R>>

  datatype Node<R> = Node(resource: R, deps: seq<nat>, triggers: seq<nat>)

  /** The instruction a node comes from. */
  datatype Origin = Origin(bundle: nat, instr: nat)

  /** The plan, the memo cache, and where each node comes from (history). */
  datatype State<R> = State(nodes: seq<Node<R>>, cache: map<nat, nat>, origins: seq<Origin>)

  /** References go backwards, and the call graph is acyclic: `rank` falls along calls. */
  ghost predicate WellFormed<R>(cat: Catalog<R>, rank: seq<nat>) {
    && |rank| == |cat|
    && forall b :: 0 <= b < |cat| ==> cat[b].ret < |cat[b].instrs| && forall k :: 0 <= k < |cat[b].instrs| ==>
        GoodInstr(cat, rank, b, k)
  }

  ghost predicate GoodInstr<R>(cat: Catalog<R>, rank: seq<nat>, b: nat, k: nat)
    requires |rank| == |cat| && b < |cat| && k < |cat[b].instrs|
  {
    match cat[b].instrs[k]
    case Add(_, deps, triggers) =>
      (forall x :: 0 <= x < |deps| ==> deps[x] < k) && (forall x :: 0 <= x < |triggers| ==> triggers[x] < k)
    case Call(callee) => callee < |cat| && rank[callee] < rank[b]
  }

  function Resolve(ids: seq<nat>, refs: seq<nat>): (r: seq<nat>)
    requires forall x :: 0 <= x < |refs| ==> refs[x] < |ids|
    ensures |r| == |refs| && forall x :: 0 <= x < |r| ==> r[x] == ids[refs[x]]
  {
    if refs == [] then [] else [ids[refs[0]]] + Resolve(ids, refs[1..])
  }

  function AddNode<R>(st: State<R>, node: Node<R>, origin: Origin): State<R> {
    State(st.nodes + [node], st.cache, st.origins + [origin])
  }

  /** `memoized` for bundle `b`. */
  ghost function Memo<R>(cat: Catalog<R>, rank: seq<nat>, st: State<R>, b: nat): (State<R>, nat)
    requires WellFormed(cat, rank) && b < |cat|
    decreases rank[b], 1, 0
  {
    if b in st.cache then (st, st.cache[b]) else
      var (after, ids) := Go(cat, rank, st, b, []);
      (after.(cache := after.cache[b := ids[cat[b].ret]]), ids[cat[b].ret])
  }

  /** The rest of the body of `b`, when its first `|ids|` instructions returned `ids`. */
  ghost function Go<R>(cat: Catalog<R>, rank: seq<nat>, st: State<R>, b: nat, ids: seq<nat>): (r: (State<R>, seq<nat>))
    requires WellFormed(cat, rank) && b < |cat| && |ids| <= |cat[b].instrs|
    ensures |r.1| == |cat[b].instrs|
    decreases rank[b], 0, |cat[b].instrs| - |ids|
  {
    if |ids| == |cat[b].instrs| then (st, ids) else
      assert GoodInstr(cat, rank, b, |ids|);
      match cat[b].instrs[|ids|]
      case Add(r, deps, triggers) =>
        Go(cat, rank, AddNode(st, Node(r, Resolve(ids, deps), Resolve(ids, triggers)), Origin(b, |ids|)), b,
           ids + [|st.nodes|])
      case Call(callee) =>
        var (after, id) := Memo(cat, rank, st, callee);
        Go(cat, rank, after, b, ids + [id])
  }

  /** `main` asks for bundles one after the other. */
  ghost function Dispatch<R>(cat: Catalog<R>, rank: seq<nat>, st: State<R>, asked: seq<nat>): State<R>
    requires WellFormed(cat, rank) && forall x :: 0 <= x < |asked| ==> asked[x] < |cat|
    decreases |asked|
  {
    if asked == [] then st else Dispatch(cat, rank, Memo(cat, rank, st, asked[0]).0, asked[1..])
  }

  // ---------- the builder as it mutates plan and cache ----------

  class Context<R> {
    var nodes: seq<Node<R>>
    var cache: map<nat, nat>
    ghost var origins: seq<Origin>

    constructor ()
      ensures nodes == [] && cache == map[] && origins == []
    {
      nodes, cache, origins := [], map[], [];
    }

    ghost function Now(): State<R>
      reads this
    {
      State(nodes, cache, origins)
    }

    /** `Plan::add`: dense ids in insertion order. */
    method Add(node: Node<R>, ghost origin: Origin) returns (id: nat)
      modifies this
      ensures id == |old(nodes)|
      ensures Now() == AddNode(old(Now()), node, origin)
    {
      id := |nodes|;
      nodes := nodes + [node];
      origins := origins + [origin];
    }

    method Memoized(cat: Catalog<R>, ghost rank: seq<nat>, b: nat) returns (id: nat)
      requires WellFormed(cat, rank) && b < |cat|
      modifies this
      ensures (Now(), id) == Memo(cat, rank, old(Now()), b)
      decreases rank[b], 1
    {
      if b in cache {
        return cache[b];
      }
      id := Build(cat, rank, b);
      cache := cache[b := id];
    }

    method Build(cat: Catalog<R>, ghost rank: seq<nat>, b: nat) returns (id: nat)
      requires WellFormed(cat, rank) && b < |cat|
      modifies this
      ensures var (after, ids) := Go(cat, rank, old(Now()), b, []);
              Now() == after && |ids| == |cat[b].instrs| && id == ids[cat[b].ret]
      decreases rank[b], 0
    {
      var ids: seq<nat> := [];
      while |ids| < |cat[b].instrs|
        invariant |ids| <= |cat[b].instrs|
        invariant Go(cat, rank, old(Now()), b, []) == Go(cat, rank, Now(), b, ids)
        decreases |cat[b].instrs| - |ids|
      {
        assert GoodInstr(cat, rank, b, |ids|);
        var next: nat;
        match cat[b].instrs[|ids|]
        case Add(r, deps, triggers) =>
          next := Add(Node(r, Resolve(ids, deps), Resolve(ids, triggers)), Origin(b, |ids|));
          ids := ids + [next];
        case Call(callee) =>
          next := Memoized(cat, rank, callee);
          ids := ids + [next];
      }
      id := ids[cat[b].ret];
    }
  }

  // ---------- what a plan is, whatever the order it was built in ----------

  /** The add instruction whose node instruction `k` of bundle `b` stands for. */
  ghost function Meaning<R>(cat: Catalog<R>, rank: seq<nat>, b: nat, k: nat): Origin
    requires WellFormed(cat, rank) && b < |cat| && k < |cat[b].instrs|
    decreases rank[b]
  {
    assert GoodInstr(cat, rank, b, k);
    match cat[b].instrs[k]
    case Add(_, _, _) => Origin(b, k)
    case Call(callee) => Meaning(cat, rank, callee, cat[callee].ret)
  }

  ghost predicate IsAdd<R>(cat: Catalog<R>, o: Origin) {
    o.bundle < |cat| && o.instr < |cat[o.bundle].instrs| && cat[o.bundle].instrs[o.instr].Add?
  }

  /** The ids in `ids` lead to the nodes that `refs`, read in bundle `b`, mean. */
  ghost predicate RefsMean<R>(cat: Catalog<R>, rank: seq<nat>, origins: seq<Origin>, b: nat, refs: seq<nat>,
                              ids: seq<nat>)
    requires WellFormed(cat, rank) && b < |cat|
  {
    && |ids| == |refs|
    && forall x :: 0 <= x < |refs| ==>
         refs[x] < |cat[b].instrs| && ids[x] < |origins| && origins[ids[x]] == Meaning(cat, rank, b, refs[x])
  }

  /** Node `i` is what its add instruction says, its references included, and refers
      to earlier nodes only. */
  ghost predicate NodeMeans<R>(cat: Catalog<R>, rank: seq<nat>, nodes: seq<Node<R>>, origins: seq<Origin>, i: nat)
    requires WellFormed(cat, rank) && i < |nodes| == |origins|
  {
    && IsAdd(cat, origins[i])
    && var instr := cat[origins[i].bundle].instrs[origins[i].instr];
       && nodes[i].resource == instr.resource
       && RefsMean(cat, rank, origins, origins[i].bundle, instr.deps, nodes[i].deps)
       && RefsMean(cat, rank, origins, origins[i].bundle, instr.triggers, nodes[i].triggers)
       && (forall x :: 0 <= x < |nodes[i].deps| ==> nodes[i].deps[x] < i)
  }

  /** Everything bundle `b` adds is in the plan, and everything it calls is built. */
  ghost predicate Built<R>(cat: Catalog<R>, rank: seq<nat>, st: State<R>, b: nat)
    requires WellFormed(cat, rank)
  {
    && b < |cat| && b in st.cache && st.cache[b] < |st.origins|
    && st.origins[st.cache[b]] == Meaning(cat, rank, b, cat[b].ret)
    && forall k :: 0 <= k < |cat[b].instrs| ==> InstrDone(cat, st, b, k)
  }

  ghost predicate InstrDone<R>(cat: Catalog<R>, st: State<R>, b: nat, k: nat)
    requires b < |cat| && k < |cat[b].instrs|
  {
    match cat[b].instrs[k]
    case Add(_, _, _) => Origin(b, k) in st.origins
    case Call(callee) => callee in st.cache
  }

  /** Every node comes from a different instruction, means what it should, and belongs
      to a bundle that is built or being built. */
  ghost predicate Good<R>(cat: Catalog<R>, rank: seq<nat>, st: State<R>, open: set<nat>)
    requires WellFormed(cat, rank)
  {
    && |st.nodes| == |st.origins|
    && (forall i, j :: 0 <= i < j < |st.origins| ==> st.origins[i] != st.origins[j])
    && (forall i :: 0 <= i < |st.nodes| ==> NodeMeans(cat, rank, st.nodes, st.origins, i))
    && (forall b :: b in st.cache ==> Built(cat, rank, st, b))
    && (forall o :: o in st.origins ==> o.bundle in st.cache || o.bundle in open)
    && (forall b :: b in open ==> b !in st.cache)
  }

  /** The part of the body of `b` that has run. */
  ghost predicate UnderWay<R>(cat: Catalog<R>, rank: seq<nat>, st: State<R>, b: nat, ids: seq<nat>)
    requires WellFormed(cat, rank) && b < |cat| && |ids| <= |cat[b].instrs|
  {
    && (forall k :: 0 <= k < |ids| ==>
          ids[k] < |st.origins| && st.origins[ids[k]] == Meaning(cat, rank, b, k) && InstrDone(cat, st, b, k))
    && (forall o :: o in st.origins && o.bundle == b ==> o.instr < |ids|)
  }

  /** `after` only adds to `before`, and nothing for the bundles in `open`. */
  ghost predicate Extends<R>(before: State<R>, after: State<R>, open: set<nat>) {
    && before.nodes <= after.nodes && before.origins <= after.origins
    && (forall b :: b in before.cache ==> b in after.cache && after.cache[b] == before.cache[b])
    && (forall i :: |before.origins| <= i < |after.origins| ==> after.origins[i].bundle !in open)
  }

  /** A set of bundles that contains what its members call. */
  ghost predicate ClosedUnderCalls<R>(cat: Catalog<R>, s: set<nat>) {
    forall b, k :: b in s && b < |cat| && 0 <= k < |cat[b].instrs| && cat[b].instrs[k].Call? ==>
        cat[b].instrs[k].bundle in s
  }

  lemma ExtendsTransitive<R>(a: State<R>, b: State<R>, c: State<R>, open: set<nat>)
    requires Extends(a, b, open) && Extends(b, c, open)
    ensures Extends(a, c, open)
  {
    forall i | |a.origins| <= i < |c.origins| ensures c.origins[i].bundle !in open {
      if i < |b.origins| { assert c.origins[i] == b.origins[i]; }
    }
  }

  lemma UnderWayStays<R>(cat: Catalog<R>, rank: seq<nat>, before: State<R>, after: State<R>, b: nat, ids: seq<nat>,
                         open: set<nat>)
    requires WellFormed(cat, rank) && b < |cat| && |ids| <= |cat[b].instrs| && b in open
    requires UnderWay(cat, rank, before, b, ids) && Extends(before, after, open)
    ensures UnderWay(cat, rank, after, b, ids)
  {
    hide Meaning, WellFormed;
    forall k | 0 <= k < |ids|
      ensures ids[k] < |after.origins| && after.origins[ids[k]] == Meaning(cat, rank, b, k)
      ensures InstrDone(cat, after, b, k)
    {
      assert InstrDone(cat, before, b, k);
      if cat[b].instrs[k].Add? {
        var i :| 0 <= i < |before.origins| && before.origins[i] == Origin(b, k);
        assert after.origins[i] == Origin(b, k);
      }
    }
    forall o | o in after.origins && o.bundle == b ensures o.instr < |ids| {
      var i :| 0 <= i < |after.origins| && after.origins[i] == o;
      assert i < |before.origins| && before.origins[i] == o;
    }
  }

  lemma NodesStay<R>(cat: Catalog<R>, rank: seq<nat>, nodes: seq<Node<R>>, origins: seq<Origin>, node: Node<R>,
                     origin: Origin, i: nat)
    requires WellFormed(cat, rank) && i < |nodes| == |origins| && NodeMeans(cat, rank, nodes, origins, i)
    ensures NodeMeans(cat, rank, nodes + [node], origins + [origin], i)
  {
    hide Meaning, WellFormed;
    assert (nodes + [node])[i] == nodes[i] && (origins + [origin])[i] == origins[i];
  }

  lemma BuiltStays<R>(cat: Catalog<R>, rank: seq<nat>, before: State<R>, after: State<R>, b: nat, open: set<nat>)
    requires WellFormed(cat, rank) && Built(cat, rank, before, b) && Extends(before, after, open)
    ensures Built(cat, rank, after, b)
  {
    hide Meaning, WellFormed;
    forall k | 0 <= k < |cat[b].instrs| ensures InstrDone(cat, after, b, k) {
      assert InstrDone(cat, before, b, k);
      if cat[b].instrs[k].Add? {
        var i :| 0 <= i < |before.origins| && before.origins[i] == Origin(b, k);
        assert after.origins[i] == Origin(b, k);
      }
    }
  }

  lemma RefsResolve<R>(cat: Catalog<R>, rank: seq<nat>, st: State<R>, b: nat, ids: seq<nat>, origin: Origin,
                       refs: seq<nat>)
    requires WellFormed(cat, rank) && b < |cat| && |ids| <= |cat[b].instrs| && UnderWay(cat, rank, st, b, ids)
    requires forall x :: 0 <= x < |refs| ==> refs[x] < |ids|
    ensures RefsMean(cat, rank, st.origins + [origin], b, refs, Resolve(ids, refs))
    ensures forall x :: 0 <= x < |refs| ==> Resolve(ids, refs)[x] < |st.origins|
  {
    hide Meaning, WellFormed, InstrDone;
    forall x | 0 <= x < |refs|
      ensures Resolve(ids, refs)[x] < |st.origins|
      ensures (st.origins + [origin])[Resolve(ids, refs)[x]] == Meaning(cat, rank, b, refs[x])
    {
      assert ids[refs[x]] < |st.origins|;
    }
  }

  /** The state an add instruction leads to. */
  ghost function AfterAdd<R>(cat: Catalog<R>, rank: seq<nat>, st: State<R>, b: nat, ids: seq<nat>): State<R>
    requires WellFormed(cat, rank) && b < |cat| && |ids| < |cat[b].instrs| && cat[b].instrs[|ids|].Add?
  {
    assert GoodInstr(cat, rank, b, |ids|);
    var instr := cat[b].instrs[|ids|];
    AddNode(st, Node(instr.resource, Resolve(ids, instr.deps), Resolve(ids, instr.triggers)), Origin(b, |ids|))
  }

  lemma NewNodeMeans<R>(cat: Catalog<R>, rank: seq<nat>, st: State<R>, b: nat, ids: seq<nat>)
    requires WellFormed(cat, rank) && b < |cat| && |ids| < |cat[b].instrs| && cat[b].instrs[|ids|].Add?
    requires |st.nodes| == |st.origins| && UnderWay(cat, rank, st, b, ids)
    ensures var after := AfterAdd(cat, rank, st, b, ids); NodeMeans(cat, rank, after.nodes, after.origins, |st.nodes|)
  {
    hide UnderWay, RefsMean;
    assert GoodInstr(cat, rank, b, |ids|);
    var instr := cat[b].instrs[|ids|];
    RefsResolve(cat, rank, st, b, ids, Origin(b, |ids|), instr.deps);
    RefsResolve(cat, rank, st, b, ids, Origin(b, |ids|), instr.triggers);
  }

  lemma AddMoves<R>(cat: Catalog<R>, rank: seq<nat>, st: State<R>, b: nat, ids: seq<nat>, open: set<nat>)
    requires WellFormed(cat, rank) && b < |cat| && |ids| < |cat[b].instrs| && cat[b].instrs[|ids|].Add?
    requires |st.nodes| == |st.origins| && UnderWay(cat, rank, st, b, ids) && b !in open
    ensures var after := AfterAdd(cat, rank, st, b, ids);
            Extends(st, after, open) && UnderWay(cat, rank, after, b, ids + [|st.nodes|])
  {
    hide WellFormed, Resolve;
    var after := AfterAdd(cat, rank, st, b, ids);
    var more := ids + [|st.nodes|];
    forall k | 0 <= k < |more|
      ensures more[k] < |after.origins| && after.origins[more[k]] == Meaning(cat, rank, b, k)
      ensures InstrDone(cat, after, b, k)
    {
      if k < |ids| {
        assert InstrDone(cat, st, b, k);
        assert after.origins[ids[k]] == st.origins[ids[k]];
        if cat[b].instrs[k].Add? {
          var i :| 0 <= i < |st.origins| && st.origins[i] == Origin(b, k);
          assert after.origins[i] == Origin(b, k);
        }
      } else {
        assert after.origins[|st.origins|] == Origin(b, k);
      }
    }
  }

  /** An add instruction keeps the plan good. */
  lemma AddKeepsGood<R>(cat: Catalog<R>, rank: seq<nat>, st: State<R>, b: nat, ids: seq<nat>, open: set<nat>)
    requires WellFormed(cat, rank) && b < |cat| && |ids| < |cat[b].instrs| && cat[b].instrs[|ids|].Add?
    requires Good(cat, rank, st, open + {b}) && UnderWay(cat, rank, st, b, ids) && b !in open
    ensures var after := AfterAdd(cat, rank, st, b, ids);
            && Good(cat, rank, after, open + {b}) && UnderWay(cat, rank, after, b, ids + [|st.nodes|])
            && Extends(st, after, open) && after.cache == st.cache
  {
    hide WellFormed, Resolve, NodeMeans, Built, InstrDone, Meaning, Extends;
    var after := AfterAdd(cat, rank, st, b, ids);
    AddMoves(cat, rank, st, b, ids, open);
    NewNodeMeans(cat, rank, st, b, ids);
    forall i | 0 <= i < |after.nodes| ensures NodeMeans(cat, rank, after.nodes, after.origins, i) {
      if i < |st.nodes| {
        NodesStay(cat, rank, st.nodes, st.origins, after.nodes[|st.nodes|], Origin(b, |ids|), i);
      }
    }
    forall c | c in after.cache ensures Built(cat, rank, after, c) {
      BuiltStays(cat, rank, st, after, c, open);
    }
    forall i, j | 0 <= i < j < |after.origins| ensures after.origins[i] != after.origins[j] {
      if j == |st.origins| { assert st.origins[i] in st.origins; }
    }
  }

  // ---------- the builder keeps all that ----------

  /** What calling a bundle, or running the rest of a body, does to a good plan. */
  lemma {:induction false} MemoKeepsGood<R>(cat: Catalog<R>, rank: seq<nat>, st: State<R>, b: nat, open: set<nat>)
    requires WellFormed(cat, rank) && b < |cat| && Good(cat, rank, st, open)
    requires forall p :: p in open ==> p < |cat| && rank[p] > rank[b]
    ensures var (after, id) := Memo(cat, rank, st, b);
            && Good(cat, rank, after, open) && Extends(st, after, open)
            && b in after.cache && after.cache[b] == id && id < |after.origins|
               && after.origins[id] == Meaning(cat, rank, b, cat[b].ret)
    decreases rank[b], 1, 0
  {
    if b in st.cache {
      assert Built(cat, rank, st, b);
      return;
    }
    OpenBundle(cat, rank, st, b, open);
    GoKeepsGood(cat, rank, st, b, [], open);
    CloseBundle(cat, rank, st, b, open);
  }

  lemma OpenBundle<R>(cat: Catalog<R>, rank: seq<nat>, st: State<R>, b: nat, open: set<nat>)
    requires WellFormed(cat, rank) && b < |cat| && Good(cat, rank, st, open) && b !in st.cache && b !in open
    ensures Good(cat, rank, st, open + {b}) && UnderWay(cat, rank, st, b, [])
  {
    hide WellFormed, NodeMeans, Built, InstrDone, Meaning;
  }

  /** Caching the id of a body that has run to its end. */
  lemma NowBuilt<R>(cat: Catalog<R>, rank: seq<nat>, mid: State<R>, after: State<R>, b: nat, ids: seq<nat>)
    requires WellFormed(cat, rank) && b < |cat| && |ids| == |cat[b].instrs| && UnderWay(cat, rank, mid, b, ids)
    requires after == mid.(cache := mid.cache[b := ids[cat[b].ret]])
    ensures Built(cat, rank, after, b)
    ensures ids[cat[b].ret] < |after.origins| && after.origins[ids[cat[b].ret]] == Meaning(cat, rank, b, cat[b].ret)
  {
    hide Meaning;
    forall k | 0 <= k < |cat[b].instrs| ensures InstrDone(cat, after, b, k) { assert InstrDone(cat, mid, b, k); }
  }

  /** Caching the result turns a body that has run into a built bundle. */
  lemma CloseBundle<R>(cat: Catalog<R>, rank: seq<nat>, st: State<R>, b: nat, open: set<nat>)
    requires WellFormed(cat, rank) && b < |cat| && b !in st.cache && b !in open
    requires var (after, ids) := Go(cat, rank, st, b, []);
             Good(cat, rank, after, open + {b}) && UnderWay(cat, rank, after, b, ids) && Extends(st, after, open)
    ensures var (after, id) := Memo(cat, rank, st, b);
            && Good(cat, rank, after, open) && Extends(st, after, open)
            && b in after.cache && after.cache[b] == id && id < |after.origins|
               && after.origins[id] == Meaning(cat, rank, b, cat[b].ret)
  {
    hide NodeMeans, Meaning, Go, Built, UnderWay;
    var (mid, ids) := Go(cat, rank, st, b, []);
    var (after, id) := Memo(cat, rank, st, b);
    assert Extends(mid, after, {});
    NowBuilt(cat, rank, mid, after, b, ids);
    forall c | c in after.cache ensures Built(cat, rank, after, c) {
      if c != b { BuiltStays(cat, rank, mid, after, c, {}); }
    }
  }

  lemma {:induction false} GoKeepsGood<R>(cat: Catalog<R>, rank: seq<nat>, st: State<R>, b: nat, ids: seq<nat>,
                                          open: set<nat>)
    requires WellFormed(cat, rank) && b < |cat| && |ids| <= |cat[b].instrs| && b !in open
    requires Good(cat, rank, st, open + {b}) && UnderWay(cat, rank, st, b, ids)
    requires forall p :: p in open ==> p < |cat| && rank[p] > rank[b]
    ensures var (after, all) := Go(cat, rank, st, b, ids);
            Good(cat, rank, after, open + {b}) && UnderWay(cat, rank, after, b, all) && Extends(st, after, open)
    decreases rank[b], 0, |cat[b].instrs| - |ids|
  {
    hide Good, UnderWay, Meaning;
    if |ids| == |cat[b].instrs| {
      return;
    }
    assert GoodInstr(cat, rank, b, |ids|);
    var (final, all) := Go(cat, rank, st, b, ids);
    if cat[b].instrs[|ids|].Add? {
      var after := AfterAdd(cat, rank, st, b, ids);
      AddKeepsGood(cat, rank, st, b, ids, open);
      GoKeepsGood(cat, rank, after, b, ids + [|st.nodes|], open);
      ExtendsTransitive(st, after, final, open);
    } else {
      var callee := cat[b].instrs[|ids|].bundle;
      var (after, id) := Memo(cat, rank, st, callee);
      MemoKeepsGood(cat, rank, st, callee, open + {b});
      CallMoves(cat, rank, st, after, b, ids, id, open);
      GoKeepsGood(cat, rank, after, b, ids + [id], open);
      ExtendsTransitive(st, after, final, open);
    }
  }

  lemma CallMoves<R>(cat: Catalog<R>, rank: seq<nat>, st: State<R>, after: State<R>, b: nat, ids: seq<nat>, id: nat,
                     open: set<nat>)
    requires WellFormed(cat, rank) && b < |cat| && |ids| < |cat[b].instrs| && cat[b].instrs[|ids|].Call?
    requires GoodInstr(cat, rank, b, |ids|) && UnderWay(cat, rank, st, b, ids) && Extends(st, after, open + {b})
    requires var callee := cat[b].instrs[|ids|].bundle;
             callee in after.cache && id < |after.origins|
               && after.origins[id] == Meaning(cat, rank, callee, cat[callee].ret)
    ensures UnderWay(cat, rank, after, b, ids + [id]) && Extends(st, after, open)
  {
    UnderWayStays(cat, rank, st, after, b, ids, open + {b});
    hide WellFormed;
    var more := ids + [id];
    forall k | 0 <= k < |more|
      ensures more[k] < |after.origins| && after.origins[more[k]] == Meaning(cat, rank, b, k)
      ensures InstrDone(cat, after, b, k)
    {
      assert k < |ids| ==> more[k] == ids[k];
    }
  }

  /** Nothing is built that the asked bundles do not call for. */
  lemma {:induction false} MemoStaysIn<R>(cat: Catalog<R>, rank: seq<nat>, st: State<R>, b: nat, s: set<nat>)
    requires WellFormed(cat, rank) && b < |cat| && b in s && ClosedUnderCalls(cat, s) && st.cache.Keys <= s
    ensures Memo(cat, rank, st, b).0.cache.Keys <= s
    decreases rank[b], 1, 0
  {
    if b !in st.cache { GoStaysIn(cat, rank, st, b, [], s); }
  }

  lemma {:induction false} GoStaysIn<R>(cat: Catalog<R>, rank: seq<nat>, st: State<R>, b: nat, ids: seq<nat>,
                                        s: set<nat>)
    requires WellFormed(cat, rank) && b < |cat| && |ids| <= |cat[b].instrs|
    requires b in s && ClosedUnderCalls(cat, s) && st.cache.Keys <= s
    ensures Go(cat, rank, st, b, ids).0.cache.Keys <= s
    decreases rank[b], 0, |cat[b].instrs| - |ids|
  {
    if |ids| < |cat[b].instrs| {
      assert GoodInstr(cat, rank, b, |ids|);
      if cat[b].instrs[|ids|].Add? {
        GoStaysIn(cat, rank, AfterAdd(cat, rank, st, b, ids), b, ids + [|st.nodes|], s);
      } else {
        var callee := cat[b].instrs[|ids|].bundle;
        MemoStaysIn(cat, rank, st, callee, s);
        var (after, id) := Memo(cat, rank, st, callee);
        GoStaysIn(cat, rank, after, b, ids + [id], s);
      }
    }
  }

  lemma {:induction false} DispatchKeepsGood<R>(cat: Catalog<R>, rank: seq<nat>, st: State<R>, asked: seq<nat>)
    requires WellFormed(cat, rank) && (forall x :: 0 <= x < |asked| ==> asked[x] < |cat|) && Good(cat, rank, st, {})
    ensures Good(cat, rank, Dispatch(cat, rank, st, asked), {})
    ensures forall b :: b in st.cache ==> b in Dispatch(cat, rank, st, asked).cache
    ensures forall b :: b in asked ==> b in Dispatch(cat, rank, st, asked).cache
    decreases |asked|
  {
    hide Good, Memo;
    if asked != [] {
      MemoKeepsGood(cat, rank, st, asked[0], {});
      DispatchKeepsGood(cat, rank, Memo(cat, rank, st, asked[0]).0, asked[1..]);
    }
  }

  lemma {:induction false} DispatchStaysIn<R>(cat: Catalog<R>, rank: seq<nat>, st: State<R>, asked: seq<nat>,
                                              s: set<nat>)
    requires WellFormed(cat, rank) && (forall x :: 0 <= x < |asked| ==> asked[x] < |cat|)
    requires ClosedUnderCalls(cat, s) && st.cache.Keys <= s && forall b :: b in asked ==> b in s
    ensures Dispatch(cat, rank, st, asked).cache.Keys <= s
    decreases |asked|
  {
    hide Memo, ClosedUnderCalls;
    if asked != [] {
      MemoStaysIn(cat, rank, st, asked[0], s);
      DispatchStaysIn(cat, rank, Memo(cat, rank, st, asked[0]).0, asked[1..], s);
    }
  }

  const EMPTY_CACHE: map<nat, nat> := map[]

  function Empty<R>(): State<R> { State([], EMPTY_CACHE, []) }

  lemma BuiltIsClosed<R>(cat: Catalog<R>, rank: seq<nat>, st: State<R>)
    requires WellFormed(cat, rank) && Good(cat, rank, st, {})
    ensures ClosedUnderCalls(cat, st.cache.Keys)
    ensures forall o :: o in st.origins <==> IsAdd(cat, o) && o.bundle in st.cache
  {
    hide Meaning, WellFormed, RefsMean;
    forall b, k | b in st.cache && b < |cat| && 0 <= k < |cat[b].instrs| && cat[b].instrs[k].Call?
      ensures cat[b].instrs[k].bundle in st.cache
    {
      assert Built(cat, rank, st, b) && InstrDone(cat, st, b, k);
    }
    forall o ensures o in st.origins <==> IsAdd(cat, o) && o.bundle in st.cache {
      if o in st.origins {
        var i :| 0 <= i < |st.origins| && st.origins[i] == o;
        assert NodeMeans(cat, rank, st.nodes, st.origins, i);
      }
      if IsAdd(cat, o) && o.bundle in st.cache {
        assert Built(cat, rank, st, o.bundle) && InstrDone(cat, st, o.bundle, o.instr);
      }
    }
  }

  // ---------- order-independent dispatch ----------

  ghost function IndexOf(origins: seq<Origin>, o: Origin): (i: nat)
    requires o in origins
    ensures i < |origins| && origins[i] == o
  {
    var i :| 0 <= i < |origins| && origins[i] == o;
    i
  }

  /** The renaming of ids between two plans built from the same instructions. */
  ghost function Renamed(from: seq<Origin>, to: seq<Origin>, id: nat): nat {
    if id < |from| && from[id] in to then IndexOf(to, from[id]) else 0
  }

  ghost predicate RenamesTo(from: seq<Origin>, to: seq<Origin>, ids: seq<nat>, ids': seq<nat>) {
    |ids| == |ids'| && forall x :: 0 <= x < |ids| ==> ids[x] < |from| && ids'[x] == Renamed(from, to, ids[x])
  }

  /** A one-to-one renaming of ids that keeps resources, deps and triggers, and the
      id each bundle returns. */
  ghost predicate Isomorphic<R>(a: State<R>, b: State<R>) {
    && |a.nodes| == |b.nodes| == |a.origins| == |b.origins| && a.cache.Keys == b.cache.Keys
    && (forall i, j :: 0 <= i < j < |a.nodes| ==> Renamed(a.origins, b.origins, i) != Renamed(a.origins, b.origins, j))
    && (forall i :: 0 <= i < |a.nodes| ==> SameNode(a, b, i))
    && (forall k :: k in a.cache ==> b.cache[k] == Renamed(a.origins, b.origins, a.cache[k]))
  }

  ghost predicate SameNode<R>(a: State<R>, b: State<R>, i: nat)
    requires i < |a.nodes|
  {
    var j := Renamed(a.origins, b.origins, i);
    && j < |b.nodes|
    && b.nodes[j].resource == a.nodes[i].resource
    && RenamesTo(a.origins, b.origins, a.nodes[i].deps, b.nodes[j].deps)
    && RenamesTo(a.origins, b.origins, a.nodes[i].triggers, b.nodes[j].triggers)
  }

  lemma RefsRename<R>(cat: Catalog<R>, rank: seq<nat>, from: seq<Origin>, to: seq<Origin>, b: nat, refs: seq<nat>,
                      ids: seq<nat>, ids': seq<nat>)
    requires WellFormed(cat, rank) && b < |cat|
    requires RefsMean(cat, rank, from, b, refs, ids) && RefsMean(cat, rank, to, b, refs, ids')
    requires forall i, j :: 0 <= i < j < |to| ==> to[i] != to[j]
    ensures RenamesTo(from, to, ids, ids')
  {
    hide Meaning, WellFormed;
    forall x | 0 <= x < |ids| ensures ids[x] < |from| && ids'[x] == Renamed(from, to, ids[x]) {
      assert refs[x] < |cat[b].instrs|;
      assert from[ids[x]] == to[ids'[x]];
      assert to[ids'[x]] in to;
      var i := IndexOf(to, from[ids[x]]);
      assert i == ids'[x];
    }
  }

  lemma {:induction false} DistinctCount(s: seq<Origin>)
    requires forall i, j :: 0 <= i < j < |s| ==> s[i] != s[j]
    ensures |set o | o in s| == |s|
    decreases |s|
  {
    if s != [] {
      var init, last := s[..|s| - 1], s[|s| - 1];
      DistinctCount(init);
      assert s == init + [last];
      assert (set o | o in s) == (set o | o in init) + {last};
    }
  }

  lemma RenamedOrigin<R>(a: State<R>, b: State<R>, i: nat)
    requires i < |a.origins| && a.origins[i] in b.origins
    ensures Renamed(a.origins, b.origins, i) < |b.origins|
    ensures b.origins[Renamed(a.origins, b.origins, i)] == a.origins[i]
  {
  }

  lemma NodesCorrespond<R>(cat: Catalog<R>, rank: seq<nat>, a: State<R>, b: State<R>, i: nat, j: nat)
    requires WellFormed(cat, rank) && i < |a.nodes| == |a.origins| && j < |b.nodes| == |b.origins|
    requires NodeMeans(cat, rank, a.nodes, a.origins, i) && NodeMeans(cat, rank, b.nodes, b.origins, j)
    requires forall x, y :: 0 <= x < y < |b.origins| ==> b.origins[x] != b.origins[y]
    requires j == Renamed(a.origins, b.origins, i) && b.origins[j] == a.origins[i]
    ensures SameNode(a, b, i)
  {
    hide Meaning, WellFormed, RefsMean, Renamed, RenamesTo;
    var instr := cat[a.origins[i].bundle].instrs[a.origins[i].instr];
    RefsRename(cat, rank, a.origins, b.origins, a.origins[i].bundle, instr.deps, a.nodes[i].deps, b.nodes[j].deps);
    RefsRename(cat, rank, a.origins, b.origins, a.origins[i].bundle, instr.triggers, a.nodes[i].triggers,
               b.nodes[j].triggers);
  }

  lemma SameId<R>(cat: Catalog<R>, rank: seq<nat>, a: State<R>, b: State<R>, k: nat)
    requires WellFormed(cat, rank) && Built(cat, rank, a, k) && Built(cat, rank, b, k)
    requires forall x, y :: 0 <= x < y < |b.origins| ==> b.origins[x] != b.origins[y]
    ensures b.cache[k] == Renamed(a.origins, b.origins, a.cache[k])
  {
    hide Meaning, WellFormed, InstrDone;
    assert b.origins[b.cache[k]] == a.origins[a.cache[k]];
    RenamedOrigin(a, b, a.cache[k]);
  }

  lemma SameCount(a: seq<Origin>, b: seq<Origin>)
    requires (forall i, j :: 0 <= i < j < |a| ==> a[i] != a[j]) && forall i, j :: 0 <= i < j < |b| ==> b[i] != b[j]
    requires forall o :: o in a <==> o in b
    ensures |a| == |b|
  {
    DistinctCount(a);
    DistinctCount(b);
    assert (set o | o in a) == (set o | o in b);
  }

  /** Two good plans over the same built bundles are isomorphic. */
  lemma SameBundlesSamePlan<R>(cat: Catalog<R>, rank: seq<nat>, a: State<R>, b: State<R>)
    requires WellFormed(cat, rank) && Good(cat, rank, a, {}) && Good(cat, rank, b, {}) && a.cache.Keys == b.cache.Keys
    ensures Isomorphic(a, b)
  {
    hide Meaning, WellFormed, RefsMean, InstrDone, NodeMeans, Renamed, SameNode, Built, IsAdd, ClosedUnderCalls;
    BuiltIsClosed(cat, rank, a);
    BuiltIsClosed(cat, rank, b);
    SameCount(a.origins, b.origins);
    forall i | 0 <= i < |a.nodes|
      ensures SameNode(a, b, i)
      ensures Renamed(a.origins, b.origins, i) < |b.origins|
      ensures b.origins[Renamed(a.origins, b.origins, i)] == a.origins[i]
    {
      RenamedOrigin(a, b, i);
      NodesCorrespond(cat, rank, a, b, i, Renamed(a.origins, b.origins, i));
    }
    forall k | k in a.cache ensures b.cache[k] == Renamed(a.origins, b.origins, a.cache[k]) {
      SameId(cat, rank, a, b, k);
    }
  }

  /** Order-independent dispatch: asking for the same bundles in any order, with any
      repetitions, expands each add instruction once and gives the same plan up to ids. */
  lemma DispatchIsOrderIndependent<R>(cat: Catalog<R>, rank: seq<nat>, a: seq<nat>, b: seq<nat>)
    requires WellFormed(cat, rank)
    requires (forall x :: 0 <= x < |a| ==> a[x] < |cat|) && (forall x :: 0 <= x < |b| ==> b[x] < |cat|)
    requires forall k :: k in a <==> k in b
    ensures Isomorphic(Dispatch(cat, rank, Empty(), a), Dispatch(cat, rank, Empty(), b))
  {
    hide Good, Isomorphic, WellFormed, Dispatch, ClosedUnderCalls;
    var left, right := Dispatch(cat, rank, Empty(), a), Dispatch(cat, rank, Empty(), b);
    EmptyIsGood(cat, rank);
    DispatchKeepsGood(cat, rank, Empty(), a);
    DispatchKeepsGood(cat, rank, Empty(), b);
    BuiltIsClosed(cat, rank, left);
    BuiltIsClosed(cat, rank, right);
    DispatchStaysIn(cat, rank, Empty(), a, right.cache.Keys);
    DispatchStaysIn(cat, rank, Empty(), b, left.cache.Keys);
    SameBundlesSamePlan(cat, rank, left, right);
  }

  lemma EmptyIsGood<R>(cat: Catalog<R>, rank: seq<nat>)
    requires WellFormed(cat, rank)
    ensures Good(cat, rank, Empty<R>(), {})
  {
  }

  /** At most once: however often and from wherever a bundle is asked for, each of its
      add instructions has exactly one node in the plan, if the bundle is built, and
      none otherwise. */
  lemma BuiltAtMostOnce<R>(cat: Catalog<R>, rank: seq<nat>, asked: seq<nat>, o: Origin)
    requires WellFormed(cat, rank) && (forall x :: 0 <= x < |asked| ==> asked[x] < |cat|) && IsAdd(cat, o)
    ensures var st := Dispatch(cat, rank, Empty(), asked);
            multiset(st.origins)[o] == if o.bundle in st.cache then 1 else 0
  {
    hide Meaning, WellFormed, Dispatch, NodeMeans, Built, IsAdd;
    EmptyIsGood(cat, rank);
    DispatchKeepsGood(cat, rank, Empty(), asked);
    var st := Dispatch(cat, rank, Empty(), asked);
    BuiltIsClosed(cat, rank, st);
    OnceInDistinct(st.origins, o);
  }

  lemma {:induction false} OnceInDistinct(s: seq<Origin>, o: Origin)
    requires forall i, j :: 0 <= i < j < |s| ==> s[i] != s[j]
    ensures multiset(s)[o] == if o in s then 1 else 0
    decreases |s|
  {
    if s != [] {
      OnceInDistinct(s[..|s| - 1], o);
      assert s == s[..|s| - 1] + [s[|s| - 1]];
    }
  }

  // ---------- such plans are never rejected ----------

  function DepsGraph<R>(nodes: seq<Node<R>>): (g: Graph)
    ensures |g| == |nodes| && forall i :: 0 <= i < |g| ==> g[i] == nodes[i].deps
  {
    if nodes == [] then [] else DepsGraph(nodes[..|nodes| - 1]) + [nodes[|nodes| - 1].deps]
  }

  lemma {:induction false} ChainFalls(g: Graph, p: seq<nat>)
    requires Chain(g, p) && forall i, d :: 0 <= i < |g| && d in g[i] ==> d < i
    ensures p[|p| - 1] <= p[0] && (|p| > 1 ==> p[|p| - 1] < p[0])
    decreases |p|
  {
    if |p| > 1 {
      assert p[1] in g[p[0]];
      ChainFalls(g, p[1..]);
    }
  }

  /** Every dep is smaller than its owner's id, so the topological sort accepts the plan. */
  lemma BuiltPlansHaveLevels<R>(cat: Catalog<R>, rank: seq<nat>, asked: seq<nat>)
    requires WellFormed(cat, rank) && (forall x :: 0 <= x < |asked| ==> asked[x] < |cat|)
    ensures var g := DepsGraph(Dispatch(cat, rank, Empty(), asked).nodes); InRange(g) && Acyclic(g)
  {
    hide Meaning, WellFormed, Dispatch, RefsMean, Built;
    EmptyIsGood(cat, rank);
    DispatchKeepsGood(cat, rank, Empty(), asked);
    var st := Dispatch(cat, rank, Empty(), asked);
    var g := DepsGraph(st.nodes);
    forall i, d | 0 <= i < |g| && d in g[i] ensures d < i { assert NodeMeans(cat, rank, st.nodes, st.origins, i); }
    forall p ensures !Cycle(g, p) {
      if Chain(g, p) { ChainFalls(g, p); }
    }
  }
}
