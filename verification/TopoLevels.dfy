/** The dependency graph of a plan and its split into topological levels
    (`Executor::compute_topo_levels` in src/executor.rs).

    A graph lists, for every node index, the indices its resource depends on.
    Duplicates, self-loops and indices outside the plan are all possible. */
module TopoLevels {

  type Graph = seq<seq<nat>>

  datatype LevelsResult =
    | Levels(levels: seq<seq<nat>>)
    | UnknownDep(from: nat, dep: nat)
    | PlanCycle(stuck: nat)

  // ---------- what the graph says, independently of the algorithm ----------

  ghost predicate InRange(g: Graph) {
    forall i, d :: 0 <= i < |g| && d in g[i] ==> d < |g|
  }

  /** `(from, dep)` is the out-of-range dependency met first in plan order. */
  ghost predicate FirstUnknown(g: Graph, from: nat, dep: nat) {
    && from < |g|
    && (forall i, d :: 0 <= i < from && d in g[i] ==> d < |g|)
    && exists k :: 0 <= k < |g[from]| && g[from][k] == dep && dep >= |g|
                   && forall m :: 0 <= m < k ==> g[from][m] < |g|
  }

  /** `p` walks from a node to one of its deps, to one of that node's deps, ... */
  ghost predicate Chain(g: Graph, p: seq<nat>) {
    && |p| > 0
    && (forall k :: 0 <= k < |p| ==> p[k] < |g|)
    && (forall k :: 0 <= k < |p| - 1 ==> p[k + 1] in g[p[k]])
  }

  ghost predicate ChainFrom(g: Graph, i: nat, len: nat, p: seq<nat>) {
    Chain(g, p) && p[0] == i && |p| == len + 1
  }

  ghost predicate Cycle(g: Graph, p: seq<nat>) {
    Chain(g, p) && |p| > 1 && p[0] == p[|p| - 1]
  }

  ghost predicate Acyclic(g: Graph) {
    forall p :: !Cycle(g, p)
  }

  /** `p` leads from `i` into a node that lies on a cycle. */
  ghost predicate LeadsToCycle(g: Graph, i: nat, p: seq<nat>, c: seq<nat>) {
    Chain(g, p) && p[0] == i && Cycle(g, c) && c[0] == p[|p| - 1]
  }

  ghost predicate ReachesCycle(g: Graph, i: nat) {
    exists p, c :: LeadsToCycle(g, i, p, c)
  }

  /** The longest dependency chain from `i` has exactly `len` edges. */
  ghost predicate LongestChain(g: Graph, i: nat, len: nat) {
    && (exists p :: ChainFrom(g, i, len, p))
    && (forall p :: Chain(g, p) && p[0] == i ==> |p| <= len + 1)
  }

  ghost predicate Distinct(s: seq<nat>) {
    forall x, y :: 0 <= x < y < |s| ==> s[x] != s[y]
  }

  function Elements(s: seq<nat>): set<nat> {
    set i | i in s
  }

  ghost predicate InSomeLevel(levels: seq<seq<nat>>, i: nat) {
    exists a :: 0 <= a < |levels| && i in levels[a]
  }

  /** Every node below `n` occurs in exactly one level, exactly once, and nothing else does. */
  ghost predicate Partition(levels: seq<seq<nat>>, n: nat) {
    && (forall i: nat :: InSomeLevel(levels, i) <==> i < n)
    && (forall a :: 0 <= a < |levels| ==> Distinct(levels[a]))
    && (forall a, b, i :: 0 <= a < b < |levels| && i in levels[a] ==> i !in levels[b])
  }

  // ---------- chains of a given length ----------

  /** Some chain with `k` edges starts at `i`. */
  ghost predicate Deep(g: Graph, i: nat, k: nat)
    requires InRange(g) && i < |g|
    decreases k
  {
    k == 0 || exists d :: d in g[i] && Deep(g, d, k - 1)
  }

  lemma {:induction false} DeepDown(g: Graph, i: nat, k: nat)
    requires InRange(g) && i < |g| && k > 0 && Deep(g, i, k)
    ensures Deep(g, i, k - 1)
    decreases k
  {
    if k > 1 {
      var d :| d in g[i] && Deep(g, d, k - 1);
      DeepDown(g, d, k - 1);
    }
  }

  lemma {:induction false} DeepMonotone(g: Graph, i: nat, k: nat, m: nat)
    requires InRange(g) && i < |g| && k <= m
    ensures Deep(g, i, m) ==> Deep(g, i, k)
    decreases m - k
  {
    if k < m && Deep(g, i, m) {
      DeepDown(g, i, m);
      DeepMonotone(g, i, k, m - 1);
    }
  }

  lemma {:induction false} DeepHasChain(g: Graph, i: nat, k: nat) returns (p: seq<nat>)
    requires InRange(g) && i < |g| && Deep(g, i, k)
    ensures ChainFrom(g, i, k, p)
    decreases k
  {
    if k == 0 {
      p := [i];
    } else {
      var d :| d in g[i] && Deep(g, d, k - 1);
      var q := DeepHasChain(g, d, k - 1);
      p := [i] + q;
    }
  }

  lemma {:induction false} ChainMakesDeep(g: Graph, p: seq<nat>)
    requires InRange(g) && Chain(g, p)
    ensures Deep(g, p[0], |p| - 1)
    decreases |p|
  {
    if |p| > 1 {
      ChainMakesDeep(g, p[1..]);
      assert p[1] in g[p[0]];
    }
  }

  lemma LevelIsLongestChain(g: Graph, i: nat, k: nat)
    requires InRange(g) && i < |g|
    ensures Deep(g, i, k) && !Deep(g, i, k + 1) <==> LongestChain(g, i, k)
  {
    if Deep(g, i, k) && !Deep(g, i, k + 1) {
      var p := DeepHasChain(g, i, k);
      forall q | Chain(g, q) && q[0] == i ensures |q| <= k + 1 {
        ChainMakesDeep(g, q);
        if |q| > k + 1 { DeepMonotone(g, i, k + 1, |q| - 1); }
      }
    }
    if LongestChain(g, i, k) {
      var p :| ChainFrom(g, i, k, p);
      ChainMakesDeep(g, p);
      if Deep(g, i, k + 1) { var q := DeepHasChain(g, i, k + 1); }
    }
  }

  // ---------- cycles ----------

  /** Reaching a cycle leaves a dep that reaches a cycle, so chains go on for ever. */
  lemma {:induction false} ReachesCycleIsDeep(g: Graph, i: nat, k: nat)
    requires InRange(g) && i < |g| && ReachesCycle(g, i)
    ensures Deep(g, i, k)
    decreases k
  {
    if k > 0 {
      var p, c :| LeadsToCycle(g, i, p, c);
      if |p| == 1 {
        assert c[1] in g[c[0]];
        // go once round: the rest of the cycle leads back to its own start
        var q := c[1..];
        assert Chain(g, q) && LeadsToCycle(g, c[1], q, c);
        ReachesCycleIsDeep(g, c[1], k - 1);
      } else {
        assert p[1] in g[p[0]];
        assert LeadsToCycle(g, p[1], p[1..], c);
        ReachesCycleIsDeep(g, p[1], k - 1);
      }
    }
  }

  lemma {:induction false} Pigeonhole(p: seq<nat>, n: nat)
    requires forall k :: 0 <= k < |p| ==> p[k] < n
    requires forall a, b :: 0 <= a < b < |p| ==> p[a] != p[b]
    ensures |p| <= n
    decreases n
  {
    if |p| == 0 {
    } else if exists k :: 0 <= k < |p| && p[k] == n - 1 {
      var k :| 0 <= k < |p| && p[k] == n - 1;
      var q := p[..k] + p[k + 1..];
      forall x | 0 <= x < |q| ensures q[x] < n - 1 {
        var y := if x < k then x else x + 1;
        assert q[x] == p[y];
        assert y != k;
      }
      Pigeonhole(q, n - 1);
    } else {
      assert p[0] < n;
      Pigeonhole(p, n - 1);
    }
  }

  /** A chain with more edges than a graph has spare nodes must run into a cycle. */
  lemma DeepReachesCycle(g: Graph, i: nat)
    requires InRange(g) && i < |g| && Deep(g, i, |g|)
    ensures ReachesCycle(g, i)
  {
    var p := DeepHasChain(g, i, |g|);
    if forall a, b :: 0 <= a < b < |p| ==> p[a] != p[b] {
      Pigeonhole(p, |g|);
    }
    var a, b :| 0 <= a < b < |p| && p[a] == p[b];
    var c := p[a..b + 1];
    assert Cycle(g, c);
    assert LeadsToCycle(g, i, p[..a + 1], c);
  }

  lemma AcyclicMeansNoneReaches(g: Graph)
    requires InRange(g)
    ensures Acyclic(g) <==> forall i :: 0 <= i < |g| ==> !ReachesCycle(g, i)
  {
    if !Acyclic(g) {
      var c :| Cycle(g, c);
      assert LeadsToCycle(g, c[0], [c[0]], c);
      assert ReachesCycle(g, c[0]);
    }
    if i :| 0 <= i < |g| && ReachesCycle(g, i) {
      var p, c :| LeadsToCycle(g, i, p, c);
    }
  }

  // ---------- counting unmet dependencies ----------

  /** Number of entries of `s`, duplicates included, that are not in `done`. */
  function Pending(s: seq<nat>, done: set<nat>): nat {
    if s == [] then 0 else (if s[0] in done then 0 else 1) + Pending(s[1..], done)
  }

  lemma {:induction false} PendingZero(s: seq<nat>, done: set<nat>)
    ensures Pending(s, done) == 0 <==> forall d :: d in s ==> d in done
  {
    if s != [] {
      PendingZero(s[1..], done);
      assert s == [s[0]] + s[1..];
    }
  }

  lemma {:induction false} PendingNone(s: seq<nat>)
    ensures Pending(s, {}) == |s|
  {
    if s != [] { PendingNone(s[1..]); }
  }

  lemma {:induction false} PendingExpand(s: seq<nat>, done: set<nat>, i: nat)
    requires i !in done
    ensures Pending(s, done) == Pending(s, done + {i}) + multiset(s)[i]
  {
    if s != [] {
      PendingExpand(s[1..], done, i);
      assert s == [s[0]] + s[1..];
    }
  }

  lemma {:induction false} SizeInRange(s: set<nat>, n: nat)
    requires forall i :: i in s ==> i < n
    ensures |s| <= n
    ensures |s| == n <==> forall i: nat :: i < n ==> i in s
    decreases n
  {
    if n > 0 {
      SizeInRange(s - {n - 1}, n - 1);
      if n - 1 in s {
        assert |s| == |s - {n - 1}| + 1;
        assert forall i: nat :: i < n && i != n - 1 ==> (i in s <==> i in s - {n - 1});
      } else {
        assert s - {n - 1} == s;
      }
    }
  }

  lemma {:induction false} GrowDone(done: set<nat>, level: seq<nat>, n: nat)
    requires Distinct(level)
    requires forall i :: i in done || i in level ==> i < n
    requires forall i :: i in level ==> i !in done
    ensures |done + Elements(level)| == |done| + |level| <= n
    decreases |level|
  {
    if level == [] {
      SizeInRange(done, n);
    } else {
      GrowDone(done + {level[0]}, level[1..], n);
      assert level == [level[0]] + level[1..];
      assert done + Elements(level) == done + {level[0]} + Elements(level[1..]);
    }
  }

  lemma LevelsGrow(levels: seq<seq<nat>>, level: seq<nat>)
    ensures forall i: nat :: InSomeLevel(levels + [level], i) <==> InSomeLevel(levels, i) || i in level
  {
    var more := levels + [level];
    forall i: nat ensures InSomeLevel(more, i) <==> InSomeLevel(levels, i) || i in level {
      if i in level { assert more[|levels|] == level; }
      if InSomeLevel(levels, i) {
        var a :| 0 <= a < |levels| && i in levels[a];
        assert more[a] == levels[a];
      }
    }
  }

  // ---------- the algorithm ----------

  /** The part of a node's state that Kahn's algorithm keeps: after `k` finished
      levels the nodes done are those without a chain of `k` edges. */
  ghost predicate DoneAfter(g: Graph, done: set<nat>, k: nat)
    requires InRange(g)
  {
    forall i: nat :: i in done <==> i < |g| && !Deep(g, i, k)
  }

  /** `level` holds exactly the nodes whose longest chain has `k` edges. */
  ghost predicate IsLevel(g: Graph, level: seq<nat>, k: nat)
    requires InRange(g)
  {
    && Distinct(level)
    && forall i: nat :: i in level <==> i < |g| && Deep(g, i, k) && !Deep(g, i, k + 1)
  }

  /** `current` is the queue: the nodes not done all of whose deps are. */
  ghost predicate IsQueue(g: Graph, done: set<nat>, current: seq<nat>) {
    && Distinct(current)
    && forall j: nat :: j in current <==> j < |g| && j !in done && Pending(g[j], done) == 0
  }

  /** Once the level of nodes with no unmet dep is expanded, one more level is done. */
  lemma NextLevel(g: Graph, done: set<nat>, level: seq<nat>, k: nat)
    requires InRange(g) && DoneAfter(g, done, k) && IsQueue(g, done, level)
    ensures IsLevel(g, level, k)
    ensures DoneAfter(g, done + Elements(level), k + 1)
    ensures |done + Elements(level)| == |done| + |level| <= |g|
  {
    forall i: nat | i < |g|
      ensures !Deep(g, i, k + 1) <==> Pending(g[i], done) == 0
      ensures i in done ==> !Deep(g, i, k + 1)
    {
      PendingZero(g[i], done);
      if Deep(g, i, k + 1) {
        DeepDown(g, i, k + 1);
        var d :| d in g[i] && Deep(g, d, k);
      }
    }
    GrowDone(done, level, |g|);
  }

  lemma LevelsAreLongestChains(g: Graph, levels: seq<seq<nat>>)
    requires InRange(g)
    requires forall a :: 0 <= a < |levels| ==> IsLevel(g, levels[a], a)
    ensures forall a, i :: 0 <= a < |levels| && i in levels[a] ==> LongestChain(g, i, a)
    ensures forall a, b, i :: 0 <= a < b < |levels| && i in levels[a] ==> i !in levels[b]
  {
    forall a, i | 0 <= a < |levels| && i in levels[a] ensures LongestChain(g, i, a) {
      LevelIsLongestChain(g, i, a);
    }
    forall a, b, i | 0 <= a < b < |levels| && i in levels[a] ensures i !in levels[b] {
      DeepMonotone(g, i, a + 1, b);
    }
  }

  /** A level without nodes means no chain ends any more: what is left reaches a cycle. */
  lemma {:induction false} EmptyLevelStaysDeep(g: Graph, k: nat, i: nat, m: nat)
    requires InRange(g) && i < |g|
    requires forall j: nat :: j < |g| && Deep(g, j, k) ==> Deep(g, j, k + 1)
    requires k <= m && Deep(g, i, k)
    ensures Deep(g, i, m)
    decreases m
  {
    if m > k {
      assert Deep(g, i, k + 1);
      var d :| d in g[i] && Deep(g, d, k);
      EmptyLevelStaysDeep(g, k, d, m - 1);
    }
  }

  /** The nodes left over when the queue runs dry are those that reach a cycle. */
  lemma LeftOverReachesCycle(g: Graph, done: set<nat>, k: nat)
    requires InRange(g) && DoneAfter(g, done, k)
    requires forall i: nat :: i < |g| && i !in done ==> Pending(g[i], done) > 0
    ensures forall i: nat :: i < |g| ==> (i !in done <==> ReachesCycle(g, i))
  {
    forall i: nat | i < |g| ensures i !in done <==> ReachesCycle(g, i) {
      if i !in done {
        forall j: nat | j < |g| && Deep(g, j, k) ensures Deep(g, j, k + 1) {
          PendingZero(g[j], done);
          var d :| d in g[j] && d !in done;
          assert Deep(g, d, k);
        }
        var m := if k <= |g| then |g| else k;
        EmptyLevelStaysDeep(g, k, i, m);
        DeepMonotone(g, i, |g|, m);
        DeepReachesCycle(g, i);
      } else if ReachesCycle(g, i) {
        ReachesCycleIsDeep(g, i, k);
      }
    }
  }

  /** What the finished levels amount to. */
  ghost predicate LevelsDone(g: Graph, levels: seq<seq<nat>>, done: set<nat>)
    requires InRange(g)
  {
    && DoneAfter(g, done, |levels|)
    && (forall a :: 0 <= a < |levels| ==> IsLevel(g, levels[a], a) && levels[a] != [])
    && (forall j: nat :: j in done <==> InSomeLevel(levels, j))
  }

  lemma NothingDone(g: Graph)
    requires InRange(g)
    ensures LevelsDone(g, [], {})
  {
  }

  lemma LevelDone(g: Graph, levels: seq<seq<nat>>, done: set<nat>, current: seq<nat>)
    requires InRange(g) && LevelsDone(g, levels, done) && IsQueue(g, done, current) && current != []
    ensures LevelsDone(g, levels + [current], done + Elements(current))
    ensures |done + Elements(current)| == |done| + |current| <= |g|
  {
    hide IsLevel, InSomeLevel, DoneAfter, Deep, Distinct, IsQueue;
    NextLevel(g, done, current, |levels|);
    LevelsGrow(levels, current);
  }

  /** What an empty queue means: either everything is done and the levels are the
      answer, or the nodes left over are exactly those that reach a cycle. */
  lemma QueueEmpty(g: Graph, levels: seq<seq<nat>>, done: set<nat>)
    requires InRange(g) && LevelsDone(g, levels, done) && IsQueue(g, done, [])
    ensures |done| == |g| <==> Acyclic(g)
    ensures |done| == |g| ==> Partition(levels, |g|)
    ensures forall j: nat :: j < |g| ==> (Pending(g[j], done) == 0 <==> !ReachesCycle(g, j))
    ensures |done| == |g| <==> forall j: nat :: j < |g| ==> Pending(g[j], done) == 0
    ensures forall a, j :: 0 <= a < |levels| && j in levels[a] ==> LongestChain(g, j, a)
    ensures forall a :: 0 <= a < |levels| ==> levels[a] != []
  {
    forall j: nat | j < |g| ensures j in done <==> Pending(g[j], done) == 0 {
      assert j !in [];
      PendingZero(g[j], done);
      DeepMonotone(g, j, |levels|, |levels| + 1);
    }
    SizeInRange(done, |g|);
    LeftOverReachesCycle(g, done, |levels|);
    AcyclicMeansNoneReaches(g);
    LevelsAreLongestChains(g, levels);
  }

  /** `inDegree` counts the unmet deps of every node, duplicates included. */
  ghost predicate CountsPending(g: Graph, inDegree: array<nat>, done: set<nat>)
    reads inDegree
  {
    inDegree.Length == |g| && forall j :: 0 <= j < |g| ==> inDegree[j] == Pending(g[j], done)
  }

  /** `successors` is the transpose of the graph, with multiplicities. */
  ghost predicate Transposed(g: Graph, successors: array<seq<nat>>)
    reads successors
  {
    && successors.Length == |g|
    && (forall d, j: nat :: 0 <= d < |g| && j in successors[d] ==> j < |g|)
    && forall d, j: nat :: 0 <= d < |g| && j < |g| ==> multiset(successors[d])[j] == multiset(g[j])[d]
  }

  /** Like `Transposed`, with only the edges of the nodes below `i` entered. */
  ghost predicate TransposedBelow(g: Graph, successors: array<seq<nat>>, i: nat)
    reads successors
  {
    && successors.Length == |g|
    && (forall d, j: nat :: 0 <= d < |g| && j in successors[d] ==> j < i)
    && forall d, j: nat :: 0 <= d < |g| && j < i <= |g| ==> multiset(successors[d])[j] == multiset(g[j])[d]
  }

  /** The lists once the edges of node `i` have been added to those of the nodes below it. */
  lemma EdgesEntered(g: Graph, was: seq<seq<nat>>, now: seq<seq<nat>>, i: nat)
    requires |was| == |now| == |g| && i < |g|
    requires forall d, j: nat :: 0 <= d < |g| && j in was[d] ==> j < i
    requires forall d, j: nat :: 0 <= d < |g| && j < i ==> multiset(was[d])[j] == multiset(g[j])[d]
    requires forall d :: 0 <= d < |g| ==> Times(now[d], i) == Times(g[i], d)
    requires forall d, j: nat :: 0 <= d < |g| && j != i ==> Times(now[d], j) == Times(was[d], j)
    ensures forall d, j: nat :: 0 <= d < |g| && j in now[d] ==> j < i + 1
    ensures forall d, j: nat :: 0 <= d < |g| && j < i + 1 ==> multiset(now[d])[j] == multiset(g[j])[d]
  {
    forall d, j: nat | 0 <= d < |g| && j in now[d] ensures j < i + 1 {
      assert Times(now[d], j) > 0;
      assert j != i ==> Times(was[d], j) > 0 && j in was[d];
    }
    forall d, j: nat | 0 <= d < |g| && j < i + 1 ensures multiset(now[d])[j] == multiset(g[j])[d] {
      assert Times(now[d], j) == if j == i then Times(g[i], d) else Times(was[d], j);
    }
  }

  function Times(s: seq<nat>, x: nat): nat { multiset(s)[x] }

  lemma TimesSnoc(s: seq<nat>, x: nat)
    ensures forall y: nat :: Times(s + [x], y) == Times(s, y) + if y == x then 1 else 0
  {
  }

  lemma NothingEntered(g: Graph, was: seq<seq<nat>>, i: nat)
    requires |was| == |g| && i < |g| && forall d, j: nat :: 0 <= d < |g| && j in was[d] ==> j < i
    ensures forall d: nat :: d < |g| ==> Times(was[d], i) == Times(g[i][..0], d)
  {
    forall d: nat | d < |g| ensures Times(was[d], i) == Times(g[i][..0], d) {
      assert i !in was[d];
    }
  }

  /** Enter the edges of node `i`, stopping at the first dep that is not in the plan. */
  method LinkNode(g: Graph, inDegree: array<nat>, successors: array<seq<nat>>, i: nat) returns (bad: LevelsResult)
    requires i < |g| && inDegree.Length == |g| && TransposedBelow(g, successors, i)
    requires forall j :: i <= j < |g| ==> inDegree[j] == 0
    modifies inDegree, successors
    ensures bad == Levels([]) || exists k :: 0 <= k < |g[i]| && bad == UnknownDep(i, g[i][k]) && g[i][k] >= |g|
                                             && forall m :: 0 <= m < k ==> g[i][m] < |g|
    ensures bad.Levels? ==> TransposedBelow(g, successors, i + 1) && forall d :: d in g[i] ==> d < |g|
    ensures bad.Levels? ==> forall j :: 0 <= j < |g| ==> inDegree[j] == if j == i then |g[i]| else old(inDegree[j])
  {
    hide InRange, Times;
    ghost var was := successors[..];
    NothingEntered(g, was, i);
    for k := 0 to |g[i]|
      invariant forall m :: 0 <= m < k ==> g[i][m] < |g|
      invariant forall j :: 0 <= j < |g| ==> inDegree[j] == if j == i then k else old(inDegree[j])
      invariant forall d :: 0 <= d < |g| ==> Times(successors[d], i) == Times(g[i][..k], d)
      invariant forall d, j: nat :: 0 <= d < |g| && j != i ==> Times(successors[d], j) == Times(was[d], j)
    {
      var dep := g[i][k];
      if dep >= |g| {
        return UnknownDep(i, dep);
      }
      assert g[i][..k + 1] == g[i][..k] + [dep];
      TimesSnoc(g[i][..k], dep);
      TimesSnoc(successors[dep], i);
      successors[dep] := successors[dep] + [i];
      inDegree[i] := inDegree[i] + 1;
    }
    assert g[i][..|g[i]|] == g[i];
    EdgesEntered(g, was, successors[..], i);
    bad := Levels([]);
  }

  /** First phase: reject an unknown dep, else fill in-degrees and successor lists. */
  method LinkNodes(g: Graph) returns (inDegree: array<nat>, successors: array<seq<nat>>, bad: LevelsResult)
    ensures fresh(inDegree) && fresh(successors)
    ensures bad.UnknownDep? || bad == Levels([])
    ensures bad.UnknownDep? <==> !InRange(g)
    ensures bad.UnknownDep? ==> FirstUnknown(g, bad.from, bad.dep)
    ensures bad.Levels? ==> CountsPending(g, inDegree, {}) && Transposed(g, successors)
  {
    inDegree := new nat[|g|](_ => 0);
    successors := new seq<nat>[|g|](_ => []);
    bad := Levels([]);
    for i := 0 to |g|
      invariant bad == Levels([])
      invariant forall j, d :: 0 <= j < i && d in g[j] ==> d < |g|
      invariant forall j :: 0 <= j < |g| ==> inDegree[j] == if j < i then |g[j]| else 0
      invariant TransposedBelow(g, successors, i)
    {
      bad := LinkNode(g, inDegree, successors, i);
      if bad.UnknownDep? {
        assert bad.dep in g[i];
        return;
      }
    }
    forall j: nat | j < |g| ensures Pending(g[j], {}) == inDegree[j] { PendingNone(g[j]); }
  }

  lemma NextOccurrence(s: seq<nat>, k: nat)
    requires k < |s|
    ensures multiset(s[..k + 1]) == multiset(s[..k]) + multiset{s[k]}
    ensures multiset(s[..k])[s[k]] < multiset(s)[s[k]] && s[k] in s
  {
    assert s[..k + 1] == s[..k] + [s[k]];
    assert s == s[..k + 1] + s[k + 1..];
  }

  /** Expand one node: decrement its successors and queue those that become free.
      The decrement never underflows. */
  method ExpandNode(g: Graph, inDegree: array<nat>, successors: array<seq<nat>>, i: nat,
                    queued: seq<nat>, ghost done: set<nat>)
    returns (next: seq<nat>)
    requires i < |g| && i !in done
    requires CountsPending(g, inDegree, done) && Transposed(g, successors)
    requires Distinct(queued)
    requires forall j: nat :: j in queued ==> j < |g| && inDegree[j] == 0
    modifies inDegree
    ensures CountsPending(g, inDegree, done + {i})
    ensures forall j :: 0 <= j < |g| && old(inDegree[j]) == 0 ==> inDegree[j] == 0
    ensures Distinct(next)
    ensures forall j: nat :: j in next <==> j in queued || (j < |g| && inDegree[j] == 0 && old(inDegree[j]) > 0)
  {
    forall j: nat | j < |g| ensures Pending(g[j], done) == Pending(g[j], done + {i}) + multiset(g[j])[i] {
      PendingExpand(g[j], done, i);
    }
    next := queued;
    hide Pending;
    for k := 0 to |successors[i]|
      invariant forall j :: 0 <= j < |g| ==>
        inDegree[j] == Pending(g[j], done + {i}) + multiset(g[j])[i] - multiset(successors[i][..k])[j]
      invariant Distinct(next)
      invariant forall j: nat :: j in next <==> j in queued || (j < |g| && inDegree[j] == 0 && old(inDegree[j]) > 0)
    {
      var j := successors[i][k];
      NextOccurrence(successors[i], k);
      assert multiset(successors[i])[j] == multiset(g[j])[i];
      inDegree[j] := inDegree[j] - 1;
      if inDegree[j] == 0 {
        next := next + [j];
      }
    }
    assert successors[i][..|successors[i]|] == successors[i];
  }

  /** Expand every node of the current level and collect the nodes that become free. */
  method ExpandLevel(g: Graph, inDegree: array<nat>, successors: array<seq<nat>>, current: seq<nat>,
                     ghost done: set<nat>)
    returns (next: seq<nat>, count: nat)
    requires CountsPending(g, inDegree, done) && Transposed(g, successors)
    requires IsQueue(g, done, current)
    requires forall j :: j in done ==> j < |g| && inDegree[j] == 0
    modifies inDegree
    ensures CountsPending(g, inDegree, done + Elements(current))
    ensures forall j :: j in done || j in current ==> inDegree[j] == 0
    ensures count == |current|
    ensures Distinct(next)
    ensures forall j: nat :: j in next <==> j < |g| && j !in done && j !in current && inDegree[j] == 0
  {
    next, count := [], 0;
    assert done + Elements(current[..0]) == done;
    for x := 0 to |current|
      invariant count == x
      invariant CountsPending(g, inDegree, done + Elements(current[..x]))
      invariant Distinct(next)
      invariant forall j :: j in done || j in current ==> j < |g| && inDegree[j] == 0
      invariant forall j: nat :: j in next <==> j < |g| && j !in done && j !in current && inDegree[j] == 0
    {
      ghost var expanded := done + Elements(current[..x]);
      assert current[x] in current && current[x] !in expanded;
      count := count + 1;
      next := ExpandNode(g, inDegree, successors, current[x], next, expanded);
      assert current[..x + 1] == current[..x] + [current[x]];
      assert expanded + {current[x]} == done + Elements(current[..x + 1]);
    }
    assert current[..|current|] == current;
  }

  /** The nodes with no deps at all, in index order. */
  method ReadyNodes(inDegree: array<nat>) returns (current: seq<nat>)
    ensures Distinct(current)
    ensures forall j: nat :: j in current <==> j < inDegree.Length && inDegree[j] == 0
  {
    current := [];
    for i := 0 to inDegree.Length
      invariant Distinct(current)
      invariant forall j: nat :: j in current <==> j < i && inDegree[j] == 0
    {
      if inDegree[i] == 0 {
        current := current + [i];
      }
    }
  }

  /** The lowest node that still waits for a dep; one exists. */
  method FirstStuck(inDegree: array<nat>) returns (stuck: nat)
    requires exists j :: 0 <= j < inDegree.Length && inDegree[j] > 0
    ensures stuck < inDegree.Length && inDegree[stuck] > 0
    ensures forall j :: 0 <= j < stuck ==> inDegree[j] == 0
  {
    stuck := 0;
    while inDegree[stuck] == 0
      invariant stuck < inDegree.Length
      invariant forall j :: 0 <= j < stuck ==> inDegree[j] == 0
      decreases inDegree.Length - stuck
    {
      stuck := stuck + 1;
    }
  }

  /** Kahn's algorithm by levels. Every queued node is expanded once, and an
      exhausted queue with nodes left over means a real cycle. */
  method ComputeTopoLevels(g: Graph) returns (r: LevelsResult)
    ensures r.UnknownDep? <==> !InRange(g)
    ensures r.UnknownDep? ==> FirstUnknown(g, r.from, r.dep)
    ensures r.Levels? <==> InRange(g) && Acyclic(g)
    ensures r.Levels? ==> Partition(r.levels, |g|)
    ensures r.Levels? ==> forall a, i :: 0 <= a < |r.levels| && i in r.levels[a] ==> LongestChain(g, i, a)
    ensures r.Levels? ==> forall a :: 0 <= a < |r.levels| ==> r.levels[a] != []
    ensures r.PlanCycle? ==> r.stuck < |g| && ReachesCycle(g, r.stuck)
    ensures r.PlanCycle? ==> forall j :: 0 <= j < r.stuck ==> !ReachesCycle(g, j)
  {
    hide LevelsDone, Transposed, Partition, LongestChain, ReachesCycle, Acyclic, Pending, FirstUnknown;
    var n := |g|;
    var inDegree, successors, bad := LinkNodes(g);
    if bad.UnknownDep? {
      return bad;
    }

    NothingDone(g);
    var levels: seq<seq<nat>> := [];
    var current := ReadyNodes(inDegree);
    var visited := 0;
    ghost var done: set<nat> := {};

    while current != []
      invariant LevelsDone(g, levels, done) && IsQueue(g, done, current)
      invariant visited == |done| <= n
      invariant CountsPending(g, inDegree, done) && Transposed(g, successors)
      invariant forall j :: j in done ==> j < n && inDegree[j] == 0
      decreases n - visited
    {
      LevelDone(g, levels, done, current);
      var next, count := ExpandLevel(g, inDegree, successors, current, done);
      visited := visited + count;
      levels := levels + [current];
      done := done + Elements(current);
      current := next;
    }

    QueueEmpty(g, levels, done);
    if visited != n {
      var stuck := FirstStuck(inDegree);
      return PlanCycle(stuck);
    }
    return Levels(levels);
  }
}
