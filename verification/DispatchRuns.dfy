/** From the order of dispatch to the report: the order in which bundles are asked for only
    renames ids, and a run of the renamed plan reports the same for every resource and leaves
    the same host. */
module DispatchRuns {
  import opened HostModel
  import opened Run
  import opened RunReport
  import opened RunSchedule
  import opened RunViews
  import opened RunModes
  import opened Backends
  import opened WholePlan
  import opened RenamedPlans
  import PlanBuilder

  // ---------- from the bundles ----------

  /** What an add instruction adds, before its references are resolved. */
  datatype Template = Template(hint: string, resource: Resource, skip: Skip)

  function FilledIn(r: Resource, triggers: seq<nat>): Resource {
    match r
    case Service(_, _, _, _) => r.(restartOn := triggers)
    case Command(_, Some(_), _) => r.(triggerOn := Some(triggers))
    case _ => r
  }

  function PlanOf(nodes: seq<PlanBuilder.Node<Template>>): (plan: Plan)
    ensures |plan| == |nodes|
  {
    seq(|nodes|, i requires 0 <= i < |nodes| =>
      var n := nodes[i]; Node(n.resource.hint, FilledIn(n.resource.resource, n.triggers), n.deps, n.resource.skip))
  }

  /** An isomorphism of built plans is a renaming of the plans that run. */
  lemma IsomorphicRenames(a: PlanBuilder.State<Template>, b: PlanBuilder.State<Template>) returns (to: seq<nat>)
    requires PlanBuilder.Isomorphic(a, b)
    ensures Renames(to, PlanOf(a.nodes), PlanOf(b.nodes))
    ensures |to| == |a.nodes| && forall i :: 0 <= i < |to| ==> to[i] == PlanBuilder.Renamed(a.origins, b.origins, i)
  {
    hide PlanBuilder.Renamed;
    to := seq(|a.nodes|, i requires 0 <= i < |a.nodes| => PlanBuilder.Renamed(a.origins, b.origins, i));
    forall i: nat | i < |to| ensures to[i] < |b.nodes|
      && PlanOf(b.nodes)[to[i]] == RenamedNode(to, PlanOf(a.nodes)[i]) {
      assert PlanBuilder.SameNode(a, b, i);
      assert b.nodes[to[i]].deps == Mapped(to, a.nodes[i].deps);
      assert b.nodes[to[i]].triggers == Mapped(to, a.nodes[i].triggers);
    }
  }

  /** The plan that asking for these bundles in this order builds. */
  ghost function Asked(cat: PlanBuilder.Catalog<Template>, rank: seq<nat>, asked: seq<nat>): Plan
    requires PlanBuilder.WellFormed(cat, rank) && forall x :: 0 <= x < |asked| ==> asked[x] < |cat|
  {
    PlanOf(PlanBuilder.Dispatch(cat, rank, PlanBuilder.Empty(), asked).nodes)
  }

  /** Asking for the same bundles in any two orders gives plans that differ in their ids only;
      runs of the two over the same host report the same for every resource, and completed runs
      leave the same host if the levels are independent. What is asked of the footprints is asked
      of one of the plans. */
  lemma DispatchRunsAlike(cat: PlanBuilder.Catalog<Template>, rank: seq<nat>, asked1: seq<nat>, asked2: seq<nat>,
                          env: Env, topo1: seq<seq<nat>>, topo2: seq<seq<nat>>, levels1: seq<Level>,
                          levels2: seq<Level>, host: Host, manager1: Manager, manager2: Manager, acts1: seq<Action>,
                          acts2: seq<Action>, c1: Config<Local, Manager>, c2: Config<Local, Manager>)
    returns (to: seq<nat>)
    requires PlanBuilder.WellFormed(cat, rank)
    requires (forall x :: 0 <= x < |asked1| ==> asked1[x] < |cat|)
             && (forall x :: 0 <= x < |asked2| ==> asked2[x] < |cat|)
    requires forall k :: k in asked1 <==> k in asked2
    requires var plan1 := Asked(cat, rank, asked1);
             && Leveled(plan1, topo1) && Prepared(plan1, env, topo1, levels1)
             && LevelsApart(SystemOf(plan1, levels1, env)) && Upstream(SystemOf(plan1, levels1, env))
             && RunTo(SystemOf(plan1, levels1, env), host, manager1, acts1) == Some(c1)
    requires var plan2 := Asked(cat, rank, asked2);
             && Leveled(plan2, topo2) && Prepared(plan2, env, topo2, levels2)
             && RunTo(SystemOf(plan2, levels2, env), host, manager2, acts2) == Some(c2)
    ensures Renames(to, Asked(cat, rank, asked1), Asked(cat, rank, asked2))
    ensures forall j1: nat, j2: nat, o1: Outcome, o2: Outcome ::
              j1 + 1 < |c1.records| && j2 + 1 < |c2.records| && o2.id == To(to, o1.id)
              && o1 in Segment(c1.records, c1.report, j1) && o2 in Segment(c2.records, c2.report, j2) ==>
                j1 == j2 && o1.changed == o2.changed
    ensures LevelsIndependent(SystemOf(Asked(cat, rank, asked1), levels1, env)) ==>
              (c1.phase == Completed && c2.phase == Completed ==> c1.host == c2.host)
  {
    hide PlanBuilder.Isomorphic, PlanBuilder.WellFormed, PlanBuilder.Dispatch, Renames, Leveled, Prepared, LevelsApart,
         LevelsIndependent, Upstream, RunTo, SystemOf, Segment, PlanOf;
    PlanBuilder.DispatchIsOrderIndependent(cat, rank, asked1, asked2);
    to := IsomorphicRenames(PlanBuilder.Dispatch(cat, rank, PlanBuilder.Empty(), asked1),
                            PlanBuilder.Dispatch(cat, rank, PlanBuilder.Empty(), asked2));
    var plan1, plan2 := Asked(cat, rank, asked1), Asked(cat, rank, asked2);
    forall j1: nat, j2: nat, o1: Outcome, o2: Outcome
      | j1 + 1 < |c1.records| && j2 + 1 < |c2.records| && o2.id == To(to, o1.id)
        && o1 in Segment(c1.records, c1.report, j1) && o2 in Segment(c2.records, c2.report, j2)
      ensures j1 == j2 && o1.changed == o2.changed
    {
      RenamedPlansReportAlike(to, plan1, plan2, env, topo1, topo2, levels1, levels2, host, manager1, manager2, acts1,
                              acts2, c1, c2, j1, j2, o1, o2);
    }
    if c1.phase == Completed && c2.phase == Completed && LevelsIndependent(SystemOf(plan1, levels1, env)) {
      RenamedPlansLeaveAlike(to, plan1, plan2, env, topo1, topo2, levels1, levels2, host, manager1, manager2, acts1,
                             acts2, c1, c2);
    }
  }

  // ---------- the plan that runs is what the bundles say ----------

  /** A resource as its instruction has it, with the nodes its trigger list leads to. */
  ghost predicate Stems(r: Resource, t: Resource, triggers: seq<nat>) {
    match t
    case Service(name, enabled, started, _) => r == Service(name, enabled, started, triggers)
    case Command(argv, Some(_), program) => r == Command(argv, Some(triggers), program)
    case _ => r == t
  }

  /** The node comes from this add instruction: with its hint, its skip condition and its resource,
      and with deps and triggers that lead to the nodes of the instructions it refers to, in order. */
  ghost predicate NodeStems(cat: PlanBuilder.Catalog<Template>, rank: seq<nat>, origins: seq<PlanBuilder.Origin>,
                            node: Node, triggers: seq<nat>, o: PlanBuilder.Origin)
    requires PlanBuilder.WellFormed(cat, rank)
  {
    && PlanBuilder.IsAdd(cat, o)
    && var instr := cat[o.bundle].instrs[o.instr];
       && node.hint == instr.resource.hint && node.skip == instr.resource.skip
       && PlanBuilder.RefsMean(cat, rank, origins, o.bundle, instr.deps, node.deps)
       && PlanBuilder.RefsMean(cat, rank, origins, o.bundle, instr.triggers, triggers)
       && Stems(node.resource, instr.resource.resource, triggers)
  }

  /** Each node of the plan that runs comes from an add instruction of a bundle. */
  lemma AskedPlanMeans(cat: PlanBuilder.Catalog<Template>, rank: seq<nat>, asked: seq<nat>)
    returns (origins: seq<PlanBuilder.Origin>, triggers: seq<seq<nat>>)
    requires PlanBuilder.WellFormed(cat, rank) && forall x :: 0 <= x < |asked| ==> asked[x] < |cat|
    ensures |origins| == |triggers| == |Asked(cat, rank, asked)|
    ensures forall i :: 0 <= i < |origins| ==>
              NodeStems(cat, rank, origins, Asked(cat, rank, asked)[i], triggers[i], origins[i])
  {
    hide PlanBuilder.WellFormed, PlanBuilder.Meaning, PlanBuilder.Built, PlanBuilder.Dispatch, PlanBuilder.RefsMean;
    PlanBuilder.EmptyIsGood(cat, rank);
    PlanBuilder.DispatchKeepsGood(cat, rank, PlanBuilder.Empty(), asked);
    var st := PlanBuilder.Dispatch(cat, rank, PlanBuilder.Empty(), asked);
    origins := st.origins;
    triggers := seq(|st.nodes|, i requires 0 <= i < |st.nodes| => st.nodes[i].triggers);
    forall i | 0 <= i < |origins| ensures NodeStems(cat, rank, origins, PlanOf(st.nodes)[i], triggers[i], origins[i]) {
      assert PlanBuilder.NodeMeans(cat, rank, st.nodes, st.origins, i);
    }
  }
}
