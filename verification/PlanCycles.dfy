/**
 When the blockers of a plan run in a circle: exactly if the annotations and chains among the
 implementation tasks of its brief do, which can be told from the brief alone.
 */
module PlanCycles {
  import opened Common
  import opened HmasTypes
  import opened ImplRefs
  import opened PlanSkeleton
  import opened Planning
  import opened PlanWiring
  import opened Breakdown
  import DependencyGraph

  // ------------------------------------------------------ edges of the brief

  predicate NodeRefers(n: Node, issue: int) {
    n.layer.L3_TaskAgent? && IssueOf(n) == issue && issue != 0
  }

  function NodeDeps(n: Node): seq<nat> {
    if n.layer.L3_TaskAgent? && IssueOf(n) != 0 && Parsed(n.text).Ok? then Parsed(n.text).value.dependsOn else []
  }

  /** Node a is annotated with an issue whose first node is b. */
  ghost predicate NodeEdge(nodes: seq<Node>, a: nat, b: nat) {
    && a < |nodes| && b < |nodes| && a != b
    && NodeRefers(nodes[b], IssueOf(nodes[b]))
    && IssueOf(nodes[b]) in NodeDeps(nodes[a])
    && forall k :: 0 <= k < b ==> !NodeRefers(nodes[k], IssueOf(nodes[b]))
  }

  /** Implementation node a waits for implementation node b. */
  ghost predicate LeafEdge(brief: TaskBrief, a: nat, b: nat) {
    var nodes := Skeleton(brief);
    a < |nodes| && nodes[a].layer.L3_TaskAgent? && (nodes[a].prev == Some(b) || NodeEdge(nodes, a, b))
  }

  ghost predicate LeafCycle(brief: TaskBrief, c: seq<nat>) {
    && |c| >= 2
    && c[0] == c[|c| - 1]
    && forall k, l :: 0 <= k < l < |c| && l == k + 1 ==> LeafEdge(brief, c[k], c[l])
  }

  lemma FirstFields(p: Plan, i: nat)
    requires EnoughIds(p) && i < |Skeleton(p.brief)|
    ensures
      var t, n := FirstPass(p)[i], Skeleton(p.brief)[i];
      && t.layer == n.layer && t.issue == IssueOf(n)
      && (n.layer.L3_TaskAgent? ==> t.subject == n.text)
  {
    hide FirstPass, Skeleton, Parsed, WellFormed, ChildIds, Blockers;
    var ts := FirstPass(p);
    NodesBound(p, Skeleton(p.brief), i);
  }

  lemma SameReferences(p: Plan, i: nat)
    requires EnoughIds(p) && i < |Skeleton(p.brief)|
    ensures Annotated(FirstPass(p)[i]) == NodeDeps(Skeleton(p.brief)[i])
    ensures forall n :: RefersToIssue(FirstPass(p)[i], n) <==> NodeRefers(Skeleton(p.brief)[i], n)
  {
    hide FirstPass, Skeleton, Parsed, IssueOf, EnoughIds;
    FirstFields(p, i);
  }

  lemma AnnotatedIsNodeEdge(p: Plan, a: nat, b: nat)
    requires EnoughIds(p)
    ensures AnnotatedEdge(p, a, b) <==> NodeEdge(Skeleton(p.brief), a, b)
  {
    hide FirstPass, Skeleton, IssueOf, NodeDeps, NodeRefers, Annotated, RefersToIssue, EnoughIds;
    var ts, nodes := FirstPass(p), Skeleton(p.brief);
    if a < |nodes| && b < |nodes| {
      forall i | 0 <= i < |nodes|
        ensures Annotated(ts[i]) == NodeDeps(nodes[i])
        ensures forall n :: RefersToIssue(ts[i], n) <==> NodeRefers(nodes[i], n)
      {
        SameReferences(p, i);
      }
      IssueOfReference(nodes[b]);
      if AnnotatedEdge(p, a, b) {
        var d: nat :| d < |Annotated(ts[a])| && Resolves(ts, a, d, b);
        assert NodeRefers(nodes[b], Annotated(ts[a])[d]);
      }
      if NodeEdge(nodes, a, b) {
        var d :| 0 <= d < |NodeDeps(nodes[a])| && NodeDeps(nodes[a])[d] == IssueOf(nodes[b]);
        assert Resolves(ts, a, d, b);
      }
    }
  }

  lemma IssueOfReference(n: Node)
    ensures forall issue :: NodeRefers(n, issue) ==> issue == IssueOf(n)
  {
  }

  // ------------------------------------------------------- where blockers lie

  function Depth(layer: Layer): nat {
    match layer
    case L0_ChiefArchitect => 0
    case L1_ComponentLead => 1
    case L2_ModuleLead => 2
    case L3_TaskAgent => 3
  }

  /** What the three kinds of blockers say about layers and positions. */
  lemma TreeKind(p: Plan, a: nat, b: nat)
    requires EnoughIds(p) && a < |Skeleton(p.brief)| && (ParentOf(p, a, b) || ChainedBehind(p, a, b))
    ensures
      var nodes := Skeleton(p.brief);
      && b < a
      && (ParentOf(p, a, b) ==> Depth(nodes[b].layer) < Depth(nodes[a].layer))
      && (ChainedBehind(p, a, b) ==> nodes[b].layer == nodes[a].layer && nodes[a].prev == Some(b))
  {
    SkeletonShape(p.brief);
    hide Skeleton, WellFormed, PlanSize;
    NodesBound(p, Skeleton(p.brief), a);
  }

  /** A blocker is never deeper; one as deep is an implementation edge or an earlier sibling. */
  lemma BlockerKinds(p: Plan, tasks: seq<HmasTask>, a: nat, b: nat)
    requires IsPlan(p, tasks) && a < |tasks| && b < |tasks| && tasks[b].id in tasks[a].blockedBy
    ensures Depth(tasks[b].layer) <= Depth(tasks[a].layer)
    ensures tasks[b].layer == tasks[a].layer && tasks[a].layer.L3_TaskAgent? ==> LeafEdge(p.brief, a, b)
    ensures tasks[b].layer == tasks[a].layer && !tasks[a].layer.L3_TaskAgent? ==> b < a
  {
    PlanBasics(p, tasks);
    BlockersExactly(p, tasks, a, b);
    hide IsPlan, Skeleton, FirstPass, Edge, EnoughIds, IssueOf, Fresh, ParentOf, ChainedBehind, AnnotatedEdge;
    if ParentOf(p, a, b) || ChainedBehind(p, a, b) {
      TreeKind(p, a, b);
    } else {
      AnnotatedIsNodeEdge(p, a, b);
    }
  }

  lemma LeafEdgeBlocks(p: Plan, tasks: seq<HmasTask>, a: nat, b: nat)
    requires IsPlan(p, tasks) && LeafEdge(p.brief, a, b)
    ensures a < |tasks| && b < |tasks| && tasks[b].id in tasks[a].blockedBy
  {
    PlanBasics(p, tasks);
    SkeletonShape(p.brief);
    NodesBound(p, Skeleton(p.brief), a);
    hide IsPlan, Skeleton, FirstPass, WellFormed, Edge, EnoughIds, NodeDeps, IssueOf, Fresh;
    AnnotatedIsNodeEdge(p, a, b);
    BlockersExactly(p, tasks, a, b);
  }

  // ------------------------------------------------------------ walks of tasks

  /** Positions of tasks, each blocked by the next. */
  ghost predicate BlockerWalk(tasks: seq<HmasTask>, c: seq<nat>) {
    && (forall k :: 0 <= k < |c| ==> c[k] < |tasks|)
    && forall k, l :: 0 <= k < l < |c| && l == k + 1 ==> tasks[c[l]].id in tasks[c[k]].blockedBy
  }

  lemma {:induction false} DepthFalls(p: Plan, tasks: seq<HmasTask>, c: seq<nat>, k: nat, l: nat)
    requires IsPlan(p, tasks) && BlockerWalk(tasks, c) && k <= l < |c|
    ensures Depth(tasks[c[l]].layer) <= Depth(tasks[c[k]].layer)
  {
    hide IsPlan, Depth, LeafEdge;
    if k < l {
      DepthFalls(p, tasks, c, k, l - 1);
      BlockerKinds(p, tasks, c[l - 1], c[l]);
    }
  }

  lemma {:induction false} PositionFalls(p: Plan, tasks: seq<HmasTask>, c: seq<nat>, l: nat)
    requires IsPlan(p, tasks) && BlockerWalk(tasks, c) && l < |c|
    requires forall k :: 0 <= k < |c| ==> tasks[c[k]].layer == tasks[c[0]].layer && !tasks[c[k]].layer.L3_TaskAgent?
    ensures l > 0 ==> c[l] < c[0]
  {
    hide IsPlan, LeafEdge;
    if l > 0 {
      PositionFalls(p, tasks, c, l - 1);
      BlockerKinds(p, tasks, c[l - 1], c[l]);
    }
  }

  /** A circle of blockers stays on the lowest layer and uses implementation edges only. */
  lemma CircleIsLeafCycle(p: Plan, tasks: seq<HmasTask>, c: seq<nat>)
    requires IsPlan(p, tasks) && BlockerWalk(tasks, c) && |c| >= 2 && c[0] == c[|c| - 1]
    ensures LeafCycle(p.brief, c)
  {
    hide IsPlan, LeafEdge;
    forall k | 0 <= k < |c| ensures tasks[c[k]].layer == tasks[c[0]].layer {
      DepthFalls(p, tasks, c, 0, k);
      DepthFalls(p, tasks, c, k, |c| - 1);
    }
    if !tasks[c[0]].layer.L3_TaskAgent? {
      PositionFalls(p, tasks, c, |c| - 1);
    }
    forall k, l | 0 <= k < l < |c| && l == k + 1 ensures LeafEdge(p.brief, c[k], c[l]) {
      BlockerKinds(p, tasks, c[k], c[l]);
    }
  }

  lemma WalkPositions(p: Plan, tasks: seq<HmasTask>, q: seq<string>) returns (c: seq<nat>)
    requires IsPlan(p, tasks) && DependencyGraph.IsCycle(BlockerGraph(tasks), q)
    ensures |c| == |q| >= 2 && c[0] == c[|c| - 1] && BlockerWalk(tasks, c)
    ensures forall k :: 0 <= k < |q| ==> tasks[c[k]].id == q[k]
  {
    hide IsPlan, BlockerGraph, PositionOf;
    c := seq(|q|, k requires 0 <= k < |q| => PositionOf(tasks, q[k]));
    forall k | 0 <= k < |q| ensures c[k] < |tasks| && tasks[c[k]].id == q[k] {
      NodeIsTask(p, tasks, q[k]);
    }
    forall k, l | 0 <= k < l < |c| && l == k + 1 ensures tasks[c[l]].id in tasks[c[k]].blockedBy {
      GraphEntry(p, tasks, c[k]);
      assert q[l] in BlockerGraph(tasks)[q[k]];
    }
  }

  lemma NodeIsTask(p: Plan, tasks: seq<HmasTask>, id: string)
    requires IsPlan(p, tasks) && id in BlockerGraph(tasks)
    ensures HasId(tasks, id)
  {
    TaskIdsDistinct(p, tasks);
    GraphEntries(tasks);
  }

  ghost function PositionOf(tasks: seq<HmasTask>, id: string): (i: nat)
    ensures HasId(tasks, id) ==> i < |tasks| && tasks[i].id == id
  {
    if HasId(tasks, id) then
      var i :| 0 <= i < |tasks| && tasks[i].id == id;
      i
    else 0
  }

  /** A plan is free of circles if and only if the implementation edges of its brief are. */
  lemma PlanAcyclicIff(p: Plan, tasks: seq<HmasTask>)
    requires IsPlan(p, tasks)
    ensures DependencyGraph.Acyclic(BlockerGraph(tasks)) <==> forall c :: !LeafCycle(p.brief, c)
  {
    hide IsPlan, LeafCycle, BlockerGraph, DependencyGraph.IsCycle;
    forall q | DependencyGraph.IsCycle(BlockerGraph(tasks), q) ensures exists c :: LeafCycle(p.brief, c) {
      var c := WalkPositions(p, tasks, q);
      CircleIsLeafCycle(p, tasks, c);
    }
    forall c | LeafCycle(p.brief, c) ensures exists q :: DependencyGraph.IsCycle(BlockerGraph(tasks), q) {
      var q := LeafCycleIds(p, tasks, c);
    }
  }

  lemma LeafCycleIds(p: Plan, tasks: seq<HmasTask>, c: seq<nat>) returns (q: seq<string>)
    requires IsPlan(p, tasks) && LeafCycle(p.brief, c)
    ensures DependencyGraph.IsCycle(BlockerGraph(tasks), q)
  {
    hide IsPlan, LeafEdge, BlockerGraph;
    forall k | 0 <= k < |c| ensures c[k] < |tasks| {
      if k + 1 < |c| {
        LeafCycleStep(p, tasks, c, k);
      } else {
        LeafCycleStep(p, tasks, c, k - 1);
      }
    }
    q := IdsAt(tasks, c);
    forall k | 0 <= k < |q| ensures q[k] in BlockerGraph(tasks) {
      GraphEntry(p, tasks, c[k]);
    }
    forall k, l | 0 <= k < l < |q| && l == k + 1 ensures q[l] in BlockerGraph(tasks)[q[k]] {
      GraphEntry(p, tasks, c[k]);
      LeafCycleStep(p, tasks, c, k);
    }
  }

  ghost function IdsAt(tasks: seq<HmasTask>, c: seq<nat>): (q: seq<string>)
    requires forall k :: 0 <= k < |c| ==> c[k] < |tasks|
    ensures |q| == |c| && forall k :: 0 <= k < |c| ==> q[k] == tasks[c[k]].id
  {
    seq(|c|, k requires 0 <= k < |c| => tasks[c[k]].id)
  }

  lemma GraphEntry(p: Plan, tasks: seq<HmasTask>, i: nat)
    requires IsPlan(p, tasks) && i < |tasks|
    ensures tasks[i].id in BlockerGraph(tasks) && BlockerGraph(tasks)[tasks[i].id] == tasks[i].blockedBy
  {
    TaskIdsDistinct(p, tasks);
    GraphEntries(tasks);
  }

  lemma LeafCycleStep(p: Plan, tasks: seq<HmasTask>, c: seq<nat>, k: nat)
    requires IsPlan(p, tasks) && LeafCycle(p.brief, c) && k + 1 < |c|
    ensures c[k] < |tasks| && c[k + 1] < |tasks| && tasks[c[k + 1]].id in tasks[c[k]].blockedBy
  {
    hide IsPlan, LeafEdge;
    LeafEdgeBlocks(p, tasks, c[k], c[k + 1]);
  }

  /** In particular there is no circle if every annotation points to an earlier task. */
  lemma PlanIsAcyclic(p: Plan, tasks: seq<HmasTask>)
    requires IsPlan(p, tasks) && AnnotationsPointBack(p)
    ensures DependencyGraph.Acyclic(BlockerGraph(tasks))
  {
    hide IsPlan, AnnotationsPointBack, LeafEdge;
    forall c | LeafCycle(p.brief, c) ensures false {
      LeafWalkFalls(p, tasks, c, |c| - 1);
    }
    PlanAcyclicIff(p, tasks);
  }

  lemma {:induction false} LeafWalkFalls(p: Plan, tasks: seq<HmasTask>, c: seq<nat>, l: nat)
    requires IsPlan(p, tasks) && AnnotationsPointBack(p) && LeafCycle(p.brief, c) && l < |c|
    ensures l > 0 ==> c[l] < c[0]
  {
    hide IsPlan, AnnotationsPointBack, LeafEdge;
    if l > 0 {
      LeafWalkFalls(p, tasks, c, l - 1);
      LeafCycleStep(p, tasks, c, l - 1);
      BlockersComeEarlier(p, tasks, c[l - 1], c[l]);
    }
  }

  // ------------------------------------------------------- plans and examples

  /** The post-pass can always be carried out. */
  lemma {:induction false} WiringExists(ts: seq<HmasTask>, cur: seq<HmasTask>, i: nat, d: nat) returns (out: seq<HmasTask>)
    requires i <= |ts| && WiredUpTo(ts, cur, i, d) && d <= if i < |ts| then |Annotated(ts[i])| else 0
    ensures Wired(ts, out)
    decreases |ts| - i, if i < |ts| then |Annotated(ts[i])| - d else 0
  {
    hide WiredUpTo, Annotated, Resolves;
    if i == |ts| {
      out := cur;
    } else if d == |Annotated(ts[i])| {
      NextTask(ts, cur, i);
      out := WiringExists(ts, cur, i + 1, 0);
    } else if exists b: nat :: Resolves(ts, i, d, b) {
      var b: nat :| Resolves(ts, i, d, b);
      WiredLength(ts, cur, i, d, b);
      ResolvedStep(ts, cur, i, d, b);
      out := WiringExists(ts, WithEdge(cur, i, b), i, d + 1);
    } else {
      UnresolvedStep(ts, cur, i, d);
      out := WiringExists(ts, cur, i, d + 1);
    }
  }

  lemma WiredLength(ts: seq<HmasTask>, cur: seq<HmasTask>, i: nat, d: nat, b: nat)
    requires WiredUpTo(ts, cur, i, d) && Resolves(ts, i, d, b)
    ensures i < |cur| && b < |cur| && i != b
  {
  }

  lemma PlanExists(p: Plan) returns (tasks: seq<HmasTask>)
    requires EnoughIds(p) && Parseable(Skeleton(p.brief))
    ensures IsPlan(p, tasks)
  {
    hide EnoughIds, FirstPass, WiredUpTo;
    NothingDone(FirstPass(p));
    tasks := WiringExists(FirstPass(p), FirstPass(p), 0, 0);
  }

  /** One repo, one module, two issues: #1 depends on #2 and #2 depends on #1. */
  const MUTUAL := TaskBrief("b", "t", "d", ["r"], map["r" := ["m"]],
                            map["r" := map["m" := [Rendered(1, Some([2])), Rendered(2, Some([1]))]]])

  lemma MutualNodes()
    ensures
      var nodes := Skeleton(MUTUAL);
      && |nodes| == 5
      && (forall k :: 0 <= k < 3 ==> !nodes[k].layer.L3_TaskAgent?)
      && nodes[3].layer.L3_TaskAgent? && nodes[3].text == Rendered(1, Some([2]))
      && nodes[4].layer.L3_TaskAgent? && nodes[4].text == Rendered(2, Some([1]))
  {
    hide Rendered, Parsed;
    var impls := [Rendered(1, Some([2])), Rendered(2, Some([1]))];
    assert ModulesOf(MUTUAL, "r") == ["m"] && ImplsOf(MUTUAL, "r", "m") == impls;
    var b1 := AddRepos(MUTUAL, 0) + [Node(L1_ComponentLead, "r", "", "", 0, None)];
    assert AddModules(b1, MUTUAL, "r", 1, 0) == b1;
    var b2 := b1 + [Node(L2_ModuleLead, "r", "m", "", 1, None)];
    assert AddModules(b1, MUTUAL, "r", 1, 1) == AddImpls(b2, "r", "m", impls, 2, 2);
    assert AddImpls(b2, "r", "m", impls, 2, 0) == b2;
    var b3 := AddImpls(b2, "r", "m", impls, 2, 1);
    assert |b3| == 4 && b3[..3] == b2;
    assert Skeleton(MUTUAL) == AddImpls(b2, "r", "m", impls, 2, 2);
    assert Skeleton(MUTUAL)[..4] == b3;
  }

  /** Two implementation nodes annotated with each other's issue go in a circle. */
  lemma MutualLeafCycle(brief: TaskBrief, nodes: seq<Node>)
    requires nodes == Skeleton(brief) && |nodes| == 5
    requires forall k :: 0 <= k < 3 ==> !nodes[k].layer.L3_TaskAgent?
    requires nodes[3].layer.L3_TaskAgent? && IssueOf(nodes[3]) == 1 && NodeDeps(nodes[3]) == [2]
    requires nodes[4].layer.L3_TaskAgent? && IssueOf(nodes[4]) == 2 && NodeDeps(nodes[4]) == [1]
    ensures LeafCycle(brief, [3, 4, 3])
  {
    hide Skeleton, IssueOf, NodeDeps;
    assert NodeEdge(nodes, 3, 4) && NodeEdge(nodes, 4, 3);
    assert LeafEdge(brief, 3, 4) && LeafEdge(brief, 4, 3);
    hide LeafEdge;
  }

  lemma ReadBack(n: Node, issue: nat, dep: nat)
    requires n.layer.L3_TaskAgent? && n.text == Rendered(issue, Some([dep]))
    requires 0 < issue < 1000 && dep < 1000
    ensures Parsed(n.text).Ok? && IssueOf(n) == issue && NodeDeps(n) == [dep]
  {
    hide Rendered, Parsed;
    ParseUndoesRender(issue, Some([dep]));
  }

  const MUTUAL_PLAN := Plan(MUTUAL, ["0", "1", "2", "3", "4"], "now")

  lemma MutualSupply()
    ensures MUTUAL_PLAN.brief == MUTUAL && EnoughIds(MUTUAL_PLAN)
  {
    hide MUTUAL;
    MutualNodes();
    SkeletonShape(MUTUAL);
    hide Skeleton, PlanSize, WellFormed, Rendered;
  }

  /** That brief is accepted, and its plan goes in a circle. */
  lemma MutualBriefGoesInCircles() returns (tasks: seq<HmasTask>)
    ensures IsPlan(MUTUAL_PLAN, tasks) && !DependencyGraph.Acyclic(BlockerGraph(tasks))
    ensures Parseable(Skeleton(MUTUAL_PLAN.brief))
  {
    hide MUTUAL, MUTUAL_PLAN, Rendered, Parsed, Skeleton, IssueOf, NodeDeps, IsPlan, EnoughIds, LeafCycle, BlockerGraph;
    MutualSupply();
    MutualNodes();
    var nodes := Skeleton(MUTUAL);
    ReadBack(nodes[3], 1, 2);
    ReadBack(nodes[4], 2, 1);
    MutualLeafCycle(MUTUAL, nodes);
    assert Parseable(nodes);
    tasks := PlanExists(MUTUAL_PLAN);
    PlanAcyclicIff(MUTUAL_PLAN, tasks);
  }
}
