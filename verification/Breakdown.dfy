/** The complete breakdown of a brief, and what its links mean. */
module Breakdown {
  import opened Common
  import opened HmasTypes
  import opened ImplRefs
  import opened PlanSkeleton
  import opened Planning
  import opened PlanWiring
  import DependencyGraph

  ghost function FirstPass(p: Plan): (ts: seq<HmasTask>)
    requires EnoughIds(p)
    ensures |ts| == |Skeleton(p.brief)| && Sized(p, Skeleton(p.brief))
    ensures forall i :: 0 <= i < |ts| ==> ts[i] == TaskAt(p, Skeleton(p.brief), i)
  {
    SkeletonShape(p.brief);
    seq(|Skeleton(p.brief)|, i requires 0 <= i < |Skeleton(p.brief)| => TaskAt(p, Skeleton(p.brief), i))
  }

  /** A list of tasks that is the plan of a brief. */
  ghost predicate IsPlan(p: Plan, tasks: seq<HmasTask>) {
    EnoughIds(p) && Parseable(Skeleton(p.brief)) && Wired(FirstPass(p), tasks)
  }

  // ------------------------------------------------------------- structure

  /** What every task of a plan starts with. */
  ghost predicate Fresh(p: Plan, t: HmasTask) {
    && t.briefId == p.brief.id && t.createdAt == p.createdAt
    && t.state == Pending && t.completedAt == "" && t.escalations == [] && t.assignedLeadId == ""
  }

  lemma FirstTask(p: Plan, i: nat)
    requires EnoughIds(p) && i < |Skeleton(p.brief)|
    ensures
      var nodes := Skeleton(p.brief);
      var t := FirstPass(p)[i];
      && |nodes| <= |p.ids|
      && Fresh(p, t) && t.id == p.ids[i] && t.layer == nodes[i].layer
      && Bound(p, nodes[i])
      && t.blockedBy == Blockers(p, nodes[i])
      && t.childTaskIds == ChildIds(p, nodes, i, |nodes|)
      && t.parentTaskId == (if i == 0 then "" else p.ids[nodes[i].parent])
      && (t.layer.L3_TaskAgent? ==> t.subject == nodes[i].text)
      && (nodes[i].layer.L0_ChiefArchitect? <==> i == 0)
  {
    hide Skeleton, FirstPass, WellFormed, Blockers, ChildIds, TaskAt, Fresh;
    var ts := FirstPass(p);
    TaskFields(p, Skeleton(p.brief), i);
  }

  lemma TaskFields(p: Plan, nodes: seq<Node>, i: nat)
    requires Sized(p, nodes) && i < |nodes|
    ensures
      var t := TaskAt(p, nodes, i);
      && Fresh(p, t) && t.id == p.ids[i] && t.layer == nodes[i].layer
      && Bound(p, nodes[i])
      && t.blockedBy == Blockers(p, nodes[i])
      && t.childTaskIds == ChildIds(p, nodes, i, |nodes|)
      && t.parentTaskId == (if i == 0 then "" else p.ids[nodes[i].parent])
      && (t.layer.L3_TaskAgent? ==> t.subject == nodes[i].text)
      && (nodes[i].layer.L0_ChiefArchitect? <==> i == 0)
  {
    hide WellFormed, Blockers, ChildIds, Description, IssueOf;
    NodesBound(p, nodes, i);
  }

  lemma DistinctSupply(p: Plan)
    requires EnoughIds(p)
    ensures Distinct(p.ids)
  {
  }

  lemma FirstPassReady(p: Plan)
    requires EnoughIds(p)
    ensures DistinctTaskIds(FirstPass(p))
    ensures Parseable(Skeleton(p.brief)) ==> SubjectsParse(FirstPass(p))
  {
    hide Skeleton, EnoughIds, FirstPass, Parsed, Bound, Blockers, ChildIds;
    var ts := FirstPass(p);
    DistinctSupply(p);
    forall i | 0 <= i < |ts|
      ensures ts[i].id == p.ids[i] && i < |p.ids|
      ensures ts[i].layer.L3_TaskAgent? && Parseable(Skeleton(p.brief)) ==> Parsed(ts[i].subject).Ok?
    {
      FirstTask(p, i);
    }
  }

  /**
   decompose: fails exactly when some issue number does not fit in int; otherwise returns the
   plan of the brief.
   */
  method Decompose(p: Plan) returns (r: Result<seq<HmasTask>, ParseError>)
    requires EnoughIds(p)
    ensures r.Ok? <==> Parseable(Skeleton(p.brief))
    ensures r.Ok? ==> IsPlan(p, r.value)
  {
    var first := AddL1(p);
    if first.Err? {
      return Err(first.error);
    }
    FirstPassReady(p);
    assert first.value == FirstPass(p);
    var tasks := WireDependencies(first.value);
    r := Ok(tasks);
  }

  lemma PlanTask(p: Plan, tasks: seq<HmasTask>, i: nat)
    requires IsPlan(p, tasks) && i < |tasks|
    ensures |tasks| == |Skeleton(p.brief)| && WiredTask(FirstPass(p), tasks[i], i, |tasks|, 0)
  {
  }

  /** The length of a plan, and its ids in order: each task fresh, the first one the root. */
  lemma PlanBasics(p: Plan, tasks: seq<HmasTask>)
    requires IsPlan(p, tasks)
    ensures |tasks| == PlanSize(p.brief) <= |p.ids|
    ensures forall i :: 0 <= i < |tasks| ==> tasks[i].id == p.ids[i] && Fresh(p, tasks[i])
    ensures forall i :: 0 <= i < |tasks| ==> (tasks[i].layer.L0_ChiefArchitect? <==> i == 0)
    ensures forall i :: 0 <= i < |tasks| ==> tasks[i].layer == Skeleton(p.brief)[i].layer
  {
    SkeletonShape(p.brief);
    forall i | 0 <= i < |tasks|
      ensures tasks[i].id == p.ids[i] && Fresh(p, tasks[i])
      ensures tasks[i].layer.L0_ChiefArchitect? <==> i == 0
      ensures tasks[i].layer == Skeleton(p.brief)[i].layer
    {
      PlanTask(p, tasks, i);
      FirstTask(p, i);
    }
  }

  lemma {:induction false} ChildIdsMembers(p: Plan, nodes: seq<Node>, i: nat, n: nat)
    requires n <= |nodes| <= |p.ids| && Distinct(p.ids)
    ensures forall a :: 0 <= a < |nodes| ==> (p.ids[a] in ChildIds(p, nodes, i, n) <==> a < n && IsChild(nodes[a], i))
    ensures forall x :: x in ChildIds(p, nodes, i, n) ==> exists a :: 0 <= a < n && p.ids[a] == x
    ensures Distinct(ChildIds(p, nodes, i, n))
  {
    if n > 0 {
      ChildIdsMembers(p, nodes, i, n - 1);
      var before := ChildIds(p, nodes, i, n - 1);
      assert p.ids[n - 1] !in before;
    }
  }

  ghost predicate ParentOf(p: Plan, a: nat, b: nat) {
    var nodes := Skeleton(p.brief);
    a < |nodes| && IsChild(nodes[a], b)
  }

  ghost predicate ChainedBehind(p: Plan, a: nat, b: nat) {
    var nodes := Skeleton(p.brief);
    0 < a < |nodes| && nodes[a].prev == Some(b)
  }

  ghost predicate AnnotatedEdge(p: Plan, a: nat, b: nat)
    requires EnoughIds(p)
  {
    Edge(FirstPass(p), a, b)
  }

  /**
   The exact link structure: a task is blocked by its parent, by the sibling it is chained
   behind and by what its annotation resolves to, and by nothing else.
   */
  lemma BlockersExactly(p: Plan, tasks: seq<HmasTask>, a: nat, b: nat)
    requires IsPlan(p, tasks) && a < |tasks| && b < |tasks|
    ensures |tasks| <= |p.ids|
    ensures p.ids[b] in tasks[a].blockedBy <==> ParentOf(p, a, b) || ChainedBehind(p, a, b) || AnnotatedEdge(p, a, b)
  {
    PlanBasics(p, tasks);
    PlanTask(p, tasks, a);
    hide IsPlan, EnoughIds, Skeleton, FirstPass, Extends, NewBlocker, NewChild, Blockers, ParentOf, ChainedBehind, ChildIds, Edge, Fresh;
    FirstTask(p, a);
    FirstBlockers(p, a, b);
    EdgeById(p, a, b);
  }

  lemma FirstBlockers(p: Plan, a: nat, b: nat)
    requires EnoughIds(p) && a < |Skeleton(p.brief)| <= |p.ids| && b < |p.ids| && Bound(p, Skeleton(p.brief)[a])
    ensures p.ids[b] in Blockers(p, Skeleton(p.brief)[a]) <==> ParentOf(p, a, b) || ChainedBehind(p, a, b)
  {
    hide EnoughIds, Skeleton, FirstPass, ChildIds, Fresh, WellFormed;
    FirstTask(p, a);
    DistinctSupply(p);
    NodesBound(p, Skeleton(p.brief), a);
  }

  lemma EdgeById(p: Plan, a: nat, b: nat)
    requires EnoughIds(p) && a < |FirstPass(p)| && b < |FirstPass(p)| <= |p.ids|
    ensures NewBlocker(FirstPass(p), a, p.ids[b], |FirstPass(p)|, 0) <==> Edge(FirstPass(p), a, b)
    ensures NewChild(FirstPass(p), b, p.ids[a], |FirstPass(p)|, 0) <==> Edge(FirstPass(p), a, b)
  {
    hide Fresh, WellFormed, TaskAt, EnoughIds, FirstPass, Annotated, Skeleton, EdgeBy, Blockers, ChildIds, Bound;
    var first := FirstPass(p);
    forall c: nat | c < |first| ensures c < |p.ids| && first[c].id == p.ids[c] { FirstTask(p, c); }
    DistinctSupply(p);
  }

  /** A task lists as children exactly its tree children and the tasks annotated to depend on it. */
  lemma ChildrenExactly(p: Plan, tasks: seq<HmasTask>, a: nat, b: nat)
    requires IsPlan(p, tasks) && a < |tasks| && b < |tasks|
    ensures |tasks| <= |p.ids|
    ensures p.ids[a] in tasks[b].childTaskIds <==> ParentOf(p, a, b) || AnnotatedEdge(p, a, b)
  {
    PlanBasics(p, tasks);
    PlanTask(p, tasks, b);
    hide IsPlan, EnoughIds, Skeleton, FirstPass, Extends, NewBlocker, NewChild, Blockers, ChildIds, Edge, Fresh, Bound;
    FirstTask(p, b);
    DistinctSupply(p);
    ChildIdsMembers(p, Skeleton(p.brief), b, |tasks|);
    EdgeById(p, a, b);
  }

  // -------------------------------------------------------------- theorems

  /** Every blocker and every child of a plan is a task of the same plan, and none is listed twice. */
  lemma LinksStayInside(p: Plan, tasks: seq<HmasTask>, a: nat)
    requires IsPlan(p, tasks) && a < |tasks|
    ensures Distinct(tasks[a].blockedBy) && Distinct(tasks[a].childTaskIds)
    ensures forall x :: x in tasks[a].blockedBy || x in tasks[a].childTaskIds ==>
      exists b :: 0 <= b < |tasks| && tasks[b].id == x
  {
    PlanBasics(p, tasks);
    PlanTask(p, tasks, a);
    FirstTask(p, a);
    FirstDistinct(p, a);
    var first := FirstPass(p);
    forall x | x in tasks[a].blockedBy || x in tasks[a].childTaskIds
      ensures exists b :: 0 <= b < |tasks| && tasks[b].id == x
    {
      var b := SomePosition(p, a, x, |tasks|);
      assert tasks[b].id == x;
    }
  }

  lemma FirstDistinct(p: Plan, a: nat)
    requires EnoughIds(p) && a < |Skeleton(p.brief)|
    ensures Distinct(FirstPass(p)[a].blockedBy) && Distinct(FirstPass(p)[a].childTaskIds)
  {
    hide Skeleton, FirstPass, WellFormed, ChildIds;
    FirstTask(p, a);
    NodesBound(p, Skeleton(p.brief), a);
    ChildIdsMembers(p, Skeleton(p.brief), a, |Skeleton(p.brief)|);
  }

  lemma SomePosition(p: Plan, a: nat, x: string, n: nat) returns (b: nat)
    requires EnoughIds(p) && a < n == |FirstPass(p)|
    requires
      var first := FirstPass(p);
      || x in first[a].blockedBy || x in first[a].childTaskIds
      || NewBlocker(first, a, x, n, 0) || NewChild(first, a, x, n, 0)
    ensures b < n <= |p.ids| && p.ids[b] == x
  {
    hide Skeleton, FirstPass, WellFormed, ChildIds, EdgeBy, EnoughIds, Fresh;
    var first := FirstPass(p);
    FirstTask(p, a);
    if NewBlocker(first, a, x, n, 0) {
      b :| EdgeBy(first, a, b, Done(first, a, n, 0)) && b < |first| && first[b].id == x;
      FirstTask(p, b);
    } else if NewChild(first, a, x, n, 0) {
      b :| b < |first| && EdgeBy(first, b, a, Done(first, b, n, 0)) && first[b].id == x;
      FirstTask(p, b);
    } else if x in first[a].blockedBy {
      NodesBound(p, Skeleton(p.brief), a);
      var node := Skeleton(p.brief)[a];
      b := if x == p.ids[node.parent] then node.parent else node.prev.value;
    } else {
      DistinctSupply(p);
      ChildIdsMembers(p, Skeleton(p.brief), a, n);
      b :| 0 <= b < n && p.ids[b] == x;
    }
  }

  /**
   The tree: the parent of a task comes earlier, is one layer up, blocks it and lists it as a
   child exactly once.
   */
  lemma ParentLinks(p: Plan, tasks: seq<HmasTask>, a: nat) returns (q: nat)
    requires IsPlan(p, tasks) && 0 < a < |tasks|
    ensures q < a && tasks[a].parentTaskId == tasks[q].id
    ensures tasks[q].layer == Up(tasks[a].layer)
    ensures tasks[q].id in tasks[a].blockedBy
    ensures multiset(tasks[q].childTaskIds)[tasks[a].id] == 1
  {
    PlanBasics(p, tasks);
    PlanTask(p, tasks, a);
    FirstTask(p, a);
    NodesBound(p, Skeleton(p.brief), a);
    q := Skeleton(p.brief)[a].parent;
    hide IsPlan, EnoughIds, Skeleton, FirstPass, Blockers, ChildIds, Fresh, Bound, WellFormed, Extends, NewBlocker, NewChild;
    BlockersExactly(p, tasks, a, q);
    ChildrenExactly(p, tasks, a, q);
    LinksStayInside(p, tasks, q);
    OccursOnce(tasks[q].childTaskIds, tasks[a].id);
  }

  lemma {:induction false} OccursOnce(s: seq<string>, x: string)
    requires Distinct(s)
    ensures multiset(s)[x] == if x in s then 1 else 0
  {
    if s != [] {
      var n := |s| - 1;
      OccursOnce(s[..n], x);
      assert s == s[..n] + [s[n]];
    }
  }

  /** Whoever is listed as a child lists the lister as a blocker: kept by both passes. */
  lemma ChildrenAreBlocked(p: Plan, tasks: seq<HmasTask>, b: nat, x: string) returns (a: nat)
    requires IsPlan(p, tasks) && b < |tasks| && x in tasks[b].childTaskIds
    ensures a < |tasks| && tasks[a].id == x && tasks[b].id in tasks[a].blockedBy
  {
    hide IsPlan, Fresh;
    PlanBasics(p, tasks);
    LinksStayInside(p, tasks, b);
    a :| 0 <= a < |tasks| && tasks[a].id == x;
    ChildrenExactly(p, tasks, a, b);
    BlockersExactly(p, tasks, a, b);
  }

  /** A blocker without a child link is the sibling the task is chained behind, and only that. */
  lemma UnlinkedBlockerIsChain(p: Plan, tasks: seq<HmasTask>, a: nat, b: nat)
    requires IsPlan(p, tasks) && a < |tasks| && b < |tasks|
    requires tasks[b].id in tasks[a].blockedBy && tasks[a].id !in tasks[b].childTaskIds
    ensures ChainedBehind(p, a, b) && b < a && tasks[b].parentTaskId == tasks[a].parentTaskId
  {
    PlanBasics(p, tasks);
    ChildrenExactly(p, tasks, a, b);
    BlockersExactly(p, tasks, a, b);
    PlanTask(p, tasks, a);
    PlanTask(p, tasks, b);
    FirstTask(p, a);
    FirstTask(p, b);
    hide IsPlan, Skeleton, FirstPass, WellFormed, Blockers, ChildIds, EnoughIds, NewBlocker, NewChild, Extends, Edge;
    NodesBound(p, Skeleton(p.brief), a);
  }

  // -------------------------------------------------------------- acyclicity

  ghost function BlockerGraph(tasks: seq<HmasTask>): DependencyGraph.Graph {
    if tasks == [] then map[]
    else
      var last := tasks[|tasks| - 1];
      BlockerGraph(tasks[..|tasks| - 1])[last.id := last.blockedBy]
  }

  lemma {:induction false} GraphEntries(tasks: seq<HmasTask>)
    requires DistinctTaskIds(tasks)
    ensures forall n :: n in BlockerGraph(tasks) <==> exists i :: 0 <= i < |tasks| && tasks[i].id == n
    ensures forall i :: 0 <= i < |tasks| ==> tasks[i].id in BlockerGraph(tasks) && BlockerGraph(tasks)[tasks[i].id] == tasks[i].blockedBy
  {
    if tasks != [] {
      var shorter := tasks[..|tasks| - 1];
      GraphEntries(shorter);
      assert forall i :: 0 <= i < |shorter| ==> shorter[i] == tasks[i];
    }
  }

  /** Every annotation of the plan points to an earlier task. */
  ghost predicate AnnotationsPointBack(p: Plan)
    requires EnoughIds(p)
  {
    forall a: nat, b: nat :: AnnotatedEdge(p, a, b) ==> b < a
  }

  /** Then every blocker comes strictly earlier in the list. */
  lemma BlockersComeEarlier(p: Plan, tasks: seq<HmasTask>, a: nat, b: nat)
    requires IsPlan(p, tasks) && AnnotationsPointBack(p)
    requires a < |tasks| && b < |tasks| && tasks[b].id in tasks[a].blockedBy
    ensures b < a
  {
    PlanBasics(p, tasks);
    BlockersExactly(p, tasks, a, b);
    FirstTask(p, a);
    hide IsPlan, Skeleton, FirstPass, WellFormed, Blockers, ChildIds, Edge, EnoughIds;
    NodesBound(p, Skeleton(p.brief), a);
  }

  /** The root has no parent, no sibling before it and no annotation. */
  lemma RootHasNoEdges(p: Plan, b: nat)
    requires EnoughIds(p)
    ensures !ParentOf(p, 0, b) && !ChainedBehind(p, 0, b) && !AnnotatedEdge(p, 0, b)
  {
    hide EnoughIds, Skeleton, FirstPass, WellFormed, TaskAt;
    if |FirstPass(p)| > 0 {
      FirstTask(p, 0);
      assert Annotated(FirstPass(p)[0]) == [];
    }
  }

  lemma TaskIdsDistinct(p: Plan, tasks: seq<HmasTask>)
    requires IsPlan(p, tasks)
    ensures DistinctTaskIds(tasks)
  {
    PlanBasics(p, tasks);
    DistinctSupply(p);
    hide IsPlan, EnoughIds, Fresh;
  }
}
