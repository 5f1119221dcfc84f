/** The links of a plan, read off its tasks alone: who waits for whom, and who lists whom. */
module PlanLinks {
  import opened Common
  import opened HmasTypes
  import opened ImplRefs
  import opened PlanSkeleton
  import opened Planning
  import opened PlanWiring
  import opened Breakdown
  import opened PlanContents

  // ------------------------------------------------------------ chained nodes

  ghost predicate HasElder(nodes: seq<Node>, i: nat)
    requires i < |nodes|
  {
    exists j :: 0 <= j < i && Siblings(nodes[j], nodes[i])
  }

  /** Module leads, and implementations without explicit dependencies, queue behind an elder sibling. */
  ghost predicate Queues(n: Node) {
    n.layer == L2_ModuleLead || (n.layer == L3_TaskAgent && Parsed(n.text).Ok? && !Parsed(n.text).value.hasExplicitDeps)
  }

  ghost predicate QueuedRight(nodes: seq<Node>) {
    forall i :: 0 <= i < |nodes| ==> (nodes[i].prev.Some? <==> Queues(nodes[i]) && HasElder(nodes, i))
  }

  lemma QueueGrows(nodes: seq<Node>, node: Node)
    requires QueuedRight(nodes)
    requires node.prev.Some? <==> Queues(node) && exists j :: 0 <= j < |nodes| && Siblings(nodes[j], node)
    ensures QueuedRight(nodes + [node])
  {
    hide Queues;
    var more := nodes + [node];
    forall i | 0 <= i < |more| ensures more[i].prev.Some? <==> Queues(more[i]) && HasElder(more, i) {
      assert forall j :: 0 <= j < |nodes| ==> more[j] == nodes[j];
      if i < |nodes| {
        assert HasElder(more, i) <==> HasElder(nodes, i);
      }
    }
  }

  /** Nobody hangs under the last node yet. */
  lemma LastIsChildless(nodes: seq<Node>, node: Node)
    requires WellFormed(nodes) && node.parent + 1 == |nodes| && !node.layer.L0_ChiefArchitect?
    ensures forall j :: 0 <= j < |nodes| ==> !Siblings(nodes[j], node)
  {
    forall j | 0 <= j < |nodes| ensures !Siblings(nodes[j], node) {
      assert j > 0 ==> Fits(nodes[..j], nodes[j]);
    }
  }

  lemma ImplAdded(base: seq<Node>, repo: string, mod: string, impls: seq<string>, l2: nat, n: nat)
    requires 0 < n <= |impls| && base != [] && |AddImpls(base, repo, mod, impls, l2, n - 1)| > 0
    ensures
      var b := AddImpls(base, repo, mod, impls, l2, n - 1);
      var prev := if n > 1 && Chained(impls[n - 1]) then Some(|b| - 1) else None;
      AddImpls(base, repo, mod, impls, l2, n) == b + [Node(L3_TaskAgent, repo, mod, impls[n - 1], l2, prev)]
    ensures AddImpls(base, repo, mod, impls, l2, 0) == base
  {
    hide Chained;
  }

  lemma ImplQueued(node: Node)
    requires node.layer == L3_TaskAgent
    ensures Queues(node) <==> Chained(node.text)
  {
    hide Parsed;
  }

  lemma {:induction false} ImplQueues(base: seq<Node>, repo: string, mod: string, impls: seq<string>, l2: nat, n: nat)
    requires n <= |impls| && l2 + 1 == |base| && WellFormed(base) && base[l2].layer.L2_ModuleLead? && QueuedRight(base)
    ensures QueuedRight(AddImpls(base, repo, mod, impls, l2, n))
  {
    hide WellFormed, QueuedRight, Queues, Chained;
    if n > 0 {
      ImplQueues(base, repo, mod, impls, l2, n - 1);
      hide AddImpls;
      ImplsAdded(base, repo, mod, impls, l2, n - 1);
      ImplAdded(base, repo, mod, impls, l2, n);
      var b := AddImpls(base, repo, mod, impls, l2, n - 1);
      var node := Node(L3_TaskAgent, repo, mod, impls[n - 1], l2, if n > 1 && Chained(impls[n - 1]) then Some(|b| - 1) else None);
      ImplQueued(node);
      if n > 1 {
        assert Siblings(b[|b| - 1], node);
      } else {
        LastIsChildless(base, node);
      }
      QueueGrows(b, node);
    }
  }

  lemma {:induction false} ModuleQueues(base: seq<Node>, brief: TaskBrief, repo: string, l1: nat, n: nat)
    requires n <= |ModulesOf(brief, repo)| && l1 + 1 == |base| && WellFormed(base) && base[l1].layer.L1_ComponentLead?
    requires QueuedRight(base)
    ensures QueuedRight(AddModules(base, brief, repo, l1, n))
  {
    hide WellFormed, QueuedRight, AddImpls, ImplsOf, ModulesOf;
    if n > 0 {
      ModuleQueues(base, brief, repo, l1, n - 1);
      ModulesAdded(base, brief, repo, l1, n - 1);
      var b := AddModules(base, brief, repo, l1, n - 1);
      var mod := ModulesOf(brief, repo)[n - 1];
      var prev := if n > 1 then Some(|AddModules(base, brief, repo, l1, n - 2)|) else None;
      var lead := Node(L2_ModuleLead, repo, mod, "", l1, prev);
      if n > 1 {
        assert Siblings(b[prev.value], lead);
      } else {
        LastIsChildless(base, lead);
      }
      QueueGrows(b, lead);
      LeadFits(base, brief, repo, l1, n, lead);
      var impls := ImplsOf(brief, repo, mod);
      ImplQueues(b + [lead], repo, mod, impls, |b|, |impls|);
    }
  }

  lemma LeadFits(base: seq<Node>, brief: TaskBrief, repo: string, l1: nat, n: nat, lead: Node)
    requires 0 < n <= |ModulesOf(brief, repo)| && l1 + 1 == |base| && WellFormed(base) && base[l1].layer.L1_ComponentLead?
    requires lead == Node(L2_ModuleLead, repo, ModulesOf(brief, repo)[n - 1], "", l1,
                          if n > 1 then Some(|AddModules(base, brief, repo, l1, n - 2)|) else None)
    ensures WellFormed(AddModules(base, brief, repo, l1, n - 1) + [lead])
  {
    hide WellFormed, AddImpls, ImplsOf, ModulesOf;
    ModulesAdded(base, brief, repo, l1, n - 1);
    var b := AddModules(base, brief, repo, l1, n - 1);
    assert b[l1] == base[l1];
    WellFormedGrows(b, lead);
  }

  lemma {:induction false} RepoQueues(brief: TaskBrief, n: nat)
    requires n <= |brief.repos|
    ensures QueuedRight(AddRepos(brief, n))
  {
    if n > 0 {
      RepoQueues(brief, n - 1);
      ReposAdded(brief, n - 1);
      var b, repo := AddRepos(brief, n - 1), brief.repos[n - 1];
      assert b[0] == ROOT;
      hide WellFormed, QueuedRight, ModulesOf, AddModules;
      var lead := Node(L1_ComponentLead, repo, "", "", 0, None);
      WellFormedGrows(b, lead);
      QueueGrows(b, lead);
      ModuleQueues(b + [lead], brief, repo, |b|, |ModulesOf(brief, repo)|);
    }
  }

  // ----------------------------------------------------------------- the tasks

  /** Task b is the nearest one before a with the same parent. */
  ghost predicate ElderSibling(tasks: seq<HmasTask>, a: nat, b: nat) {
    && b < a < |tasks| && tasks[b].parentTaskId == tasks[a].parentTaskId
    && forall c :: b < c < a ==> tasks[c].parentTaskId != tasks[a].parentTaskId
  }

  ghost predicate WaitsItsTurn(t: HmasTask) {
    || t.layer == L2_ModuleLead
    || (t.layer == L3_TaskAgent && Parsed(t.subject).Ok? && !Parsed(t.subject).value.hasExplicitDeps)
  }

  /** The subject of a names the issue of b, and no earlier task has that issue. */
  ghost predicate DependsOn(tasks: seq<HmasTask>, a: nat, b: nat) {
    && a < |tasks| && b < |tasks| && a != b
    && tasks[a].layer == L3_TaskAgent && tasks[a].issue != 0 && Parsed(tasks[a].subject).Ok?
    && tasks[b].layer == L3_TaskAgent && tasks[b].issue != 0
    && tasks[b].issue in Parsed(tasks[a].subject).value.dependsOn
    && forall c :: 0 <= c < b && tasks[c].layer == L3_TaskAgent ==> tasks[c].issue != tasks[b].issue
  }

  lemma SameSiblings(p: Plan, tasks: seq<HmasTask>, i: nat, j: nat)
    requires IsPlan(p, tasks) && 0 < i < |tasks| == |Skeleton(p.brief)| && j < |tasks|
    ensures tasks[j].parentTaskId == tasks[i].parentTaskId <==> Siblings(Skeleton(p.brief)[j], Skeleton(p.brief)[i])
  {
    Supply(p, tasks);
    hide IsPlan, Skeleton, Subject, Description, IssueOf, EnoughIds, WellFormed;
    TaskOfNode(p, tasks, i);
    TaskOfNode(p, tasks, j);
    DistinctSupply(p);
    NodesBound(p, Skeleton(p.brief), i);
    NodesBound(p, Skeleton(p.brief), j);
    SuppliedIdsNotEmpty(p, Skeleton(p.brief)[i].parent);
  }

  lemma Supply(p: Plan, tasks: seq<HmasTask>)
    requires IsPlan(p, tasks)
    ensures EnoughIds(p) && Sized(p, Skeleton(p.brief))
  {
    SkeletonShape(p.brief);
  }

  lemma ChainIsElder(p: Plan, tasks: seq<HmasTask>, a: nat, b: nat)
    requires IsPlan(p, tasks) && a < |tasks| == |Skeleton(p.brief)| && b < |tasks|
    ensures ChainedBehind(p, a, b) <==> a > 0 && WaitsItsTurn(tasks[a]) && ElderSibling(tasks, a, b)
  {
    if a > 0 {
      RepoQueues(p.brief, |p.brief.repos|);
      SkeletonShape(p.brief);
      var nodes := Skeleton(p.brief);
      assert Fits(nodes[..a], nodes[a]);
      TaskOfNode(p, tasks, a);
      forall j | 0 <= j < a
        ensures tasks[j].parentTaskId == tasks[a].parentTaskId <==> Siblings(nodes[j], nodes[a])
      {
        SameSiblings(p, tasks, a, j);
      }
      assert WaitsItsTurn(tasks[a]) <==> Queues(nodes[a]);
      hide IsPlan, Skeleton, AddRepos, WaitsItsTurn, Queues, Subject, Description, IssueOf, WellFormed, Siblings;
      NearestIsPrev(nodes, a, b);
    }
  }

  ghost predicate NearestNode(nodes: seq<Node>, a: nat, b: nat) {
    && b < a < |nodes| && Siblings(nodes[b], nodes[a])
    && forall c :: b < c < a ==> !Siblings(nodes[c], nodes[a])
  }

  lemma NearestIsPrev(nodes: seq<Node>, a: nat, b: nat)
    requires 0 < a < |nodes| && b < |nodes| && QueuedRight(nodes) && Fits(nodes[..a], nodes[a])
    ensures nodes[a].prev == Some(b) <==> Queues(nodes[a]) && NearestNode(nodes, a, b)
  {
    hide Queues;
    var before := nodes[..a];
    assert forall j :: 0 <= j < a ==> before[j] == nodes[j];
  }

  lemma EdgeMeans(ts: seq<HmasTask>, out: seq<HmasTask>, a: nat, b: nat)
    requires Wired(ts, out) && a < |ts| && b < |ts|
    ensures Edge(ts, a, b) <==> DependsOn(out, a, b)
  {
    hide Parsed, NewBlocker, NewChild, Extends;
    forall c | 0 <= c < |ts|
      ensures out[c].layer == ts[c].layer && out[c].issue == ts[c].issue && out[c].subject == ts[c].subject
    {
      assert WiredTask(ts, out[c], c, |ts|, 0);
    }
    hide WiredTask;
    if Edge(ts, a, b) {
      var d: nat :| d < |Annotated(ts[a])| && Resolves(ts, a, d, b);
      assert DependsOn(out, a, b);
    }
    if DependsOn(out, a, b) {
      var deps := Annotated(ts[a]);
      var d: nat :| d < |deps| && deps[d] == out[b].issue;
      assert IsFirst(ts, deps[d], b);
      assert Resolves(ts, a, d, b);
    }
  }

  /**
   A task waits for its parent, for the sibling before it if it waits its turn, and for the tasks
   its text depends on; its parent and those tasks list it as a child; and there are no other links.
   */
  lemma LinksAsListed(p: Plan, tasks: seq<HmasTask>, a: nat, b: nat)
    requires IsPlan(p, tasks) && a < |tasks| && b < |tasks|
    ensures tasks[b].id in tasks[a].blockedBy <==>
      || tasks[a].parentTaskId == tasks[b].id
      || (a > 0 && WaitsItsTurn(tasks[a]) && ElderSibling(tasks, a, b))
      || DependsOn(tasks, a, b)
    ensures tasks[a].id in tasks[b].childTaskIds <==> tasks[a].parentTaskId == tasks[b].id || DependsOn(tasks, a, b)
  {
    TaskOfNode(p, tasks, b);
    EdgeMeans(FirstPass(p), tasks, a, b);
    hide IsPlan, Skeleton, Subject, Description, IssueOf, Fresh, FirstPass, Edge, DependsOn, WaitsItsTurn, ElderSibling, ChainedBehind;
    PlanBasics(p, tasks);
    BlockersExactly(p, tasks, a, b);
    ChildrenExactly(p, tasks, a, b);
    ChainIsElder(p, tasks, a, b);
    SameChild(p, tasks, b, a);
  }
}
