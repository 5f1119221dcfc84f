/**
 The shape of a plan: which tasks a brief is broken into, in which order, and which earlier
 task each one hangs under or queues behind.  Positions stand for tasks; identifiers come later.
 */
module PlanSkeleton {
  import opened Common
  import opened HmasTypes
  import opened ImplRefs

  datatype Node = Node(
    layer: Layer,
    repo: string,
    moduleName: string,
    text: string,               // the implementation string of an L3 node
    parent: nat,                // position of the node one layer up
    prev: Option<nat>)          // position of the sibling this node is chained behind

  // --------------------------------------------------------------- the brief

  function ModulesOf(brief: TaskBrief, repo: string): (ms: seq<string>)
    ensures ms != []
  {
    if repo in brief.modules && brief.modules[repo] != [] then brief.modules[repo] else ["core"]
  }

  function ImplsOf(brief: TaskBrief, repo: string, mod: string): (ds: seq<string>)
    ensures ds != []
  {
    if repo in brief.impls && mod in brief.impls[repo] && brief.impls[repo][mod] != []
    then brief.impls[repo][mod]
    else ["Implement " + mod]
  }

  predicate Chained(text: string) {
    Parsed(text).Ok? && !Parsed(text).value.hasExplicitDeps
  }

  const ROOT := Node(L0_ChiefArchitect, "", "", "", 0, None)

  function AddImpls(base: seq<Node>, repo: string, mod: string, impls: seq<string>, l2: nat, n: nat): seq<Node>
    requires n <= |impls|
  {
    if n == 0 then base
    else
      var b := AddImpls(base, repo, mod, impls, l2, n - 1);
      b + [Node(L3_TaskAgent, repo, mod, impls[n - 1], l2,
                if n > 1 && Chained(impls[n - 1]) && b != [] then Some(|b| - 1) else None)]
  }

  function AddModules(base: seq<Node>, brief: TaskBrief, repo: string, l1: nat, n: nat): seq<Node>
    requires n <= |ModulesOf(brief, repo)|
  {
    if n == 0 then base
    else
      var b := AddModules(base, brief, repo, l1, n - 1);
      var mod := ModulesOf(brief, repo)[n - 1];
      var prev := if n > 1 then Some(|AddModules(base, brief, repo, l1, n - 2)|) else None;
      var impls := ImplsOf(brief, repo, mod);
      AddImpls(b + [Node(L2_ModuleLead, repo, mod, "", l1, prev)], repo, mod, impls, |b|, |impls|)
  }

  function AddRepos(brief: TaskBrief, n: nat): seq<Node>
    requires n <= |brief.repos|
  {
    if n == 0 then [ROOT]
    else
      var b := AddRepos(brief, n - 1);
      var repo := brief.repos[n - 1];
      AddModules(b + [Node(L1_ComponentLead, repo, "", "", 0, None)], brief, repo, |b|, |ModulesOf(brief, repo)|)
  }

  /** All nodes of the plan of a brief, in the order their tasks are created. */
  function Skeleton(brief: TaskBrief): seq<Node> {
    AddRepos(brief, |brief.repos|)
  }

  // -------------------------------------------------------------- well-formed

  function Up(layer: Layer): Layer {
    match layer
    case L3_TaskAgent => L2_ModuleLead
    case L2_ModuleLead => L1_ComponentLead
    case _ => L0_ChiefArchitect
  }

  ghost predicate Siblings(a: Node, b: Node) {
    a.layer == b.layer && a.parent == b.parent
  }

  /** A node may follow these: its parent is one layer up, its chain link the nearest earlier sibling. */
  ghost predicate Fits(nodes: seq<Node>, node: Node) {
    && !node.layer.L0_ChiefArchitect?
    && node.parent < |nodes|
    && nodes[node.parent].layer == Up(node.layer)
    && (node.prev.Some? ==>
          && node.prev.value < |nodes|
          && Siblings(nodes[node.prev.value], node)
          && forall j :: node.prev.value < j < |nodes| ==> !Siblings(nodes[j], node))
  }

  ghost predicate WellFormed(nodes: seq<Node>) {
    && nodes != []
    && nodes[0] == ROOT
    && forall i :: 0 < i < |nodes| ==> Fits(nodes[..i], nodes[i])
  }

  lemma WellFormedGrows(nodes: seq<Node>, node: Node)
    requires WellFormed(nodes) && Fits(nodes, node)
    ensures WellFormed(nodes + [node])
  {
    var more := nodes + [node];
    forall i | 0 < i < |more| ensures Fits(more[..i], more[i]) {
      if i < |nodes| {
        assert more[..i] == nodes[..i];
      } else {
        assert more[..i] == nodes;
      }
    }
  }

  /** What adding implementations does: L3 children of l2 behind the nodes that were there. */
  lemma {:induction false} ImplsAdded(base: seq<Node>, repo: string, mod: string, impls: seq<string>, l2: nat, n: nat)
    requires n <= |impls| && l2 + 1 == |base| && WellFormed(base) && base[l2].layer.L2_ModuleLead?
    ensures
      var nodes := AddImpls(base, repo, mod, impls, l2, n);
      && WellFormed(nodes)
      && |nodes| == |base| + n
      && base <= nodes
      && (forall j :: |base| <= j < |nodes| ==> nodes[j].layer.L3_TaskAgent? && nodes[j].parent == l2)
  {
    if n > 0 {
      ImplsAdded(base, repo, mod, impls, l2, n - 1);
      var b := AddImpls(base, repo, mod, impls, l2, n - 1);
      var node := AddImpls(base, repo, mod, impls, l2, n)[|b|];
      assert b[l2] == base[l2];
      WellFormedGrows(b, node);
    }
  }

  /** Sum of 1 + max(1, number of impls) over the first n modules of a repo. */
  function ModulesSize(brief: TaskBrief, repo: string, n: nat): nat
    requires n <= |ModulesOf(brief, repo)|
  {
    if n == 0 then 0
    else ModulesSize(brief, repo, n - 1) + 1 + |ImplsOf(brief, repo, ModulesOf(brief, repo)[n - 1])|
  }

  function ReposSize(brief: TaskBrief, n: nat): nat
    requires n <= |brief.repos|
  {
    if n == 0 then 0
    else
      var repo := brief.repos[n - 1];
      ReposSize(brief, n - 1) + 1 + ModulesSize(brief, repo, |ModulesOf(brief, repo)|)
  }

  /** One root, and per repo one lead, its modules and their implementations. */
  function PlanSize(brief: TaskBrief): nat {
    1 + ReposSize(brief, |brief.repos|)
  }

  ghost predicate NoSiblingFrom(nodes: seq<Node>, from: nat, layer: Layer, parent: nat) {
    forall j :: from <= j < |nodes| ==> !(nodes[j].layer == layer && nodes[j].parent == parent)
  }

  lemma {:induction false} ModulesAdded(base: seq<Node>, brief: TaskBrief, repo: string, l1: nat, n: nat)
    requires n <= |ModulesOf(brief, repo)| && l1 + 1 == |base| && WellFormed(base) && base[l1].layer.L1_ComponentLead?
    ensures
      var nodes := AddModules(base, brief, repo, l1, n);
      && WellFormed(nodes)
      && |nodes| == |base| + ModulesSize(brief, repo, n)
      && base <= nodes
      && (n > 0 ==>
            var last := |AddModules(base, brief, repo, l1, n - 1)|;
            && last < |nodes|
            && nodes[last].layer.L2_ModuleLead? && nodes[last].parent == l1
            && NoSiblingFrom(nodes, last + 1, L2_ModuleLead, l1))
  {
    hide WellFormed, AddImpls, ImplsOf, ModulesOf;
    if n > 0 {
      ModulesAdded(base, brief, repo, l1, n - 1);
      var b := AddModules(base, brief, repo, l1, n - 1);
      var mod := ModulesOf(brief, repo)[n - 1];
      var prev := if n > 1 then Some(|AddModules(base, brief, repo, l1, n - 2)|) else None;
      var lead := Node(L2_ModuleLead, repo, mod, "", l1, prev);
      var impls := ImplsOf(brief, repo, mod);
      assert b[l1] == base[l1];
      WellFormedGrows(b, lead);
      ImplsAdded(b + [lead], repo, mod, impls, |b|, |impls|);
      var nodes := AddModules(base, brief, repo, l1, n);
      assert nodes[|b|] == (b + [lead])[|b|];
      assert base <= b <= b + [lead] <= nodes;
    }
  }

  lemma {:induction false} ReposAdded(brief: TaskBrief, n: nat)
    requires n <= |brief.repos|
    ensures WellFormed(AddRepos(brief, n)) && |AddRepos(brief, n)| == 1 + ReposSize(brief, n)
  {
    if n > 0 {
      ReposAdded(brief, n - 1);
      var b := AddRepos(brief, n - 1);
      assert b[0] == ROOT;
      hide WellFormed;
      var repo := brief.repos[n - 1];
      var lead := Node(L1_ComponentLead, repo, "", "", 0, None);
      WellFormedGrows(b, lead);
      ModulesAdded(b + [lead], brief, repo, |b|, |ModulesOf(brief, repo)|);
    }
  }

  /** Every plan is well formed and has 1 + sum(1 + sum(1 + max(1, impls))) tasks. */
  lemma SkeletonShape(brief: TaskBrief)
    ensures WellFormed(Skeleton(brief)) && |Skeleton(brief)| == PlanSize(brief)
  {
    ReposAdded(brief, |brief.repos|);
  }

  // ------------------------------------------------------------- prefixes

  lemma {:induction false} ImplsPrefix(base: seq<Node>, repo: string, mod: string, impls: seq<string>, l2: nat, m: nat, n: nat)
    requires m <= n <= |impls|
    ensures AddImpls(base, repo, mod, impls, l2, m) <= AddImpls(base, repo, mod, impls, l2, n)
  {
    if m < n {
      ImplsPrefix(base, repo, mod, impls, l2, m, n - 1);
    }
  }

  lemma {:induction false} ModulesPrefix(base: seq<Node>, brief: TaskBrief, repo: string, l1: nat, m: nat, n: nat)
    requires m <= n <= |ModulesOf(brief, repo)|
    ensures AddModules(base, brief, repo, l1, m) <= AddModules(base, brief, repo, l1, n)
  {
    if m < n {
      ModulesPrefix(base, brief, repo, l1, m, n - 1);
      var b := AddModules(base, brief, repo, l1, n - 1);
      var mod := ModulesOf(brief, repo)[n - 1];
      var prev := if n > 1 then Some(|AddModules(base, brief, repo, l1, n - 2)|) else None;
      var impls := ImplsOf(brief, repo, mod);
      ImplsPrefix(b + [Node(L2_ModuleLead, repo, mod, "", l1, prev)], repo, mod, impls, |b|, 0, |impls|);
    }
  }

  lemma {:induction false} ReposPrefix(brief: TaskBrief, m: nat, n: nat)
    requires m <= n <= |brief.repos|
    ensures AddRepos(brief, m) <= AddRepos(brief, n)
  {
    if m < n {
      ReposPrefix(brief, m, n - 1);
      var b := AddRepos(brief, n - 1);
      var repo := brief.repos[n - 1];
      ModulesPrefix(b + [Node(L1_ComponentLead, repo, "", "", 0, None)], brief, repo, |b|, 0, |ModulesOf(brief, repo)|);
    }
  }
}
