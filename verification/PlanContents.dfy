/** What a plan contains, read off the lists of the brief. */
module PlanContents {
  import opened Common
  import opened HmasTypes
  import opened ImplRefs
  import opened PlanSkeleton
  import opened Planning
  import opened PlanWiring
  import opened Breakdown

  // -------------------------------------------------------- children of a node

  /** Positions below n of the children of node i, in order. */
  function Kids(nodes: seq<Node>, i: nat, n: nat): (ps: seq<nat>)
    requires n <= |nodes|
    ensures forall k :: 0 <= k < |ps| ==> ps[k] < n
  {
    if n == 0 then [] else Kids(nodes, i, n - 1) + if IsChild(nodes[n - 1], i) then [n - 1] else []
  }

  lemma {:induction false} KidsPrefix(nodes: seq<Node>, more: seq<Node>, i: nat, n: nat)
    requires nodes <= more && n <= |nodes|
    ensures Kids(more, i, n) == Kids(nodes, i, n)
  {
    if n > 0 {
      KidsPrefix(nodes, more, i, n - 1);
    }
  }

  /** Nodes behind that are not children change nothing. */
  lemma {:induction false} KidsStay(nodes: seq<Node>, more: seq<Node>, i: nat, n: nat)
    requires nodes <= more && |nodes| <= n <= |more|
    requires forall j :: |nodes| <= j < n ==> !IsChild(more[j], i)
    ensures Kids(more, i, n) == Kids(nodes, i, |nodes|)
  {
    if n == |nodes| {
      KidsPrefix(nodes, more, i, n);
    } else {
      KidsStay(nodes, more, i, n - 1);
    }
  }

  /** A node that nobody hangs under yet. */
  lemma {:induction false} NoKids(nodes: seq<Node>, i: nat, n: nat)
    requires n <= |nodes| && forall j :: 0 <= j < n ==> !IsChild(nodes[j], i)
    ensures Kids(nodes, i, n) == []
  {
    if n > 0 {
      NoKids(nodes, i, n - 1);
    }
  }

  ghost predicate ImplKids(nodes: seq<Node>, a: nat, texts: seq<string>)
    requires a < |nodes|
  {
    var ps := Kids(nodes, a, |nodes|);
    && |ps| == |texts|
    && forall k :: 0 <= k < |ps| ==>
         var n := nodes[ps[k]];
         n.layer == L3_TaskAgent && n.repo == nodes[a].repo && n.moduleName == nodes[a].moduleName && n.text == texts[k]
  }

  ghost predicate ModuleKids(nodes: seq<Node>, a: nat, mods: seq<string>)
    requires a < |nodes|
  {
    var ps := Kids(nodes, a, |nodes|);
    && |ps| == |mods|
    && forall k :: 0 <= k < |ps| ==>
         var n := nodes[ps[k]];
         n.layer == L2_ModuleLead && n.repo == nodes[a].repo && n.moduleName == mods[k]
  }

  ghost predicate RepoKids(nodes: seq<Node>, repos: seq<string>)
    requires nodes != []
  {
    var ps := Kids(nodes, 0, |nodes|);
    && |ps| == |repos|
    && forall k :: 0 <= k < |ps| ==> nodes[ps[k]].layer == L1_ComponentLead && nodes[ps[k]].repo == repos[k]
  }

  lemma ImplKidsStay(nodes: seq<Node>, more: seq<Node>, a: nat, texts: seq<string>)
    requires nodes <= more && a < |nodes| && ImplKids(nodes, a, texts)
    requires forall j :: |nodes| <= j < |more| ==> !IsChild(more[j], a)
    ensures ImplKids(more, a, texts)
  {
    KidsStay(nodes, more, a, |more|);
    assert forall k :: 0 <= k < |nodes| ==> more[k] == nodes[k];
  }

  lemma ModuleKidsStay(nodes: seq<Node>, more: seq<Node>, a: nat, mods: seq<string>)
    requires nodes <= more && a < |nodes| && ModuleKids(nodes, a, mods)
    requires forall j :: |nodes| <= j < |more| ==> !IsChild(more[j], a)
    ensures ModuleKids(more, a, mods)
  {
    KidsStay(nodes, more, a, |more|);
    assert forall k :: 0 <= k < |nodes| ==> more[k] == nodes[k];
  }

  // --------------------------------------------------------------- the L3 nodes

  lemma {:induction false} ImplsContent(base: seq<Node>, repo: string, mod: string, impls: seq<string>, l2: nat, n: nat)
    requires n <= |impls| && l2 < |base| && base[l2].repo == repo && base[l2].moduleName == mod
    requires forall j :: 0 <= j < |base| ==> !IsChild(base[j], l2)
    ensures
      var nodes := AddImpls(base, repo, mod, impls, l2, n);
      && base <= nodes
      && (forall j :: |base| <= j < |nodes| ==> nodes[j].layer == L3_TaskAgent && nodes[j].parent == l2)
      && ImplKids(nodes, l2, impls[..n])
  {
    hide Chained, ImplKids;
    if n == 0 {
      NoImpls(base, l2);
      assert impls[..0] == [];
    } else {
      ImplsContent(base, repo, mod, impls, l2, n - 1);
      var b, nodes := AddImpls(base, repo, mod, impls, l2, n - 1), AddImpls(base, repo, mod, impls, l2, n);
      OneImpl(b, nodes[|b|], l2, impls[..n - 1]);
      assert nodes == b + [nodes[|b|]];
      assert impls[..n] == impls[..n - 1] + [impls[n - 1]];
    }
  }

  lemma NoImpls(base: seq<Node>, l2: nat)
    requires l2 < |base| && forall j :: 0 <= j < |base| ==> !IsChild(base[j], l2)
    ensures ImplKids(base, l2, [])
  {
    NoKids(base, l2, |base|);
  }

  lemma OneImpl(b: seq<Node>, node: Node, l2: nat, texts: seq<string>)
    requires l2 < |b| && ImplKids(b, l2, texts)
    requires node.layer == L3_TaskAgent && node.parent == l2 && node.repo == b[l2].repo && node.moduleName == b[l2].moduleName
    ensures ImplKids(b + [node], l2, texts + [node.text])
  {
    var nodes := b + [node];
    KidsPrefix(b, nodes, l2, |b|);
    assert Kids(nodes, l2, |nodes|) == Kids(b, l2, |b|) + [|b|];
  }

  // --------------------------------------------------------------- the L2 nodes

  /** What the modules of a repo add below its lead. */
  ghost predicate ModulesDone(base: seq<Node>, nodes: seq<Node>, brief: TaskBrief, repo: string, l1: nat, mods: seq<string>)
    requires l1 < |base| <= |nodes|
  {
    && base <= nodes
    && (forall j :: |base| <= j < |nodes| ==>
          || (nodes[j].layer == L2_ModuleLead && nodes[j].parent == l1 && nodes[j].repo == repo)
          || (nodes[j].layer == L3_TaskAgent && nodes[j].parent >= |base|))
    && ModuleKids(nodes, l1, mods)
    && forall a :: |base| <= a < |nodes| && nodes[a].layer == L2_ModuleLead ==>
         ImplKids(nodes, a, ImplsOf(brief, repo, nodes[a].moduleName))
  }

  lemma {:induction false} ModulesContent(base: seq<Node>, brief: TaskBrief, repo: string, l1: nat, n: nat)
    requires n <= |ModulesOf(brief, repo)| && l1 < |base| && base[l1].repo == repo
    requires forall j :: 0 <= j < |base| ==> base[j].parent < |base| && !IsChild(base[j], l1)
    ensures
      var nodes := AddModules(base, brief, repo, l1, n);
      && |base| <= |nodes|
      && (forall j :: 0 <= j < |nodes| ==> nodes[j].parent < |nodes|)
      && ModulesDone(base, nodes, brief, repo, l1, ModulesOf(brief, repo)[..n])
  {
    hide ModulesOf, ImplsOf, AddImpls, ModulesDone, ModuleKids;
    if n == 0 {
      NoModules(base, brief, repo, l1);
      assert ModulesOf(brief, repo)[..0] == [];
    } else {
      ModulesContent(base, brief, repo, l1, n - 1);
      var b := AddModules(base, brief, repo, l1, n - 1);
      var mods := ModulesOf(brief, repo);
      var prev := if n > 1 then Some(|AddModules(base, brief, repo, l1, n - 2)|) else None;
      OneModule(base, b, brief, repo, l1, mods[..n - 1], mods[n - 1], prev);
      assert mods[..n] == mods[..n - 1] + [mods[n - 1]];
    }
  }

  lemma NoModules(base: seq<Node>, brief: TaskBrief, repo: string, l1: nat)
    requires l1 < |base| && forall j :: 0 <= j < |base| ==> !IsChild(base[j], l1)
    ensures ModulesDone(base, base, brief, repo, l1, [])
  {
    NoKids(base, l1, |base|);
  }

  /** One more module: its lead and the implementations under it. */
  lemma OneModule(base: seq<Node>, b: seq<Node>, brief: TaskBrief, repo: string, l1: nat, mods: seq<string>, mod: string,
                  prev: Option<nat>)
    requires l1 < |base| <= |b| && base[l1].repo == repo && ModulesDone(base, b, brief, repo, l1, mods)
    requires forall j :: 0 <= j < |b| ==> b[j].parent < |b|
    ensures
      var impls := ImplsOf(brief, repo, mod);
      var nodes := AddImpls(b + [Node(L2_ModuleLead, repo, mod, "", l1, prev)], repo, mod, impls, |b|, |impls|);
      && |base| <= |nodes| && (forall j :: 0 <= j < |nodes| ==> nodes[j].parent < |nodes|)
      && ModulesDone(base, nodes, brief, repo, l1, mods + [mod])
  {
    hide AddImpls, ImplsOf, Kids;
    var lead := Node(L2_ModuleLead, repo, mod, "", l1, prev);
    var impls, led := ImplsOf(brief, repo, mod), b + [lead];
    var nodes := AddImpls(led, repo, mod, impls, |b|, |impls|);
    ImplsContent(led, repo, mod, impls, |b|, |impls|);
    assert impls[..|impls|] == impls;
    assert led[..|b|] == b && b <= nodes && base <= nodes;
    assert nodes[|b|] == led[|b|] == lead;
    LeadAdded(b, led, nodes, l1, repo, mods, mod);
    forall a | |base| <= a < |nodes| && nodes[a].layer == L2_ModuleLead
      ensures ImplKids(nodes, a, ImplsOf(brief, repo, nodes[a].moduleName))
    {
      if a < |b| {
        assert nodes[a] == b[a];
        ImplKidsStay(b, nodes, a, ImplsOf(brief, repo, b[a].moduleName));
      } else {
        assert a == |b|;
      }
    }
  }

  /** The new lead becomes the last child of the repo's lead. */
  lemma LeadAdded(b: seq<Node>, led: seq<Node>, nodes: seq<Node>, l1: nat, repo: string, mods: seq<string>, mod: string)
    requires l1 < |b| && |led| == |b| + 1 && b <= led <= nodes && b[l1].repo == repo && ModuleKids(b, l1, mods)
    requires led[|b|].layer == L2_ModuleLead && led[|b|].parent == l1 && led[|b|].repo == repo && led[|b|].moduleName == mod
    requires forall j :: |led| <= j < |nodes| ==> nodes[j].parent == |b|
    ensures ModuleKids(nodes, l1, mods + [mod])
  {
    KidsStay(led, nodes, l1, |nodes|);
    KidsPrefix(b, led, l1, |b|);
    assert Kids(led, l1, |led|) == Kids(b, l1, |b|) + [|b|];
    assert forall k :: 0 <= k < |led| ==> nodes[k] == led[k];
    assert forall k :: 0 <= k < |b| ==> led[k] == b[k];
  }

  // --------------------------------------------------------------- the L1 nodes

  /** Every lead has below it what its lists say. */
  ghost predicate LeadsDone(nodes: seq<Node>, brief: TaskBrief) {
    && (forall a :: 0 <= a < |nodes| && nodes[a].layer == L1_ComponentLead ==>
          ModuleKids(nodes, a, ModulesOf(brief, nodes[a].repo)))
    && (forall a :: 0 <= a < |nodes| && nodes[a].layer == L2_ModuleLead ==>
          ImplKids(nodes, a, ImplsOf(brief, nodes[a].repo, nodes[a].moduleName)))
  }

  lemma {:induction false} ReposContent(brief: TaskBrief, n: nat)
    requires n <= |brief.repos|
    ensures
      var nodes := AddRepos(brief, n);
      && nodes != [] && nodes[0] == ROOT && (forall j :: 0 <= j < |nodes| ==> nodes[j].parent < |nodes|)
      && RepoKids(nodes, brief.repos[..n])
      && LeadsDone(nodes, brief)
  {
    hide ModulesOf, ImplsOf, AddModules, LeadsDone, RepoKids;
    if n == 0 {
      RootAlone(brief);
      assert brief.repos[..0] == [];
    } else {
      ReposContent(brief, n - 1);
      OneRepo(AddRepos(brief, n - 1), brief, brief.repos[..n - 1], brief.repos[n - 1]);
      assert brief.repos[..n] == brief.repos[..n - 1] + [brief.repos[n - 1]];
    }
  }

  lemma RootAlone(brief: TaskBrief)
    ensures RepoKids([ROOT], []) && LeadsDone([ROOT], brief)
  {
    NoKids([ROOT], 0, 1);
  }

  lemma OneRepo(b: seq<Node>, brief: TaskBrief, repos: seq<string>, repo: string)
    requires b != [] && b[0] == ROOT && (forall j :: 0 <= j < |b| ==> b[j].parent < |b|)
    requires RepoKids(b, repos) && LeadsDone(b, brief)
    ensures
      var nodes := AddModules(b + [Node(L1_ComponentLead, repo, "", "", 0, None)], brief, repo, |b|, |ModulesOf(brief, repo)|);
      && nodes != [] && nodes[0] == ROOT && (forall j :: 0 <= j < |nodes| ==> nodes[j].parent < |nodes|)
      && RepoKids(nodes, repos + [repo])
      && LeadsDone(nodes, brief)
  {
    hide AddModules, ModulesOf, ImplsOf, Kids, ModuleKids, ImplKids, RepoKids;
    var lead := Node(L1_ComponentLead, repo, "", "", 0, None);
    var led, mods := b + [lead], ModulesOf(brief, repo);
    var nodes := AddModules(led, brief, repo, |b|, |mods|);
    ModulesContent(led, brief, repo, |b|, |mods|);
    assert mods[..|mods|] == mods;
    assert led[..|b|] == b && b <= nodes && nodes[|b|] == led[|b|] == lead;
    RepoAdded(b, led, nodes, repos, repo);
    forall a | 0 <= a < |nodes| && nodes[a].layer == L1_ComponentLead ensures ModuleKids(nodes, a, ModulesOf(brief, nodes[a].repo)) {
      if a < |b| {
        assert nodes[a] == b[a];
        NotBelow(b, nodes, led, a);
        ModuleKidsStay(b, nodes, a, ModulesOf(brief, b[a].repo));
      } else {
        assert a == |b|;
      }
    }
    forall a | 0 <= a < |nodes| && nodes[a].layer == L2_ModuleLead
      ensures ImplKids(nodes, a, ImplsOf(brief, nodes[a].repo, nodes[a].moduleName))
    {
      if a < |b| {
        assert nodes[a] == b[a];
        NotBelow(b, nodes, led, a);
        ImplKidsStay(b, nodes, a, ImplsOf(brief, b[a].repo, b[a].moduleName));
      } else {
        assert |led| <= a;
      }
    }
  }

  /** Nodes of a new repo hang under the root or under its own leads. */
  lemma NotBelow(b: seq<Node>, nodes: seq<Node>, led: seq<Node>, a: nat)
    requires |led| == |b| + 1 && b <= led <= nodes && a < |b| && a > 0
    requires led[|b|].parent == 0
    requires forall j :: |led| <= j < |nodes| ==> nodes[j].parent >= |b|
    ensures forall j :: |b| <= j < |nodes| ==> !IsChild(nodes[j], a)
  {
    assert nodes[|b|] == led[|b|];
  }

  lemma RepoAdded(b: seq<Node>, led: seq<Node>, nodes: seq<Node>, repos: seq<string>, repo: string)
    requires b != [] && |led| == |b| + 1 && b <= led <= nodes && RepoKids(b, repos)
    requires led[|b|].layer == L1_ComponentLead && led[|b|].parent == 0 && led[|b|].repo == repo
    requires forall j :: |led| <= j < |nodes| ==> nodes[j].parent >= |b|
    ensures RepoKids(nodes, repos + [repo])
  {
    KidsStay(led, nodes, 0, |nodes|);
    KidsPrefix(b, led, 0, |b|);
    assert Kids(led, 0, |led|) == Kids(b, 0, |b|) + [|b|];
    assert forall k :: 0 <= k < |led| ==> nodes[k] == led[k];
    assert forall k :: 0 <= k < |b| ==> led[k] == b[k];
  }

  // ----------------------------------------------------------------- the tasks

  /** Positions below n of the tasks whose parent is the given one, in list order. */
  function ChildrenOf(tasks: seq<HmasTask>, id: string, n: nat): (ps: seq<nat>)
    requires n <= |tasks|
    ensures forall k :: 0 <= k < |ps| ==> ps[k] < n && tasks[ps[k]].parentTaskId == id
    ensures forall j :: 0 <= j < n && tasks[j].parentTaskId == id ==> j in ps
    ensures forall k, l :: 0 <= k < l < |ps| ==> ps[k] < ps[l]
  {
    if n == 0 then [] else ChildrenOf(tasks, id, n - 1) + if tasks[n - 1].parentTaskId == id then [n - 1] else []
  }

  /** Fields of a plan's task that come from its node. */
  lemma TaskOfNode(p: Plan, tasks: seq<HmasTask>, i: nat)
    requires IsPlan(p, tasks) && i < |tasks|
    ensures |tasks| == |Skeleton(p.brief)| <= |p.ids|
    ensures
      var t, n := tasks[i], Skeleton(p.brief)[i];
      && t.id == p.ids[i] && t.layer == n.layer && t.repo == n.repo && t.moduleName == n.moduleName
      && t.subject == Subject(p, n) && t.description == Description(p, n) && t.issue == IssueOf(n)
      && (i > 0 ==> n.parent < |p.ids| && t.parentTaskId == p.ids[n.parent])
      && (i == 0 ==> t.parentTaskId == "")
  {
    PlanBasics(p, tasks);
    PlanTask(p, tasks, i);
    var ts := FirstPass(p);
    NodesBound(p, Skeleton(p.brief), i);
    FirstTask(p, i);
    hide Skeleton, FirstPass, WellFormed, Blockers, ChildIds, Subject, Description, IssueOf, EnoughIds, Parseable, NewBlocker, NewChild;
  }

  lemma {:induction false} SameKids(p: Plan, tasks: seq<HmasTask>, i: nat, n: nat)
    requires IsPlan(p, tasks) && i < |tasks| && n <= |tasks| == |Skeleton(p.brief)|
    ensures ChildrenOf(tasks, tasks[i].id, n) == Kids(Skeleton(p.brief), i, n)
  {
    hide IsPlan, Skeleton, Subject, Description, IssueOf;
    if n > 0 {
      SameKids(p, tasks, i, n - 1);
      SameChild(p, tasks, i, n - 1);
    }
  }

  lemma SameChild(p: Plan, tasks: seq<HmasTask>, i: nat, j: nat)
    requires IsPlan(p, tasks) && i < |tasks| && j < |tasks| == |Skeleton(p.brief)|
    ensures tasks[j].parentTaskId == tasks[i].id <==> IsChild(Skeleton(p.brief)[j], i)
  {
    TaskOfNode(p, tasks, i);
    TaskOfNode(p, tasks, j);
    PlanBasics(p, tasks);
    DistinctSupply(p);
    SuppliedIdsNotEmpty(p, i);
    hide IsPlan, Skeleton, Subject, Description, IssueOf, EnoughIds, Fresh;
  }

  lemma SuppliedIdsNotEmpty(p: Plan, i: nat)
    requires EnoughIds(p) && i < |p.ids|
    ensures p.ids[i] != ""
  {
  }

  // ------------------------------------------------------------- the theorems

  lemma NodeLists(brief: TaskBrief, a: nat)
    requires a < |Skeleton(brief)|
    ensures
      var nodes := Skeleton(brief);
      && (nodes[a].layer == L2_ModuleLead ==> ImplKids(nodes, a, ImplsOf(brief, nodes[a].repo, nodes[a].moduleName)))
      && (nodes[a].layer == L1_ComponentLead ==> ModuleKids(nodes, a, ModulesOf(brief, nodes[a].repo)))
      && (a == 0 ==> RepoKids(nodes, brief.repos))
  {
    hide AddRepos, ImplKids, ModuleKids, RepoKids, ImplsOf, ModulesOf;
    ReposContent(brief, |brief.repos|);
    assert brief.repos[..|brief.repos|] == brief.repos;
  }

  /** The fields of the children of a task, by way of their nodes. */
  lemma ChildFields(p: Plan, tasks: seq<HmasTask>, a: nat, k: nat)
    requires IsPlan(p, tasks) && a < |tasks| && k < |ChildrenOf(tasks, tasks[a].id, |tasks|)|
    ensures |tasks| == |Skeleton(p.brief)|
    ensures k < |Kids(Skeleton(p.brief), a, |tasks|)|
    ensures
      var t, n := tasks[ChildrenOf(tasks, tasks[a].id, |tasks|)[k]], Skeleton(p.brief)[Kids(Skeleton(p.brief), a, |tasks|)[k]];
      && t.layer == n.layer && t.repo == n.repo && t.moduleName == n.moduleName
      && (n.layer == L3_TaskAgent ==> t.subject == n.text)
  {
    hide IsPlan, Skeleton, Kids, ChildrenOf, IssueOf, Description;
    TaskOfNode(p, tasks, a);
    SameKids(p, tasks, a, |tasks|);
    TaskOfNode(p, tasks, ChildrenOf(tasks, tasks[a].id, |tasks|)[k]);
  }

  ghost predicate Subjects(tasks: seq<HmasTask>, ps: seq<nat>, texts: seq<string>)
    requires forall k :: 0 <= k < |ps| ==> ps[k] < |tasks|
  {
    |ps| == |texts| && forall k :: 0 <= k < |ps| ==> tasks[ps[k]].subject == texts[k]
  }

  /** The tasks under task a are, in order, one for each implementation listed for module m of r, or the default one. */
  ghost predicate ImplementationsUnder(impls: map<string, map<string, seq<string>>>, r: string, m: string,
                                       tasks: seq<HmasTask>, a: nat)
    requires a < |tasks|
  {
    var ps := ChildrenOf(tasks, tasks[a].id, |tasks|);
    var listed := r in impls && m in impls[r] && |impls[r][m]| > 0;
    && Subjects(tasks, ps, if listed then impls[r][m] else ["Implement " + m])
    && forall k :: 0 <= k < |ps| ==>
         tasks[ps[k]].layer == L3_TaskAgent && tasks[ps[k]].repo == r && tasks[ps[k]].moduleName == m
  }

  /** So it is under a module's lead. */
  lemma ImplementationsAsListed(p: Plan, tasks: seq<HmasTask>, a: nat)
    requires IsPlan(p, tasks) && a < |tasks| && tasks[a].layer == L2_ModuleLead
    ensures ImplementationsUnder(p.brief.impls, tasks[a].repo, tasks[a].moduleName, tasks, a)
  {
    hide IsPlan, Skeleton, Kids, ChildrenOf, IssueOf, Description, Subject;
    TaskOfNode(p, tasks, a);
    SameKids(p, tasks, a, |tasks|);
    NodeLists(p.brief, a);
    var ps := ChildrenOf(tasks, tasks[a].id, |tasks|);
    forall k | 0 <= k < |ps|
      ensures tasks[ps[k]].layer == L3_TaskAgent && tasks[ps[k]].repo == tasks[a].repo
      ensures tasks[ps[k]].moduleName == tasks[a].moduleName
      ensures tasks[ps[k]].subject == ImplsOf(p.brief, tasks[a].repo, tasks[a].moduleName)[k]
    {
      ChildFields(p, tasks, a, k);
    }
  }

  /** The tasks under task a are, in order, one lead for each module listed for r, or one for "core". */
  ghost predicate ModulesUnder(modules: map<string, seq<string>>, r: string, tasks: seq<HmasTask>, a: nat)
    requires a < |tasks|
  {
    var ps := ChildrenOf(tasks, tasks[a].id, |tasks|);
    var listed := r in modules && |modules[r]| > 0;
    && (listed ==> |ps| == |modules[r]| && forall k :: 0 <= k < |ps| ==> tasks[ps[k]].moduleName == modules[r][k])
    && (!listed ==> |ps| == 1 && tasks[ps[0]].moduleName == "core")
    && forall k :: 0 <= k < |ps| ==> tasks[ps[k]].layer == L2_ModuleLead && tasks[ps[k]].repo == r
  }

  /** So it is under a repo's lead. */
  lemma ModulesAsListed(p: Plan, tasks: seq<HmasTask>, a: nat)
    requires IsPlan(p, tasks) && a < |tasks| && tasks[a].layer == L1_ComponentLead
    ensures ModulesUnder(p.brief.modules, tasks[a].repo, tasks, a)
  {
    hide IsPlan, Skeleton, Kids, ChildrenOf, IssueOf, Description, Subject;
    TaskOfNode(p, tasks, a);
    SameKids(p, tasks, a, |tasks|);
    NodeLists(p.brief, a);
    var ps := ChildrenOf(tasks, tasks[a].id, |tasks|);
    forall k | 0 <= k < |ps|
      ensures tasks[ps[k]].layer == L2_ModuleLead && tasks[ps[k]].repo == tasks[a].repo
      ensures tasks[ps[k]].moduleName == ModulesOf(p.brief, tasks[a].repo)[k]
    {
      ChildFields(p, tasks, a, k);
    }
  }

  /** The repo leads under the root, in order: one for each repo of the brief. */
  lemma ReposAsListed(p: Plan, tasks: seq<HmasTask>)
    requires IsPlan(p, tasks)
    ensures tasks != [] && tasks[0].layer == L0_ChiefArchitect
    ensures
      var ps := ChildrenOf(tasks, tasks[0].id, |tasks|);
      && |ps| == |p.brief.repos|
      && forall k :: 0 <= k < |ps| ==>
           tasks[ps[k]].layer == L1_ComponentLead && tasks[ps[k]].repo == p.brief.repos[k]
  {
    PlanBasics(p, tasks);
    SkeletonShape(p.brief);
    hide IsPlan, Skeleton, Kids, ChildrenOf, IssueOf, Description, Subject, PlanSize, WellFormed, Fresh, EnoughIds;
    TaskOfNode(p, tasks, 0);
    SameKids(p, tasks, 0, |tasks|);
    NodeLists(p.brief, 0);
    var ps := ChildrenOf(tasks, tasks[0].id, |tasks|);
    forall k | 0 <= k < |ps| ensures tasks[ps[k]].layer == L1_ComponentLead && tasks[ps[k]].repo == p.brief.repos[k] {
      ChildFields(p, tasks, 0, k);
    }
  }

  // ----------------------------------------------------------------- the number

  function ImplTotal(brief: TaskBrief, r: string, m: string): nat {
    if r in brief.impls && m in brief.impls[r] && |brief.impls[r][m]| > 0 then |brief.impls[r][m]| else 1
  }

  function ModuleTotal(brief: TaskBrief, r: string, ms: seq<string>): nat {
    if ms == [] then 0 else ModuleTotal(brief, r, ms[..|ms| - 1]) + 1 + ImplTotal(brief, r, ms[|ms| - 1])
  }

  function RepoTotal(brief: TaskBrief, rs: seq<string>): nat {
    if rs == [] then 0
    else
      var r := rs[|rs| - 1];
      RepoTotal(brief, rs[..|rs| - 1]) + 1
      + if r in brief.modules && |brief.modules[r]| > 0 then ModuleTotal(brief, r, brief.modules[r])
        else ModuleTotal(brief, r, ["core"])
  }

  lemma {:induction false} ModuleSums(brief: TaskBrief, r: string, n: nat)
    requires n <= |ModulesOf(brief, r)|
    ensures ModulesSize(brief, r, n) == ModuleTotal(brief, r, ModulesOf(brief, r)[..n])
  {
    if n > 0 {
      ModuleSums(brief, r, n - 1);
      assert ModulesOf(brief, r)[..n][..n - 1] == ModulesOf(brief, r)[..n - 1];
    }
  }

  lemma {:induction false} RepoSums(brief: TaskBrief, n: nat)
    requires n <= |brief.repos|
    ensures ReposSize(brief, n) == RepoTotal(brief, brief.repos[..n])
  {
    if n > 0 {
      RepoSums(brief, n - 1);
      assert brief.repos[..n][..n - 1] == brief.repos[..n - 1];
      var r := brief.repos[n - 1];
      ModuleSums(brief, r, |ModulesOf(brief, r)|);
      assert ModulesOf(brief, r)[..|ModulesOf(brief, r)|] == ModulesOf(brief, r);
    }
  }

  /** One task for the brief, one for each repo, one for each module, one for each implementation. */
  lemma PlanLength(p: Plan, tasks: seq<HmasTask>)
    requires IsPlan(p, tasks)
    ensures |tasks| == 1 + RepoTotal(p.brief, p.brief.repos)
  {
    PlanBasics(p, tasks);
    RepoSums(p.brief, |p.brief.repos|);
    assert p.brief.repos[..|p.brief.repos|] == p.brief.repos;
  }

  /** The texts of the tasks, layer by layer. */
  lemma PlanTexts(p: Plan, tasks: seq<HmasTask>, i: nat)
    requires IsPlan(p, tasks) && i < |tasks|
    ensures
      var t, title := tasks[i], p.brief.title;
      match t.layer
      case L0_ChiefArchitect => t.subject == title && t.description == p.brief.description && t.issue == 0
      case L1_ComponentLead =>
        && t.subject == title + " [" + t.repo + "]"
        && t.description == "Coordinate implementation for repo: " + t.repo && t.issue == 0
      case L2_ModuleLead =>
        && t.subject == title + " [" + t.repo + "/" + t.moduleName + "]"
        && t.description == "Lead module implementation: " + t.moduleName + " in " + t.repo && t.issue == 0
      case L3_TaskAgent =>
        t.description == t.subject && Parsed(t.subject).Ok? && t.issue == Parsed(t.subject).value.issue
  {
    TaskOfNode(p, tasks, i);
    var n := Skeleton(p.brief)[i];
    assert n.layer == L3_TaskAgent ==> Parsed(n.text).Ok?;
    hide IsPlan, Skeleton, Parsed;
  }

  // ------------------------------------------------------- what can be planned

  ghost predicate AllParse(impls: seq<string>) {
    forall k :: 0 <= k < |impls| ==> Parsed(impls[k]).Ok?
  }

  lemma ParseableGrows(nodes: seq<Node>, node: Node)
    ensures Parseable(nodes + [node]) <==> Parseable(nodes) && (node.layer == L3_TaskAgent ==> Parsed(node.text).Ok?)
  {
    hide Parsed;
    var more := nodes + [node];
    assert more[|nodes|] == node && forall i :: 0 <= i < |nodes| ==> more[i] == nodes[i];
    assert Parseable(more) ==> Parseable(nodes);
  }

  lemma {:induction false} ImplsParse(base: seq<Node>, repo: string, mod: string, impls: seq<string>, l2: nat, n: nat)
    requires n <= |impls|
    ensures Parseable(AddImpls(base, repo, mod, impls, l2, n)) <==> Parseable(base) && AllParse(impls[..n])
  {
    hide Parsed, Parseable, Chained;
    if n > 0 {
      ImplsParse(base, repo, mod, impls, l2, n - 1);
      var b := AddImpls(base, repo, mod, impls, l2, n - 1);
      ParseableGrows(b, AddImpls(base, repo, mod, impls, l2, n)[|b|]);
      assert impls[..n] == impls[..n - 1] + [impls[n - 1]];
      assert AllParse(impls[..n]) <==> AllParse(impls[..n - 1]) && Parsed(impls[n - 1]).Ok? by {
        assert forall k :: 0 <= k < n - 1 ==> impls[..n - 1][k] == impls[..n][k];
      }
    }
  }

  ghost predicate ModulesParse(brief: TaskBrief, repo: string, n: nat)
    requires n <= |ModulesOf(brief, repo)|
  {
    forall m :: 0 <= m < n ==> AllParse(ImplsOf(brief, repo, ModulesOf(brief, repo)[m]))
  }

  lemma {:induction false} ModulesParseIff(base: seq<Node>, brief: TaskBrief, repo: string, l1: nat, n: nat)
    requires n <= |ModulesOf(brief, repo)|
    ensures Parseable(AddModules(base, brief, repo, l1, n)) <==> Parseable(base) && ModulesParse(brief, repo, n)
  {
    hide Parsed, Parseable, AddImpls, ImplsOf, ModulesOf, AllParse;
    if n > 0 {
      ModulesParseIff(base, brief, repo, l1, n - 1);
      var b := AddModules(base, brief, repo, l1, n - 1);
      var mod := ModulesOf(brief, repo)[n - 1];
      var prev := if n > 1 then Some(|AddModules(base, brief, repo, l1, n - 2)|) else None;
      var lead := Node(L2_ModuleLead, repo, mod, "", l1, prev);
      var impls := ImplsOf(brief, repo, mod);
      ParseableGrows(b, lead);
      ImplsParse(b + [lead], repo, mod, impls, |b|, |impls|);
      assert impls[..|impls|] == impls;
    }
  }

  ghost predicate ReposParse(brief: TaskBrief, n: nat)
    requires n <= |brief.repos|
  {
    forall r :: 0 <= r < n ==> ModulesParse(brief, brief.repos[r], |ModulesOf(brief, brief.repos[r])|)
  }

  lemma RootParses()
    ensures Parseable([ROOT])
  {
  }

  lemma {:induction false} ReposParseIff(brief: TaskBrief, n: nat)
    requires n <= |brief.repos|
    ensures Parseable(AddRepos(brief, n)) <==> ReposParse(brief, n)
  {
    hide Parsed, Parseable, AddModules, ModulesOf, ModulesParse;
    if n == 0 {
      RootParses();
    } else {
      ReposParseIff(brief, n - 1);
      var b, repo := AddRepos(brief, n - 1), brief.repos[n - 1];
      var lead := Node(L1_ComponentLead, repo, "", "", 0, None);
      ParseableGrows(b, lead);
      ModulesParseIff(b + [lead], brief, repo, |b|, |ModulesOf(brief, repo)|);
    }
  }

  /** The brief lists the text s for a module of one of its repos. */
  ghost predicate Lists(brief: TaskBrief, repo: string, mod: string, s: string) {
    && repo in brief.repos
    && (if repo in brief.modules && |brief.modules[repo]| > 0 then mod in brief.modules[repo] else mod == "core")
    && repo in brief.impls && mod in brief.impls[repo] && s in brief.impls[repo][mod]
  }

  lemma DefaultParses(mod: string)
    ensures AllParse(["Implement " + mod])
  {
    hide Parsed;
    assert ("Implement " + mod)[0] == 'I';
    NoReference("Implement " + mod);
  }

  lemma ListsParse(brief: TaskBrief, repo: string, m: nat)
    requires repo in brief.repos && m < |ModulesOf(brief, repo)|
    ensures
      var mod := ModulesOf(brief, repo)[m];
      AllParse(ImplsOf(brief, repo, mod)) <==> forall s :: Lists(brief, repo, mod, s) ==> Parsed(s).Ok?
  {
    hide Parsed;
    var mod := ModulesOf(brief, repo)[m];
    var impls := ImplsOf(brief, repo, mod);
    DefaultParses(mod);
    assert mod in ModulesOf(brief, repo);
    if AllParse(impls) {
      forall s | Lists(brief, repo, mod, s) ensures Parsed(s).Ok? {
        assert s in impls;
      }
    } else {
      var k :| 0 <= k < |impls| && !Parsed(impls[k]).Ok?;
      assert Lists(brief, repo, mod, impls[k]);
    }
  }

  /** A brief can be planned exactly when every text it lists for its repos and modules can be read. */
  lemma ParseableIff(brief: TaskBrief)
    ensures Parseable(Skeleton(brief)) <==> forall repo, mod, s :: Lists(brief, repo, mod, s) ==> Parsed(s).Ok?
  {
    ReposParseIff(brief, |brief.repos|);
    hide Parsed, Parseable, AddRepos, AllParse;
    if forall repo, mod, s :: Lists(brief, repo, mod, s) ==> Parsed(s).Ok? {
      forall r, m | 0 <= r < |brief.repos| && 0 <= m < |ModulesOf(brief, brief.repos[r])|
        ensures AllParse(ImplsOf(brief, brief.repos[r], ModulesOf(brief, brief.repos[r])[m]))
      {
        ListsParse(brief, brief.repos[r], m);
      }
    }
    if ReposParse(brief, |brief.repos|) {
      forall repo, mod, s | Lists(brief, repo, mod, s) ensures Parsed(s).Ok? {
        var r :| 0 <= r < |brief.repos| && brief.repos[r] == repo;
        assert mod in ModulesOf(brief, repo);
        var m :| 0 <= m < |ModulesOf(brief, repo)| && ModulesOf(brief, repo)[m] == mod;
        assert ModulesParse(brief, repo, |ModulesOf(brief, repo)|);
        ListsParse(brief, repo, m);
      }
    }
  }
}
