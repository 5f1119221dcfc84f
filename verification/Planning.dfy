/** PlanningBreakdown: a brief becomes a list of linked tasks. */
module Planning {
  import opened Common
  import opened HmasTypes
  import opened ImplRefs
  import opened PlanSkeleton

  /** A brief, the fresh ids handed out by generate_uuid in order, and the creation time. */
  datatype Plan = Plan(brief: TaskBrief, ids: seq<string>, createdAt: string)

  ghost predicate EnoughIds(p: Plan) {
    && PlanSize(p.brief) <= |p.ids|
    && (forall i :: 0 <= i < |p.ids| ==> p.ids[i] != "")
    && Distinct(p.ids)
  }

  // ---------------------------------------------------------- the first pass

  function Subject(p: Plan, n: Node): string {
    match n.layer
    case L0_ChiefArchitect => p.brief.title
    case L1_ComponentLead => p.brief.title + " [" + n.repo + "]"
    case L2_ModuleLead => p.brief.title + " [" + n.repo + "/" + n.moduleName + "]"
    case L3_TaskAgent => n.text
  }

  function Description(p: Plan, n: Node): string {
    match n.layer
    case L0_ChiefArchitect => p.brief.description
    case L1_ComponentLead => "Coordinate implementation for repo: " + n.repo
    case L2_ModuleLead => "Lead module implementation: " + n.moduleName + " in " + n.repo
    case L3_TaskAgent => n.text
  }

  function IssueOf(n: Node): nat {
    if n.layer.L3_TaskAgent? && Parsed(n.text).Ok? then Parsed(n.text).value.issue else 0
  }

  predicate Bound(p: Plan, n: Node) {
    n.parent < |p.ids| && (n.prev.Some? ==> n.prev.value < |p.ids|)
  }

  /** The blockers a task is created with: its parent, then the sibling it is chained behind. */
  function Blockers(p: Plan, n: Node): seq<string>
    requires Bound(p, n)
  {
    if n.layer.L0_ChiefArchitect? then []
    else [p.ids[n.parent]] + if n.prev.Some? then [p.ids[n.prev.value]] else []
  }

  function NewTask(p: Plan, n: Node, id: string): HmasTask
    requires Bound(p, n)
  {
    HmasTask(id, p.brief.id, if n.layer.L0_ChiefArchitect? then "" else p.ids[n.parent], n.layer, Pending,
             Subject(p, n), Description(p, n), n.repo, n.moduleName, IssueOf(n), "",
             Blockers(p, n), [], [], p.createdAt, "")
  }

  predicate IsChild(n: Node, i: nat) {
    !n.layer.L0_ChiefArchitect? && n.parent == i
  }

  /** Ids of the children of node i among the first n nodes, in order. */
  function ChildIds(p: Plan, nodes: seq<Node>, i: nat, n: nat): seq<string>
    requires n <= |nodes| <= |p.ids|
  {
    if n == 0 then []
    else ChildIds(p, nodes, i, n - 1) + if IsChild(nodes[n - 1], i) then [p.ids[n - 1]] else []
  }

  ghost predicate Sized(p: Plan, nodes: seq<Node>) {
    |nodes| <= |p.ids| && WellFormed(nodes)
  }

  lemma NodesBound(p: Plan, nodes: seq<Node>, i: nat)
    requires Sized(p, nodes) && i < |nodes|
    ensures Bound(p, nodes[i])
    ensures nodes[i].layer.L0_ChiefArchitect? <==> i == 0
    ensures i > 0 ==> nodes[i].parent < i && nodes[nodes[i].parent].layer == Up(nodes[i].layer)
    ensures i > 0 && nodes[i].prev.Some? ==> nodes[i].prev.value < i && Siblings(nodes[nodes[i].prev.value], nodes[i])
  {
    if i > 0 {
      assert Fits(nodes[..i], nodes[i]);
    }
  }

  /** Task number i of the first pass: what its node says, linked to all children of its node. */
  ghost function TaskAt(p: Plan, nodes: seq<Node>, i: nat): HmasTask
    requires Sized(p, nodes) && i < |nodes|
  {
    NodesBound(p, nodes, i);
    NewTask(p, nodes[i], p.ids[i]).(childTaskIds := ChildIds(p, nodes, i, |nodes|))
  }

  ghost predicate Built(p: Plan, nodes: seq<Node>, tasks: seq<HmasTask>) {
    && Sized(p, nodes)
    && |tasks| == |nodes|
    && forall i :: 0 <= i < |nodes| ==> tasks[i] == TaskAt(p, nodes, i)
  }

  lemma {:induction false} ChildIdsGrow(p: Plan, nodes: seq<Node>, node: Node, i: nat, n: nat)
    requires n <= |nodes| < |p.ids|
    ensures ChildIds(p, nodes + [node], i, n) == ChildIds(p, nodes, i, n)
  {
    if n > 0 {
      ChildIdsGrow(p, nodes, node, i, n - 1);
    }
  }

  lemma {:induction false} NoChildrenYet(p: Plan, nodes: seq<Node>, n: nat)
    requires Sized(p, nodes) && n <= |nodes|
    ensures ChildIds(p, nodes, |nodes|, n) == []
  {
    if n > 0 {
      NodesBound(p, nodes, n - 1);
      NoChildrenYet(p, nodes, n - 1);
    }
  }

  /** One more task at the end, linked from its parent, as every level of the breakdown does it. */
  function Linked(tasks: seq<HmasTask>, parent: nat, task: HmasTask): seq<HmasTask>
    requires parent < |tasks|
  {
    tasks[parent := tasks[parent].(childTaskIds := tasks[parent].childTaskIds + [task.id])] + [task]
  }

  /** A task that was there before gains a child exactly when the new node hangs under it. */
  lemma TaskGrows(p: Plan, nodes: seq<Node>, node: Node, i: nat)
    requires Sized(p, nodes) && |nodes| < |p.ids| && i < |nodes|
    requires Sized(p, nodes + [node]) && !node.layer.L0_ChiefArchitect?
    ensures
      var t := TaskAt(p, nodes, i);
      TaskAt(p, nodes + [node], i) ==
      if i == node.parent then t.(childTaskIds := t.childTaskIds + [p.ids[|nodes|]]) else t
  {
    hide WellFormed;
    NodesBound(p, nodes, i);
    ChildIdsGrow(p, nodes, node, i, |nodes|);
    assert (nodes + [node])[i] == nodes[i];
  }

  lemma TaskBorn(p: Plan, nodes: seq<Node>, node: Node)
    requires Sized(p, nodes) && |nodes| < |p.ids| && Bound(p, node)
    requires Sized(p, nodes + [node]) && node.parent < |nodes|
    ensures TaskAt(p, nodes + [node], |nodes|) == NewTask(p, node, p.ids[|nodes|])
  {
    hide WellFormed;
    ChildIdsGrow(p, nodes, node, |nodes|, |nodes|);
    NoChildrenYet(p, nodes, |nodes|);
  }

  /** Appending a task and linking it from its parent builds the plan with one more node. */
  lemma BuiltGrows(p: Plan, nodes: seq<Node>, tasks: seq<HmasTask>, node: Node, task: HmasTask)
    requires Built(p, nodes, tasks) && Fits(nodes, node) && |nodes| < |p.ids| && Bound(p, node)
    requires task == NewTask(p, node, p.ids[|nodes|])
    ensures Built(p, nodes + [node], Linked(tasks, node.parent, task))
  {
    var more := nodes + [node];
    WellFormedGrows(nodes, node);
    hide WellFormed, TaskAt;
    var out := Linked(tasks, node.parent, task);
    forall i | 0 <= i < |more| ensures out[i] == TaskAt(p, more, i) {
      if i < |nodes| {
        TaskGrows(p, nodes, node, i);
      } else {
        TaskBorn(p, nodes, node);
      }
    }
  }

  /** No issue number of the plan is out of the range of int. */
  ghost predicate Parseable(nodes: seq<Node>) {
    forall i :: 0 <= i < |nodes| && nodes[i].layer.L3_TaskAgent? ==> Parsed(nodes[i].text).Ok?
  }

  lemma ParseablePrefix(a: seq<Node>, b: seq<Node>)
    requires a <= b && Parseable(b)
    ensures Parseable(a)
  {
    assert forall i :: 0 <= i < |a| ==> a[i] == b[i];
  }

  lemma ImplParse(base: seq<Node>, repo: string, mod: string, impls: seq<string>, l2: nat, n: nat)
    requires n < |impls| && Parseable(AddImpls(base, repo, mod, impls, l2, n))
    ensures Parsed(impls[n]).Ok? ==> Parseable(AddImpls(base, repo, mod, impls, l2, n + 1))
    ensures Parsed(impls[n]).Err? ==> !Parseable(AddImpls(base, repo, mod, impls, l2, |impls|))
  {
    hide Parsed;
    var nodes := AddImpls(base, repo, mod, impls, l2, n);
    var more := AddImpls(base, repo, mod, impls, l2, n + 1);
    assert more[|nodes|].text == impls[n] && more[|nodes|].layer.L3_TaskAgent?;
    ImplsPrefix(base, repo, mod, impls, l2, n + 1, |impls|);
    if Parsed(impls[n]).Err? {
      UnparseablePrefix(more, AddImpls(base, repo, mod, impls, l2, |impls|));
    }
  }

  lemma UnparseablePrefix(a: seq<Node>, b: seq<Node>)
    requires a <= b && !Parseable(a)
    ensures !Parseable(b)
  {
    if Parseable(b) {
      ParseablePrefix(a, b);
    }
  }

  /** An L3 task as the breakdown writes it down. */
  function L3Task(p: Plan, repo: string, mod: string, text: string, l2: nat, ref: ImplRef, prevL3: string, id: string): HmasTask
    requires l2 < |p.ids|
  {
    HmasTask(id, p.brief.id, p.ids[l2], L3_TaskAgent, Pending, text, text, repo, mod, ref.issue, "",
             [p.ids[l2]] + if !ref.hasExplicitDeps && prevL3 != "" then [prevL3] else [],
             [], [], p.createdAt, "")
  }

  ghost predicate ImplsBuilt(p: Plan, repo: string, mod: string, impls: seq<string>, l2: nat, base: seq<Node>,
                             n: nat, tasks: seq<HmasTask>, prevL3: string) {
    && n <= |impls|
    && Built(p, AddImpls(base, repo, mod, impls, l2, n), tasks)
    && |tasks| == |base| + n
    && 0 < |tasks| <= |p.ids|
    && prevL3 == (if n == 0 then "" else p.ids[|tasks| - 1])
  }

  lemma L3Added(p: Plan, repo: string, mod: string, impls: seq<string>, l2: nat, base: seq<Node>,
                n: nat, tasks: seq<HmasTask>, prevL3: string)
    requires EnoughIds(p) && WellFormed(base) && |base| + |impls| <= |p.ids|
    requires l2 + 1 == |base| && base[l2].layer.L2_ModuleLead?
    requires ImplsBuilt(p, repo, mod, impls, l2, base, n, tasks, prevL3)
    requires n < |impls| && Parsed(impls[n]).Ok?
    ensures
      var id := p.ids[|tasks|];
      var l3 := L3Task(p, repo, mod, impls[n], l2, Parsed(impls[n]).value, prevL3, id);
      ImplsBuilt(p, repo, mod, impls, l2, base, n + 1, Linked(tasks, l2, l3), id)
  {
    hide WellFormed, Built, Parsed;
    var nodes := AddImpls(base, repo, mod, impls, l2, n);
    var more := AddImpls(base, repo, mod, impls, l2, n + 1);
    ImplsAdded(base, repo, mod, impls, l2, n);
    ImplsAdded(base, repo, mod, impls, l2, n + 1);
    var node := more[|nodes|];
    LastFits(p, more);
    assert more[..|nodes|] == nodes && more == nodes + [node];
    hide Fits;
    var id := p.ids[|tasks|];
    var l3 := L3Task(p, repo, mod, impls[n], l2, Parsed(impls[n]).value, prevL3, id);
    L3TaskIsNew(p, node, Parsed(impls[n]).value, prevL3, id);
    hide L3Task, NewTask;
    BuiltGrows(p, nodes, tasks, node, l3);
  }

  lemma L3TaskIsNew(p: Plan, node: Node, ref: ImplRef, prevL3: string, id: string)
    requires node.layer.L3_TaskAgent? && Bound(p, node) && Parsed(node.text) == Ok(ref)
    requires node.prev.Some? <==> !ref.hasExplicitDeps && prevL3 != ""
    requires node.prev.Some? ==> prevL3 == p.ids[node.prev.value]
    ensures L3Task(p, node.repo, node.moduleName, node.text, node.parent, ref, prevL3, id) == NewTask(p, node, id)
  {
    hide Parsed;
  }

  /** The L3 loop: one task per implementation string of a module. */
  method AddL3(p: Plan, repo: string, mod: string, impls: seq<string>, l2: nat, tasks0: seq<HmasTask>, ghost base: seq<Node>)
    returns (r: Result<seq<HmasTask>, ParseError>)
    requires EnoughIds(p) && Built(p, base, tasks0) && |base| + |impls| <= |p.ids|
    requires l2 + 1 == |base| && base[l2].layer.L2_ModuleLead? && Parseable(base)
    ensures r.Ok? <==> Parseable(AddImpls(base, repo, mod, impls, l2, |impls|))
    ensures r.Ok? ==> Built(p, AddImpls(base, repo, mod, impls, l2, |impls|), r.value)
  {
    hide EnoughIds, WellFormed, Built, Parsed, L3Task, Linked, Parseable;
    BuiltFacts(p, base, tasks0);
    var tasks := tasks0;
    var prevL3 := "";
    var n := 0;
    while n < |impls|
      invariant 0 <= n <= |impls| && Parseable(AddImpls(base, repo, mod, impls, l2, n))
      invariant ImplsBuilt(p, repo, mod, impls, l2, base, n, tasks, prevL3)
    {
      var id := p.ids[|tasks|];
      var ref := ParseImplRef(impls[n]);
      ImplParse(base, repo, mod, impls, l2, n);
      if ref.Err? {
        return Err(ref.error);
      }
      L3Added(p, repo, mod, impls, l2, base, n, tasks, prevL3);
      tasks := Linked(tasks, l2, L3Task(p, repo, mod, impls[n], l2, ref.value, prevL3, id));
      prevL3 := id;
      n := n + 1;
    }
    r := Ok(tasks);
  }

  lemma BuiltFacts(p: Plan, nodes: seq<Node>, tasks: seq<HmasTask>)
    requires Built(p, nodes, tasks)
    ensures WellFormed(nodes) && nodes != [] && |tasks| == |nodes| <= |p.ids|
  {
  }

  lemma LastFits(p: Plan, nodes: seq<Node>)
    requires WellFormed(nodes) && 1 < |nodes| <= |p.ids|
    ensures Fits(nodes[..|nodes| - 1], nodes[|nodes| - 1]) && Bound(p, nodes[|nodes| - 1])
  {
  }

  // ------------------------------------------------------------ the L2 loop

  function L2Task(p: Plan, repo: string, mod: string, l1: nat, prevL2: string, id: string): HmasTask
    requires l1 < |p.ids|
  {
    HmasTask(id, p.brief.id, p.ids[l1], L2_ModuleLead, Pending,
             p.brief.title + " [" + repo + "/" + mod + "]",
             "Lead module implementation: " + mod + " in " + repo, repo, mod, 0, "",
             [p.ids[l1]] + if prevL2 != "" then [prevL2] else [],
             [], [], p.createdAt, "")
  }

  ghost function ModuleLead(p: Plan, repo: string, l1: nat, base: seq<Node>, n: nat): Node
    requires n < |ModulesOf(p.brief, repo)|
  {
    Node(L2_ModuleLead, repo, ModulesOf(p.brief, repo)[n], "", l1,
         if n > 0 then Some(|AddModules(base, p.brief, repo, l1, n - 1)|) else None)
  }

  ghost predicate ModulesBuilt(p: Plan, repo: string, l1: nat, base: seq<Node>, n: nat, tasks: seq<HmasTask>, prevL2: string) {
    && n <= |ModulesOf(p.brief, repo)|
    && Built(p, AddModules(base, p.brief, repo, l1, n), tasks)
    && (n > 0 ==> |AddModules(base, p.brief, repo, l1, n - 1)| < |p.ids|)
    && prevL2 == (if n == 0 then "" else p.ids[|AddModules(base, p.brief, repo, l1, n - 1)|])
  }

  lemma {:induction false} ModulesSizeGrows(brief: TaskBrief, repo: string, m: nat, n: nat)
    requires m <= n <= |ModulesOf(brief, repo)|
    ensures ModulesSize(brief, repo, m) <= ModulesSize(brief, repo, n)
  {
    if m < n {
      ModulesSizeGrows(brief, repo, m, n - 1);
    }
  }

  lemma L2Added(p: Plan, repo: string, l1: nat, base: seq<Node>, n: nat, tasks: seq<HmasTask>, prevL2: string)
    requires EnoughIds(p) && WellFormed(base) && l1 + 1 == |base| && base[l1].layer.L1_ComponentLead?
    requires |base| + ModulesSize(p.brief, repo, |ModulesOf(p.brief, repo)|) <= |p.ids|
    requires n < |ModulesOf(p.brief, repo)| && ModulesBuilt(p, repo, l1, base, n, tasks, prevL2)
    ensures |tasks| < |p.ids| && l1 < |tasks|
    ensures
      var mod := ModulesOf(p.brief, repo)[n];
      var b := AddModules(base, p.brief, repo, l1, n);
      var led := b + [ModuleLead(p, repo, l1, base, n)];
      var impls := ImplsOf(p.brief, repo, mod);
      && Built(p, led, Linked(tasks, l1, L2Task(p, repo, mod, l1, prevL2, p.ids[|tasks|])))
      && |led| + |impls| <= |p.ids|
      && |tasks| == |b|
      && AddModules(base, p.brief, repo, l1, n + 1) == AddImpls(led, repo, mod, impls, |b|, |impls|)
  {
    hide WellFormed, ModulesOf, ImplsOf;
    var b := AddModules(base, p.brief, repo, l1, n);
    ModulesAdded(base, p.brief, repo, l1, n);
    ModulesSizeGrows(p.brief, repo, n + 1, |ModulesOf(p.brief, repo)|);
    var lead := ModuleLead(p, repo, l1, base, n);
    assert b[l1] == base[l1];
    assert Fits(b, lead) && Bound(p, lead);
    L2TaskIsNew(p, lead, prevL2, p.ids[|b|]);
    hide Built, L2Task, NewTask, Fits, AddImpls;
    BuiltGrows(p, b, tasks, lead, NewTask(p, lead, p.ids[|b|]));
  }

  lemma L2TaskIsNew(p: Plan, lead: Node, prevL2: string, id: string)
    requires lead.layer.L2_ModuleLead? && lead.text == "" && Bound(p, lead)
    requires prevL2 == (if lead.prev.Some? then p.ids[lead.prev.value] else "")
    requires lead.prev.Some? ==> prevL2 != ""
    ensures L2Task(p, lead.repo, lead.moduleName, lead.parent, prevL2, id) == NewTask(p, lead, id)
  {
  }

  /** The L2 loop: one lead per module of a repo, each with its implementations. */
  method AddL2(p: Plan, repo: string, l1: nat, tasks0: seq<HmasTask>, ghost base: seq<Node>)
    returns (r: Result<seq<HmasTask>, ParseError>)
    requires EnoughIds(p) && Built(p, base, tasks0) && Parseable(base)
    requires l1 + 1 == |base| && base[l1].layer.L1_ComponentLead?
    requires |base| + ModulesSize(p.brief, repo, |ModulesOf(p.brief, repo)|) <= |p.ids|
    ensures
      var nodes := AddModules(base, p.brief, repo, l1, |ModulesOf(p.brief, repo)|);
      (r.Ok? <==> Parseable(nodes)) && (r.Ok? ==> Built(p, nodes, r.value))
  {
    hide EnoughIds, WellFormed, Built, Linked, L2Task, Parseable, ImplsOf, AddImpls, ModulesSize;
    BuiltFacts(p, base, tasks0);
    var tasks := tasks0;
    var modules := ModulesOf(p.brief, repo);
    var prevL2 := "";
    var n := 0;
    while n < |modules|
      invariant 0 <= n <= |modules|
      invariant ModulesBuilt(p, repo, l1, base, n, tasks, prevL2)
      invariant Parseable(AddModules(base, p.brief, repo, l1, n))
    {
      var mod := modules[n];
      L2Added(p, repo, l1, base, n, tasks, prevL2);
      var id := p.ids[|tasks|];
      ghost var led := AddModules(base, p.brief, repo, l1, n) + [ModuleLead(p, repo, l1, base, n)];
      var l2 := |tasks|;
      LeadParses(AddModules(base, p.brief, repo, l1, n), led[|led| - 1]);
      tasks := Linked(tasks, l1, L2Task(p, repo, mod, l1, prevL2, id));
      prevL2 := id;
      var impls := ImplsOf(p.brief, repo, mod);
      var filled := AddL3(p, repo, mod, impls, l2, tasks, led);
      ModulesPrefix(base, p.brief, repo, l1, n + 1, |modules|);
      if filled.Err? {
        UnparseablePrefix(AddModules(base, p.brief, repo, l1, n + 1), AddModules(base, p.brief, repo, l1, |modules|));
        return Err(filled.error);
      }
      tasks := filled.value;
      n := n + 1;
    }
    r := Ok(tasks);
  }

  lemma LeadParses(nodes: seq<Node>, lead: Node)
    requires Parseable(nodes) && !lead.layer.L3_TaskAgent?
    ensures Parseable(nodes + [lead])
  {
  }

  // ------------------------------------------------------------ the L1 loop

  function L1Task(p: Plan, repo: string, id: string): HmasTask
    requires p.ids != []
  {
    HmasTask(id, p.brief.id, p.ids[0], L1_ComponentLead, Pending, p.brief.title + " [" + repo + "]",
             "Coordinate implementation for repo: " + repo, repo, "", 0, "", [p.ids[0]], [], [], p.createdAt, "")
  }

  function RootTask(p: Plan): HmasTask
    requires p.ids != []
  {
    HmasTask(p.ids[0], p.brief.id, "", L0_ChiefArchitect, Pending, p.brief.title, p.brief.description,
             "", "", 0, "", [], [], [], p.createdAt, "")
  }

  lemma {:induction false} ReposSizeGrows(brief: TaskBrief, m: nat, n: nat)
    requires m <= n <= |brief.repos|
    ensures ReposSize(brief, m) <= ReposSize(brief, n)
  {
    if m < n {
      ReposSizeGrows(brief, m, n - 1);
    }
  }

  ghost function RepoLead(repo: string): Node {
    Node(L1_ComponentLead, repo, "", "", 0, None)
  }

  lemma L1Added(p: Plan, n: nat, tasks: seq<HmasTask>)
    requires EnoughIds(p) && n < |p.brief.repos| && Built(p, AddRepos(p.brief, n), tasks)
    ensures |tasks| < |p.ids| && tasks != []
    ensures
      var repo := p.brief.repos[n];
      var b := AddRepos(p.brief, n);
      var led := b + [RepoLead(repo)];
      && |led| == |b| + 1 && led[|b|] == RepoLead(repo)
      && Built(p, led, Linked(tasks, 0, L1Task(p, repo, p.ids[|tasks|])))
      && |led| + ModulesSize(p.brief, repo, |ModulesOf(p.brief, repo)|) <= |p.ids|
      && |tasks| == |b|
      && AddRepos(p.brief, n + 1) == AddModules(led, p.brief, repo, |b|, |ModulesOf(p.brief, repo)|)
  {
    hide ModulesOf, ModulesSize, AddModules;
    var b := AddRepos(p.brief, n);
    ReposAdded(p.brief, n);
    ReposSizeGrows(p.brief, n + 1, |p.brief.repos|);
    var repo := p.brief.repos[n];
    assert b[0] == ROOT;
    assert L1Task(p, repo, p.ids[|b|]) == NewTask(p, RepoLead(repo), p.ids[|b|]);
    hide Built, WellFormed;
    BuiltGrows(p, b, tasks, RepoLead(repo), L1Task(p, repo, p.ids[|b|]));
  }

  lemma RootBuilt(p: Plan)
    requires p.ids != []
    ensures Built(p, AddRepos(p.brief, 0), [RootTask(p)]) && Parseable(AddRepos(p.brief, 0))
  {
    assert ChildIds(p, [ROOT], 0, 1) == ChildIds(p, [ROOT], 0, 0) == [];
  }

  /** The nodes so far and the lead of the next repo. */
  ghost function Led(p: Plan, n: nat): seq<Node>
    requires n < |p.brief.repos|
  {
    AddRepos(p.brief, n) + [RepoLead(p.brief.repos[n])]
  }

  /** One turn of the loop over repos: what the module loop needs, and what it then gives. */
  lemma RepoStep(p: Plan, n: nat, tasks: seq<HmasTask>)
    requires EnoughIds(p) && n < |p.brief.repos|
    requires Built(p, AddRepos(p.brief, n), tasks) && Parseable(AddRepos(p.brief, n))
    ensures |tasks| < |p.ids| && tasks != []
    ensures
      var repo, led := p.brief.repos[n], Led(p, n);
      && Built(p, led, Linked(tasks, 0, L1Task(p, repo, p.ids[|tasks|]))) && Parseable(led)
      && |tasks| + 1 == |led| && led[|tasks|].layer.L1_ComponentLead?
      && |led| + ModulesSize(p.brief, repo, |ModulesOf(p.brief, repo)|) <= |p.ids|
      && AddRepos(p.brief, n + 1) == AddModules(led, p.brief, repo, |tasks|, |ModulesOf(p.brief, repo)|)
    ensures !Parseable(AddRepos(p.brief, n + 1)) ==> !Parseable(Skeleton(p.brief))
  {
    hide EnoughIds, WellFormed, Built, Linked, L1Task, Parseable, ModulesOf, AddRepos, AddModules, ModulesSize;
    L1Added(p, n, tasks);
    LeadParses(AddRepos(p.brief, n), RepoLead(p.brief.repos[n]));
    ReposPrefix(p.brief, n + 1, |p.brief.repos|);
    if !Parseable(AddRepos(p.brief, n + 1)) {
      UnparseablePrefix(AddRepos(p.brief, n + 1), Skeleton(p.brief));
    }
  }

  lemma SkeletonIsAllRepos(brief: TaskBrief)
    ensures Skeleton(brief) == AddRepos(brief, |brief.repos|)
  {
  }

  /**
   Everything but the dependency post-pass: fails exactly when an issue number is out of range,
   and otherwise lists the tasks of the skeleton in order, each linked to its children.
   */
  method AddL1(p: Plan) returns (r: Result<seq<HmasTask>, ParseError>)
    requires EnoughIds(p)
    ensures r.Ok? <==> Parseable(Skeleton(p.brief))
    ensures r.Ok? ==> Built(p, Skeleton(p.brief), r.value)
  {
    assert p.ids != [];
    hide *;
    RootBuilt(p);
    var tasks := [RootTask(p)];
    var n := 0;
    while n < |p.brief.repos|
      invariant 0 <= n <= |p.brief.repos|
      invariant Built(p, AddRepos(p.brief, n), tasks) && Parseable(AddRepos(p.brief, n))
    {
      var repo := p.brief.repos[n];
      RepoStep(p, n, tasks);
      var l1 := |tasks|;
      ghost var led := Led(p, n);
      tasks := Linked(tasks, 0, L1Task(p, repo, p.ids[l1]));
      var filled := AddL2(p, repo, l1, tasks, led);
      if filled.Err? {
        return Err(filled.error);
      }
      tasks := filled.value;
      n := n + 1;
    }
    SkeletonIsAllRepos(p.brief);
    r := Ok(tasks);
  }
}
