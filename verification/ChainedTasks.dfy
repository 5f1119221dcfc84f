/**
 Tasks chained behind a sibling: only their parent lists them, and when the parent completes the
 sibling has not run yet, so it takes a second completion report of the parent to dispatch them.
 */
module ChainedTasks {
  import opened Common
  import opened HmasTypes
  import opened StateMachine
  import opened ImplRefs
  import opened PlanSkeleton
  import opened Planning
  import opened Protocol
  import opened ProtocolRuns
  import opened Breakdown
  import PlanCycles
  import Deadlocks

  // ------------------------------------------- chained tasks have no annotation

  ghost predicate ChainsArePlain(nodes: seq<Node>) {
    forall i :: 0 <= i < |nodes| && nodes[i].layer.L3_TaskAgent? && nodes[i].prev.Some? ==> Chained(nodes[i].text)
  }

  lemma {:induction false} ImplChains(base: seq<Node>, repo: string, mod: string, impls: seq<string>, l2: nat, n: nat)
    requires n <= |impls| && ChainsArePlain(base)
    ensures ChainsArePlain(AddImpls(base, repo, mod, impls, l2, n))
  {
    hide Chained;
    if n > 0 {
      ImplChains(base, repo, mod, impls, l2, n - 1);
    }
  }

  lemma {:induction false} ModuleChains(base: seq<Node>, brief: TaskBrief, repo: string, l1: nat, n: nat)
    requires n <= |ModulesOf(brief, repo)| && ChainsArePlain(base)
    ensures ChainsArePlain(AddModules(base, brief, repo, l1, n))
  {
    hide Chained, ModulesOf, ImplsOf, AddImpls;
    if n > 0 {
      ModuleChains(base, brief, repo, l1, n - 1);
      var b := AddModules(base, brief, repo, l1, n - 1);
      var mod := ModulesOf(brief, repo)[n - 1];
      var prev := if n > 1 then Some(|AddModules(base, brief, repo, l1, n - 2)|) else None;
      var impls := ImplsOf(brief, repo, mod);
      ImplChains(b + [Node(L2_ModuleLead, repo, mod, "", l1, prev)], repo, mod, impls, |b|, |impls|);
    }
  }

  lemma {:induction false} RepoChains(brief: TaskBrief, n: nat)
    requires n <= |brief.repos|
    ensures ChainsArePlain(AddRepos(brief, n))
  {
    hide Chained, ModulesOf, AddModules;
    if n > 0 {
      RepoChains(brief, n - 1);
      var b, repo := AddRepos(brief, n - 1), brief.repos[n - 1];
      ModuleChains(b + [Node(L1_ComponentLead, repo, "", "", 0, None)], brief, repo, |b|, |ModulesOf(brief, repo)|);
    }
  }

  lemma PlainHasNoDeps(text: string)
    requires Chained(text)
    ensures Parsed(text).value.dependsOn == []
  {
  }

  lemma NoAnnotations(p: Plan, a: nat, b: nat, c: nat)
    requires EnoughIds(p) && ChainedBehind(p, a, b)
    ensures !AnnotatedEdge(p, a, c)
  {
    RepoChains(p.brief, |p.brief.repos|);
    hide Chained, Parsed, EnoughIds, AddRepos;
    var n := Skeleton(p.brief)[a];
    if n.layer.L3_TaskAgent? {
      PlainHasNoDeps(n.text);
    }
    assert PlanCycles.NodeDeps(n) == [];
    PlanCycles.AnnotatedIsNodeEdge(p, a, c);
  }

  // ------------------------------------------------------------- the situation

  /** Only q lists x as a child. */
  ghost predicate OnlyLister(w: World, x: string, q: string) {
    forall id :: id in w.tasks && x in w.tasks[id].childTaskIds ==> id == q
  }

  /** x waits for its sibling b, which waits for their parent q. */
  ghost predicate ChainWaits(w: World, x: string, b: string, q: string) {
    && x in w.tasks && w.tasks[x].state.Pending? && b in w.tasks[x].blockedBy
    && b in w.tasks && q in w.tasks[b].blockedBy
    && OnlyLister(w, x, q)
  }

  /** The completion of a task that is Completed already is reported again. */
  ghost predicate Repeats(w: World, step: Step, q: string) {
    step.Completion? && step.id == q && q in w.tasks && w.tasks[q].state.Completed?
  }

  // --------------------------------------------------------------- child lists

  lemma {:induction false} DelegationKeepsLists(w: World, children: seq<string>, id: string)
    requires id in w.tasks
    ensures
      var v := DelegateChildren(w, children);
      && v.tasks.Keys == w.tasks.Keys
      && v.tasks[id].childTaskIds == w.tasks[id].childTaskIds
      && (id !in children ==> v.tasks[id] == w.tasks[id])
  {
    if children != [] {
      DelegationKeepsLists(w, children[..|children| - 1], id);
    }
  }

  lemma SubmitLists(w: World, p: Plan, ts: seq<HmasTask>, id: string, x: string)
    requires Inv(w) && IsPlan(p, ts) && FreshIds(w, p.ids) && ts != [] && x in w.tasks
    requires id in OnSubmit(w, ts).tasks && x in OnSubmit(w, ts).tasks[id].childTaskIds
    ensures id in w.tasks && x in w.tasks[id].childTaskIds
  {
    hide IsPlan;
    PlanNewcomers(w, p, ts);
    StoredEntries(w.tasks, ts);
    assert !HasId(ts, x);
    assert forall k :: 0 <= k < |ts| ==> x !in ts[k].childTaskIds by {
      forall k | 0 <= k < |ts| ensures x !in ts[k].childTaskIds {
        assert !AnswersIn(ts, x, ts[k].id);
      }
    }
  }

  lemma SplitLists(w: World, y: string, subs: seq<Option<Subtask>>, ids: seq<string>, now: string, id: string, x: string)
    requires FreshIds(w, ids) && |subs| <= |ids| && x in w.tasks
    requires
      var v := OnSplit(w, y, subs, ids, now);
      id in v.tasks && x in v.tasks[id].childTaskIds
    ensures id in w.tasks && x in w.tasks[id].childTaskIds
  {
    if y in w.tasks && subs != [] {
      var n := GoodPrefix(subs);
      var ts := Remainders(w.tasks[y], subs, ids, now, n);
      RemaindersWait(w.tasks[y], subs, ids, now, n);
      hide Remainders, GoodPrefix;
      assert forall k :: 0 <= k < |ts| ==> ts[k].id == ids[k];
      assert DistinctTaskIds(ts);
      StoredEntries(w.tasks, ts);
      assert forall k :: 0 <= k < |ts| ==> ts[k].childTaskIds == [];
      assert x !in ids[..n];
    }
  }

  /** No step puts a stored task on another list. */
  lemma ListsGrowWithNewTasks(w: World, step: Step, id: string, x: string)
    requires Inv(w) && Enabled(w, step) && x in w.tasks
    requires id in Apply(w, step).tasks && x in Apply(w, step).tasks[id].childTaskIds
    ensures id in w.tasks && x in w.tasks[id].childTaskIds
  {
    hide IsPlan, OnSplit, DelegateChildren, Stored;
    match step
    case Submit(p, ts) =>
      PlansAreNotEmpty(p, ts);
      SubmitLists(w, p, ts, id, x);
    case Epic(root) =>
    case Split(y, subs, ids, now) => SplitLists(w, y, subs, ids, now, id, x);
    case Escalate(y, reason, now) =>
    case Completion(y, now) =>
      if y != "" && y in w.tasks {
        var v := Put(w, Finished(w.tasks[y], now));
        if id in v.tasks {
          DelegationKeepsLists(v, w.tasks[y].childTaskIds, id);
        } else {
          DelegationKeepsLists(v, w.tasks[y].childTaskIds, y);
        }
      }
    case Start(y, agent, host) =>
    case Failure(y, now) =>
  }

  // ------------------------------------------------------------------ the step

  /** The first completion of the parent finds the sibling waiting, so the chained task stays. */
  lemma FirstCompletionKeeps(w: World, x: string, b: string, q: string, now: string)
    requires Inv(w) && Safe(w) && now != "" && ChainWaits(w, x, b, q)
    requires q in w.tasks ==> q in w.dispatched && !w.tasks[q].state.Completed?
    ensures
      var v := OnCompletion(w, q, now);
      x in v.tasks && v.tasks[x].state.Pending?
  {
    var step := Step.Completion(q, now);
    if q in w.tasks {
      assert !Clear(w, w.tasks[b]);
      assert w.tasks[b].state.Pending?;
      Deadlocks.WaitingNotCompleted(w, step, b);
      StepKeeps(w, step);
      var v := OnCompletion(w, q, now);
      hide Inv, OnCompletion;
      assert Later(w.tasks[x], v.tasks[x]);
      assert !Clear(v, v.tasks[x]);
    }
  }

  lemma StaysPending(w: World, step: Step, x: string, b: string, q: string)
    requires Inv(w) && Safe(w) && Enabled(w, step) && ReportsDispatched(w, step)
    requires ChainWaits(w, x, b, q) && !Repeats(w, step, q)
    ensures x in Apply(w, step).tasks && Apply(w, step).tasks[x].state.Pending?
  {
    hide IsPlan, OnSplit, DelegateChildren, Stored, Safe;
    match step
    case Submit(p, ts) =>
      PlansAreNotEmpty(p, ts);
      Deadlocks.SubmitLeavesOthers(w, p, ts, x);
    case Epic(root) => assert [root.id][0] == root.id;
    case Split(y, subs, ids, now) => Deadlocks.SplitKeepsState(w, y, subs, ids, now, x);
    case Escalate(y, reason, now) =>
    case Completion(y, now) =>
      if y == q {
        FirstCompletionKeeps(w, x, b, q, now);
      } else if y != "" && y in w.tasks {
        DispatchedLeftPending(w, y);
        DelegationKeepsLists(Put(w, Finished(w.tasks[y], now)), w.tasks[y].childTaskIds, x);
      }
    case Start(y, agent, host) => if y in w.tasks { DispatchedLeftPending(w, y); }
    case Failure(y, now) => if y in w.tasks { DispatchedLeftPending(w, y); }
  }

  lemma ChainStays(w: World, step: Step, x: string, b: string, q: string)
    requires Inv(w) && Safe(w) && Enabled(w, step) && ReportsDispatched(w, step)
    requires ChainWaits(w, x, b, q) && !Repeats(w, step, q)
    ensures ChainWaits(Apply(w, step), x, b, q)
  {
    StepKeeps(w, step);
    StaysPending(w, step, x, b, q);
    var v := Apply(w, step);
    hide Inv, Safe, Enabled, Apply, ReportsDispatched;
    assert Later(w.tasks[x], v.tasks[x]) && Later(w.tasks[b], v.tasks[b]);
    forall id | id in v.tasks && x in v.tasks[id].childTaskIds ensures id == q {
      ListsGrowWithNewTasks(w, step, id, x);
    }
  }

  // ------------------------------------------------------------------- the run

  lemma {:induction false} ChainStaysInRun(worlds: seq<World>, steps: seq<Step>, k: nat, l: nat,
                                           x: string, b: string, q: string)
    requires IsRun(worlds, steps) && WorkersBehave(worlds, steps) && k <= l < |worlds|
    requires ChainWaits(worlds[k], x, b, q)
    requires forall i {:trigger steps[i]} :: k <= i < l ==> !Repeats(worlds[i], steps[i], q)
    ensures ChainWaits(worlds[l], x, b, q)
  {
    hide Inv, Enabled, Apply, Safe, ReportsDispatched, ChainWaits, Repeats;
    if k < l {
      var step := steps[l - 1];
      ChainStaysInRun(worlds, steps, k, l - 1, x, b, q);
      RunKeepsInv(worlds, steps, l - 1);
      RunIsSafe(worlds, steps, l - 1);
      ChainStays(worlds[l - 1], step, x, b, q);
    }
  }

  /** The links of a chained task in its plan. */
  lemma ChainInPlan(p: Plan, ts: seq<HmasTask>, a: nat, b: nat)
    requires IsPlan(p, ts) && ChainedBehind(p, a, b)
    ensures b < a < |ts| && ts[b].id in ts[a].blockedBy && ts[a].parentTaskId in ts[b].blockedBy
    ensures forall c :: 0 <= c < |ts| && ts[a].id in ts[c].childTaskIds ==> ts[c].id == ts[a].parentTaskId
  {
    PlanBasics(p, ts);
    SkeletonShape(p.brief);
    var nodes := Skeleton(p.brief);
    NodesBound(p, nodes, a);
    var q := nodes[a].parent;
    PlanTask(p, ts, a);
    FirstTask(p, a);
    BlockersExactly(p, ts, a, b);
    BlockersExactly(p, ts, b, q);
    hide IsPlan, Skeleton, FirstPass, EnoughIds, AnnotatedEdge, WellFormed, PlanSize, Blockers, ChildIds, Fresh;
    assert ParentOf(p, b, q);
    forall c | 0 <= c < |ts| && ts[a].id in ts[c].childTaskIds ensures ts[c].id == ts[a].parentTaskId {
      ChildrenExactly(p, ts, a, c);
      NoAnnotations(p, a, b, c);
    }
  }

  lemma SubmittedChainWaits(w: World, p: Plan, ts: seq<HmasTask>, a: nat, b: nat)
    requires Inv(w) && IsPlan(p, ts) && FreshIds(w, p.ids) && ChainedBehind(p, a, b)
    ensures b < a < |ts| && ChainWaits(OnSubmit(w, ts), ts[a].id, ts[b].id, ts[a].parentTaskId)
  {
    ChainInPlan(p, ts, a, b);
    hide IsPlan, ChainedBehind, OnSubmit, OnlyLister, Inv, FreshIds;
    SubmittedWaits(w, p, ts, a, ts[b].id);
    SubmittedWaits(w, p, ts, b, ts[a].parentTaskId);
    SubmittedLister(w, p, ts, a);
  }

  lemma SubmittedLister(w: World, p: Plan, ts: seq<HmasTask>, a: nat)
    requires Inv(w) && IsPlan(p, ts) && FreshIds(w, p.ids) && a < |ts|
    requires forall c :: 0 <= c < |ts| && ts[a].id in ts[c].childTaskIds ==> ts[c].id == ts[a].parentTaskId
    ensures OnlyLister(OnSubmit(w, ts), ts[a].id, ts[a].parentTaskId)
  {
    hide IsPlan, FreshIds, Stored, OnSubmit;
    var v, x := OnSubmit(w, ts), ts[a].id;
    PlanIdIsNew(w, p, ts, a);
    forall id | id in v.tasks && x in v.tasks[id].childTaskIds ensures id == ts[a].parentTaskId {
      if HasId(ts, id) {
        var c :| 0 <= c < |ts| && ts[c].id == id;
        SubmittedList(w, p, ts, c);
      } else {
        SubmittedBefore(w, p, ts, id);
      }
    }
  }

  lemma PlanIdIsNew(w: World, p: Plan, ts: seq<HmasTask>, a: nat)
    requires IsPlan(p, ts) && FreshIds(w, p.ids) && a < |ts|
    ensures ts[a].id !in w.tasks
  {
    hide IsPlan;
    PlanNewcomers(w, p, ts);
  }

  /** A task of the plan keeps the child list it was planned with. */
  lemma SubmittedList(w: World, p: Plan, ts: seq<HmasTask>, c: nat)
    requires IsPlan(p, ts) && FreshIds(w, p.ids) && c < |ts|
    ensures ts[c].id in OnSubmit(w, ts).tasks && OnSubmit(w, ts).tasks[ts[c].id].childTaskIds == ts[c].childTaskIds
  {
    hide IsPlan;
    PlanNewcomers(w, p, ts);
    StoredEntries(w.tasks, ts);
    hide FreshIds, Stored;
    if c > 0 {
      assert ts[0].id != ts[c].id;
    }
  }

  lemma SubmittedBefore(w: World, p: Plan, ts: seq<HmasTask>, id: string)
    requires IsPlan(p, ts) && FreshIds(w, p.ids) && ts != [] && id in OnSubmit(w, ts).tasks && !HasId(ts, id)
    ensures id in w.tasks && OnSubmit(w, ts).tasks[id] == w.tasks[id]
  {
    hide IsPlan;
    PlanNewcomers(w, p, ts);
    StoredEntries(w.tasks, ts);
    hide FreshIds, Stored;
    assert ts[0].id != id;
  }

  /**
   A task chained behind a sibling stays Pending and undispatched as long as the completion of its
   parent is not reported again after the parent is Completed.
   */
  lemma ChainedNeedsSecondReport(worlds: seq<World>, steps: seq<Step>, k: nat, l: nat, a: nat, b: nat)
    requires IsRun(worlds, steps) && WorkersBehave(worlds, steps) && k < l < |worlds|
    requires steps[k].Submit? && ChainedBehind(steps[k].plan, a, b) && a < |steps[k].tasks|
    requires forall i {:trigger steps[i]} :: k < i < l ==>
      !Repeats(worlds[i], steps[i], steps[k].tasks[a].parentTaskId)
    ensures
      var x, w := steps[k].tasks[a].id, worlds[l];
      x in w.tasks && w.tasks[x].state.Pending? && x !in w.dispatched
  {
    hide IsPlan, Safe, ReportsDispatched, ChainedBehind, Repeats, OnSubmit;
    var p, ts := steps[k].plan, steps[k].tasks;
    assert Follows(worlds[k], steps[k], worlds[k + 1]);
    PlansAreNotEmpty(p, ts);
    RunKeepsInv(worlds, steps, k);
    SubmittedChainWaits(worlds[k], p, ts, a, b);
    ChainStaysInRun(worlds, steps, k + 1, l, ts[a].id, ts[b].id, ts[a].parentTaskId);
    RunKeepsInv(worlds, steps, l);
  }

  /** And the second report does it, once all blockers are Completed. */
  lemma SecondReportDispatches(w: World, q: string, x: string, now: string)
    requires Inv(w) && q in w.tasks && w.tasks[q].state.Completed? && x in w.tasks[q].childTaskIds
    requires x in w.tasks && w.tasks[x].state.Pending? && Clear(w, w.tasks[x])
    ensures
      var v := OnCompletion(w, q, now);
      x in v.tasks && v.tasks[x].state == Delegated && x in v.dispatched
  {
    assert Put(w, Finished(w.tasks[q], now)) == w;
    ClearChildDispatched(w, w.tasks[q].childTaskIds, x);
  }

  lemma {:induction false} ClearChildDispatched(w: World, children: seq<string>, x: string)
    requires Inv(w) && x in children && x in w.tasks && w.tasks[x].state.Pending? && Clear(w, w.tasks[x])
    ensures
      var v := DelegateChildren(w, children);
      x in v.tasks && v.tasks[x].state == Delegated && x in v.dispatched
  {
    var n := |children| - 1;
    var v := DelegateChildren(w, children[..n]);
    DelegateAllKeeps(w, children[..n]);
    if x in children[..n] {
      ClearChildDispatched(w, children[..n], x);
    } else {
      DelegationKeepsLists(w, children[..n], x);
      ClearStays(w, v, w.tasks[x]);
    }
  }

  // ---------------------------------------------------------------- an example

  /** One repo with two modules: the second module lead is chained behind the first. */
  const TWO_MODULES := TaskBrief("b", "t", "d", ["r"], map["r" := ["m", "n"]], map[])

  const TWO_MODULES_PLAN := Plan(TWO_MODULES, ["0", "1", "2", "3", "4", "5"], "now")

  lemma TwoModulesNodes()
    ensures
      var nodes := Skeleton(TWO_MODULES);
      && |nodes| == 6 && nodes[4].layer.L2_ModuleLead? && nodes[4].prev == Some(2)
      && (forall k :: 0 <= k < 6 && k != 3 && k != 5 ==> !nodes[k].layer.L3_TaskAgent?)
      && nodes[3].text == "Implement m" && nodes[5].text == "Implement n"
  {
    hide Parsed, Chained;
    assert ModulesOf(TWO_MODULES, "r") == ["m", "n"];
    assert "Implement " + "m" == "Implement m" && "Implement " + "n" == "Implement n";
    assert ImplsOf(TWO_MODULES, "r", "m") == ["Implement m"] && ImplsOf(TWO_MODULES, "r", "n") == ["Implement n"];
    var b1 := AddRepos(TWO_MODULES, 0) + [Node(L1_ComponentLead, "r", "", "", 0, None)];
    assert AddModules(b1, TWO_MODULES, "r", 1, 0) == b1;
    var b2 := b1 + [Node(L2_ModuleLead, "r", "m", "", 1, None)];
    var b3 := AddModules(b1, TWO_MODULES, "r", 1, 1);
    assert b3 == AddImpls(b2, "r", "m", ["Implement m"], 2, 1);
    assert AddImpls(b2, "r", "m", ["Implement m"], 2, 0) == b2;
    assert |b3| == 4 && b3[..3] == b2 && b3[3].text == "Implement m";
    var b4 := b3 + [Node(L2_ModuleLead, "r", "n", "", 1, Some(2))];
    var b5 := AddModules(b1, TWO_MODULES, "r", 1, 2);
    assert b5 == AddImpls(b4, "r", "n", ["Implement n"], 4, 1);
    assert AddImpls(b4, "r", "n", ["Implement n"], 4, 0) == b4;
    assert |b5| == 6 && b5[..5] == b4 && b5[5].text == "Implement n";
    assert Skeleton(TWO_MODULES) == b5;
  }

  lemma PlainText(s: string)
    requires s != "" && s[0] != ' ' && s[0] != '\t' && s[0] != '#'
    ensures Parsed(s).Ok?
  {
  }

  lemma TwoModulesSupply()
    ensures TWO_MODULES_PLAN.brief == TWO_MODULES && EnoughIds(TWO_MODULES_PLAN)
    ensures Parseable(Skeleton(TWO_MODULES)) && ChainedBehind(TWO_MODULES_PLAN, 4, 2)
  {
    hide TWO_MODULES, Parsed;
    TwoModulesNodes();
    SkeletonShape(TWO_MODULES);
    PlainText("Implement m");
    PlainText("Implement n");
    hide Skeleton, PlanSize, WellFormed;
  }

  /** A run that submits that brief. */
  lemma ChainRun() returns (worlds: seq<World>, steps: seq<Step>)
    ensures IsRun(worlds, steps) && WorkersBehave(worlds, steps) && |steps| == 1
    ensures steps[0].Submit? && ChainedBehind(steps[0].plan, 4, 2) && 4 < |steps[0].tasks|
  {
    hide IsPlan, TWO_MODULES_PLAN, TWO_MODULES, EnoughIds, ChainedBehind, Skeleton, PlanSize;
    TwoModulesSupply();
    TwoModulesNodes();
    SkeletonShape(TWO_MODULES);
    var p := TWO_MODULES_PLAN;
    var tasks := PlanCycles.PlanExists(p);
    PlanBasics(p, tasks);
    FreshSupply(p, tasks);
    var w, step := World(map[], []), Step.Submit(p, tasks);
    worlds, steps := [w, Apply(w, step)], [step];
  }
}
