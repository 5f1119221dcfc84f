/** Tasks on a circle of blockers are never dispatched, in any run. */
module Deadlocks {
  import opened Common
  import opened HmasTypes
  import opened Planning
  import opened Protocol
  import opened ProtocolRuns
  import Breakdown
  import PlanCycles
  import PlanSkeleton
  import DependencyGraph

  /** Stored tasks that all wait, each for another one among them. */
  ghost predicate Trapped(w: World, ids: set<string>) {
    forall id :: id in ids ==> id in w.tasks && w.tasks[id].state.Pending? && WaitsFor(w.tasks[id], ids)
  }

  ghost predicate WaitsFor(t: HmasTask, ids: set<string>) {
    exists b :: b in ids && b in t.blockedBy
  }

  lemma SubmitLeavesOthers(w: World, p: Plan, ts: seq<HmasTask>, id: string)
    requires Breakdown.IsPlan(p, ts) && FreshIds(w, p.ids) && ts != [] && id in w.tasks
    ensures id in OnSubmit(w, ts).tasks && OnSubmit(w, ts).tasks[id] == w.tasks[id]
  {
    hide Breakdown.IsPlan;
    PlanNewcomers(w, p, ts);
    StoredEntries(w.tasks, ts);
    assert !HasId(ts, id);
    assert ts[0].id != id;
  }

  lemma SplitKeepsState(w: World, id: string, subs: seq<Option<Subtask>>, ids: seq<string>, now: string, x: string)
    requires FreshIds(w, ids) && |subs| <= |ids| && x in w.tasks
    ensures x in OnSplit(w, id, subs, ids, now).tasks
    ensures OnSplit(w, id, subs, ids, now).tasks[x].state == w.tasks[x].state
  {
    if id in w.tasks && subs != [] {
      RemaindersLeaveOthers(w, w.tasks[id], subs, ids, now, x);
    }
  }

  /** No step takes a waiting task straight to Completed, if reports are on dispatched tasks. */
  lemma WaitingNotCompleted(w: World, step: Step, id: string)
    requires Inv(w) && Enabled(w, step) && ReportsDispatched(w, step)
    requires id in w.tasks && w.tasks[id].state.Pending?
    ensures id in Apply(w, step).tasks && !Apply(w, step).tasks[id].state.Completed?
  {
    hide Breakdown.IsPlan, DelegateChildren, OnSplit;
    match step
    case Submit(p, ts) =>
      PlansAreNotEmpty(p, ts);
      SubmitLeavesOthers(w, p, ts, id);
    case Epic(root) =>
      assert [root.id][0] == root.id;
    case Split(x, subs, ids, now) => SplitKeepsState(w, x, subs, ids, now, id);
    case Escalate(x, reason, now) =>
    case Completion(x, now) =>
      if x != "" && x in w.tasks {
        DispatchedLeftPending(w, x);
        DelegationCompletesNothing(Put(w, Finished(w.tasks[x], now)), w.tasks[x].childTaskIds, id);
      }
    case Start(x, agent, host) =>
    case Failure(x, now) =>
  }

  lemma TrappedStays(w: World, step: Step, ids: set<string>)
    requires Inv(w) && Enabled(w, step) && ReportsDispatched(w, step) && Trapped(w, ids)
    requires Safe(w)
    ensures Trapped(Apply(w, step), ids)
  {
    hide Inv, Enabled, Apply, ReportsDispatched, Safe, Later, WaitsFor;
    var v := Apply(w, step);
    StepKeeps(w, step);
    forall b | b in ids ensures b in v.tasks && !v.tasks[b].state.Completed? {
      WaitingNotCompleted(w, step, b);
    }
    forall id | id in ids ensures id in v.tasks && v.tasks[id].state.Pending? && WaitsFor(v.tasks[id], ids) {
      StaysWaiting(w, v, id, ids);
    }
  }

  lemma StaysWaiting(w: World, v: World, id: string, ids: set<string>)
    requires Safe(v) && id in w.tasks && id in v.tasks && Later(w.tasks[id], v.tasks[id]) && WaitsFor(w.tasks[id], ids)
    requires forall b :: b in ids ==> b in v.tasks && !v.tasks[b].state.Completed?
    ensures v.tasks[id].state.Pending? && WaitsFor(v.tasks[id], ids)
  {
    var b :| b in ids && b in w.tasks[id].blockedBy;
    assert b in v.tasks[id].blockedBy;
    assert !Clear(v, v.tasks[id]);
  }

  /** Once trapped, trapped for the rest of the run. */
  lemma {:induction false} TrappedForever(worlds: seq<World>, steps: seq<Step>, k: nat, l: nat, ids: set<string>)
    requires IsRun(worlds, steps) && WorkersBehave(worlds, steps) && k <= l < |worlds| && Trapped(worlds[k], ids)
    ensures Trapped(worlds[l], ids)
  {
    hide Inv, Enabled, Apply, Safe, ReportsDispatched, Trapped;
    if k < l {
      var step := steps[l - 1];
      TrappedForever(worlds, steps, k, l - 1, ids);
      RunKeepsInv(worlds, steps, l - 1);
      RunIsSafe(worlds, steps, l - 1);
      TrappedStays(worlds[l - 1], step, ids);
    }
  }

  /** A circle of blockers in a submitted plan is trapped from the start. */
  lemma SubmittedCircleIsTrapped(w: World, p: Plan, ts: seq<HmasTask>, q: seq<string>)
    requires Breakdown.IsPlan(p, ts) && FreshIds(w, p.ids) && ts != []
    requires DependencyGraph.IsCycle(Breakdown.BlockerGraph(ts), q)
    ensures Trapped(OnSubmit(w, ts), set x | x in q)
  {
    var ids := set x | x in q;
    var v := OnSubmit(w, ts);
    var c := PlanCycles.WalkPositions(p, ts, q);
    hide Breakdown.IsPlan, DependencyGraph.IsCycle, Breakdown.BlockerGraph, OnSubmit, WaitsFor;
    forall id | id in ids ensures id in v.tasks && v.tasks[id].state.Pending? && WaitsFor(v.tasks[id], ids) {
      var i :| 0 <= i < |q| && q[i] == id;
      var k := if i == |q| - 1 then 0 else i;
      var l := k + 1;
      assert ts[c[l]].id in ts[c[k]].blockedBy;
      assert q[l] in ids;
      SubmittedWaits(w, p, ts, c[k], ts[c[l]].id);
      assert WaitsFor(ts[c[k]], ids) by { AnyBlockerDoes(ts[c[k]], ids, q[l]); }
    }
  }

  lemma AnyBlockerDoes(t: HmasTask, ids: set<string>, b: string)
    requires b in ids && b in t.blockedBy
    ensures WaitsFor(t, ids)
  {
  }

  /**
   The deadlock: after a plan with a circle of blockers is submitted, the tasks on the circle stay
   Pending and are never dispatched, whatever else happens.
   */
  lemma CircleNeverRuns(worlds: seq<World>, steps: seq<Step>, k: nat, l: nat, q: seq<string>)
    requires IsRun(worlds, steps) && WorkersBehave(worlds, steps) && k < l < |worlds|
    requires steps[k].Submit? && DependencyGraph.IsCycle(Breakdown.BlockerGraph(steps[k].tasks), q)
    ensures forall x :: x in q ==> x in worlds[l].tasks && worlds[l].tasks[x].state.Pending? && x !in worlds[l].dispatched
  {
    hide Breakdown.IsPlan, DependencyGraph.IsCycle, Breakdown.BlockerGraph, Safe, ReportsDispatched;
    var step := steps[k];
    var ids := set x | x in q;
    assert Follows(worlds[k], step, worlds[k + 1]);
    PlansAreNotEmpty(step.plan, step.tasks);
    SubmittedCircleIsTrapped(worlds[k], step.plan, step.tasks, q);
    TrappedForever(worlds, steps, k + 1, l, ids);
    RunKeepsInv(worlds, steps, l);
    forall x | x in q ensures x in worlds[l].tasks && worlds[l].tasks[x].state.Pending? && x !in worlds[l].dispatched {
      assert x in ids;
    }
  }

  /** So a brief whose implementation edges run in a circle is accepted and never finishes. */
  lemma CyclicBriefNeverFinishes(worlds: seq<World>, steps: seq<Step>, k: nat, l: nat)
    returns (id: string)
    requires IsRun(worlds, steps) && WorkersBehave(worlds, steps) && k < l < |worlds| && steps[k].Submit?
    requires exists c :: PlanCycles.LeafCycle(steps[k].plan.brief, c)
    ensures HasId(steps[k].tasks, id) && id in worlds[l].tasks && worlds[l].tasks[id].state.Pending?
  {
    hide PlanCycles.LeafCycle, Apply, Breakdown.BlockerGraph, Breakdown.IsPlan, WorkersBehave;
    var p, ts := steps[k].plan, steps[k].tasks;
    assert Follows(worlds[k], steps[k], worlds[k + 1]);
    var c :| PlanCycles.LeafCycle(p.brief, c);
    var q := PlanCycles.LeafCycleIds(p, ts, c);
    var positions := PlanCycles.WalkPositions(p, ts, q);
    CircleNeverRuns(worlds, steps, k, l, q);
    id := q[0];
    assert ts[positions[0]].id == id;
    assert id in q;
  }

  /** Such runs exist: the two mutually dependent issues of the example, submitted to an empty store. */
  lemma MutualRun() returns (worlds: seq<World>, steps: seq<Step>)
    ensures IsRun(worlds, steps) && WorkersBehave(worlds, steps)
    ensures |steps| == 1 && steps[0].Submit? && exists c :: PlanCycles.LeafCycle(steps[0].plan.brief, c)
  {
    hide Breakdown.IsPlan, Breakdown.BlockerGraph, PlanCycles.MUTUAL_PLAN, PlanCycles.LeafCycle, DependencyGraph.Acyclic;
    var tasks := PlanCycles.MutualBriefGoesInCircles();
    PlanCycles.PlanAcyclicIff(PlanCycles.MUTUAL_PLAN, tasks);
    var w := World(map[], []);
    var step := Step.Submit(PlanCycles.MUTUAL_PLAN, tasks);
    assert FreshIds(w, PlanCycles.MUTUAL_PLAN.ids) by {
      PlanCycles.MutualSupply();
    }
    worlds, steps := [w, Apply(w, step)], [step];
  }

  /** And so do runs in which a stray completion report breaks safety. */
  lemma UnsafeRunExists() returns (worlds: seq<World>, steps: seq<Step>)
    ensures IsRun(worlds, steps) && |steps| == 2 && Safe(worlds[1]) && !Safe(worlds[2])
  {
    hide Breakdown.IsPlan, PlanCycles.MUTUAL_PLAN, PlanCycles.MUTUAL, PlanSkeleton.Skeleton, PlanSkeleton.PlanSize,
      Safe, IsRun, DependencyGraph.Acyclic;
    var tasks := PlanCycles.MutualBriefGoesInCircles();
    PlanCycles.MutualSupply();
    PlanCycles.MutualNodes();
    PlanSkeleton.SkeletonShape(PlanCycles.MUTUAL);
    Breakdown.PlanBasics(PlanCycles.MUTUAL_PLAN, tasks);
    worlds, steps := StrayRun(PlanCycles.MUTUAL_PLAN, tasks, "now");
  }
}
