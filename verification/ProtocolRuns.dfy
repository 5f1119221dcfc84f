/** What every run of the orchestration protocol keeps, and what repeated and stray reports do. */
module ProtocolRuns {
  import opened Common
  import opened HmasTypes
  import opened StateMachine
  import opened Planning
  import opened Protocol
  import Breakdown

  // ---------------------------------------------------------- worker messages

  lemma CompletionKeeps(w: World, id: string, now: string)
    requires Inv(w) && now != ""
    ensures Inv(OnCompletion(w, id, now)) && Advances(w, OnCompletion(w, id, now))
    ensures Safe(w) && (id in w.tasks ==> id in w.dispatched) ==> Safe(OnCompletion(w, id, now))
  {
    AdvancesReflexive(w);
    if id != "" && id in w.tasks {
      var t := Finished(w.tasks[id], now);
      PutKeeps(w, t);
      var v := Put(w, t);
      DelegateAllKeeps(v, w.tasks[id].childTaskIds);
      AdvancesTransitive(w, v, OnCompletion(w, id, now));
      if Safe(w) && id in w.dispatched {
        DispatchedLeftPending(w, id);
        PutKeepsSafe(w, t);
      }
    }
  }

  lemma DispatchedLeftPending(w: World, id: string)
    requires DispatchedOnce(w) && id in w.dispatched
    ensures id in w.tasks && !w.tasks[id].state.Pending?
  {
    var k :| 0 <= k < |w.dispatched| && w.dispatched[k] == id;
  }

  /** A report that replaces one task by a later version of it. */
  lemma ReportKeeps(w: World, t: HmasTask)
    requires Inv(w) && t.id in w.tasks && Later(w.tasks[t.id], t) && Stamped(t)
    requires t.childTaskIds == w.tasks[t.id].childTaskIds
    ensures Inv(Put(w, t)) && Advances(w, Put(w, t))
    ensures Safe(w) && (t.id in w.dispatched || w.tasks[t.id].state.InProgress?) ==> Safe(Put(w, t))
  {
    PutKeeps(w, t);
    if Safe(w) && (t.id in w.dispatched || w.tasks[t.id].state.InProgress?) {
      if t.id in w.dispatched {
        DispatchedLeftPending(w, t.id);
      }
      PutKeepsSafe(w, t);
    }
  }

  /** Every step keeps the invariant and moves tasks forward only; well-behaved workers keep safety. */
  lemma StepKeeps(w: World, step: Step)
    requires Inv(w) && Enabled(w, step)
    ensures Inv(Apply(w, step)) && Advances(w, Apply(w, step))
    ensures Safe(w) && ReportsDispatched(w, step) ==> Safe(Apply(w, step))
  {
    AdvancesReflexive(w);
    match step
    case Submit(p, ts) =>
      PlansAreNotEmpty(p, ts);
      SubmitKeeps(w, p, ts);
    case Epic(root) => EpicKeeps(w, root);
    case Split(id, subs, ids, now) => SplitKeeps(w, id, subs, ids, now);
    case Escalate(id, reason, now) =>
      if id in w.tasks && w.tasks[id].state.InProgress? {
        ReportKeeps(w, Escalation(w.tasks[id], reason, now));
      }
    case Completion(id, now) => CompletionKeeps(w, id, now);
    case Start(id, agent, host) =>
      if id != "" && id in w.tasks {
        ReportKeeps(w, Claimed(Started(w.tasks[id]), agent, host));
      }
    case Failure(id, now) =>
      if id != "" && id in w.tasks {
        ReportKeeps(w, Broken(w.tasks[id], now));
      }
  }

  // ------------------------------------------------------------------- runs

  ghost predicate Follows(w: World, step: Step, v: World) {
    Enabled(w, step) && v == Apply(w, step)
  }

  /** Any number of handler steps from an empty store. */
  ghost predicate IsRun(worlds: seq<World>, steps: seq<Step>) {
    && |worlds| == |steps| + 1
    && worlds[0] == World(map[], [])
    && forall k {:trigger steps[k]} :: 0 <= k < |steps| ==> Follows(worlds[k], steps[k], worlds[k + 1])
  }

  lemma EmptyWorldInv()
    ensures Inv(World(map[], [])) && Safe(World(map[], []))
  {
  }

  /**
   In every run, with reports in any order and repeated at will: nothing is dispatched twice,
   completion stamps are set exactly in terminal states, and child links are answered by blockers.
   */
  lemma {:induction false} RunKeepsInv(worlds: seq<World>, steps: seq<Step>, k: nat)
    requires IsRun(worlds, steps) && k < |worlds|
    ensures Inv(worlds[k])
  {
    hide Inv, Enabled, Apply;
    EmptyWorldInv();
    if k > 0 {
      var step := steps[k - 1];
      RunKeepsInv(worlds, steps, k - 1);
      StepKeeps(worlds[k - 1], step);
    }
  }

  /** Along every run tasks never return to Pending and terminal tasks never change state or stamp. */
  lemma {:induction false} RunAdvances(worlds: seq<World>, steps: seq<Step>, k: nat, l: nat)
    requires IsRun(worlds, steps) && k <= l < |worlds|
    ensures Advances(worlds[k], worlds[l])
  {
    hide Inv, Enabled, Apply, Advances;
    if k == l {
      AdvancesReflexive(worlds[k]);
    } else {
      var step := steps[l - 1];
      RunAdvances(worlds, steps, k, l - 1);
      RunKeepsInv(worlds, steps, l - 1);
      StepKeeps(worlds[l - 1], step);
      AdvancesTransitive(worlds[k], worlds[l - 1], worlds[l]);
    }
  }

  ghost predicate WorkersBehave(worlds: seq<World>, steps: seq<Step>)
    requires |worlds| == |steps| + 1
  {
    forall k {:trigger steps[k]} :: 0 <= k < |steps| ==> ReportsDispatched(worlds[k], steps[k])
  }

  /**
   If workers report only on dispatched tasks, then in every run every task that is not Pending
   has all its blockers stored and Completed.
   */
  lemma {:induction false} RunIsSafe(worlds: seq<World>, steps: seq<Step>, k: nat)
    requires IsRun(worlds, steps) && WorkersBehave(worlds, steps) && k < |worlds|
    ensures Safe(worlds[k])
  {
    hide Inv, Enabled, Apply, Safe, ReportsDispatched;
    EmptyWorldInv();
    if k > 0 {
      var step := steps[k - 1];
      RunIsSafe(worlds, steps, k - 1);
      RunKeepsInv(worlds, steps, k - 1);
      StepKeeps(worlds[k - 1], step);
    }
  }

  // ------------------------------------------------------------ stray reports

  /** Some blocker of the task is missing or not Completed. */
  ghost predicate Blocked(w: World, id: string)
    requires id in w.tasks
  {
    !Clear(w, w.tasks[id])
  }

  /** Delegating children completes no task. */
  lemma {:induction false} DelegationCompletesNothing(w: World, children: seq<string>, b: string)
    ensures
      var v := DelegateChildren(w, children);
      && v.tasks.Keys == w.tasks.Keys
      && (b in w.tasks ==> (v.tasks[b].state.Completed? <==> w.tasks[b].state.Completed?))
      && (b in w.tasks ==> v.tasks[b].blockedBy == w.tasks[b].blockedBy)
      && (b in w.tasks && !w.tasks[b].state.Pending? ==> v.tasks[b] == w.tasks[b])
  {
    if children != [] {
      DelegationCompletesNothing(w, children[..|children| - 1], b);
    }
  }

  /** Some blocker other than the task itself is missing or not Completed. */
  ghost predicate BlockedByOthers(w: World, id: string)
    requires id in w.tasks
  {
    exists b :: b in w.tasks[id].blockedBy && b != id && !(b in w.tasks && w.tasks[b].state.Completed?)
  }

  /**
   The assumption on workers cannot be dropped: a start or failure report on a waiting task keeps
   the state safe if and only if the task is not blocked, and a completion report if and only if
   no other task blocks it.
   */
  lemma StrayReportSafeIff(w: World, id: string, now: string, agent: string, host: string)
    requires Inv(w) && Safe(w) && now != "" && id in w.tasks && w.tasks[id].state.Pending?
    ensures Safe(OnCompletion(w, id, now)) <==> !BlockedByOthers(w, id)
    ensures Safe(OnStarted(w, id, agent, host)) <==> !Blocked(w, id)
    ensures Safe(OnFailed(w, id, now)) <==> !Blocked(w, id)
  {
    StrayCompletion(w, id, now);
    StrayStart(w, Claimed(Started(w.tasks[id]), agent, host));
    StrayStart(w, Broken(w.tasks[id], now));
  }

  lemma StrayPut(w: World, t: HmasTask)
    requires Inv(w) && Safe(w) && t.id in w.tasks && Later(w.tasks[t.id], t) && Stamped(t) && !t.state.Pending?
    requires t.childTaskIds == w.tasks[t.id].childTaskIds
    ensures Safe(Put(w, t)) <==> Clear(Put(w, t), t)
    ensures Inv(Put(w, t))
  {
    PutKeeps(w, t);
    var v := Put(w, t);
    if Clear(v, t) {
      forall id | id in v.tasks && !v.tasks[id].state.Pending? ensures Clear(v, v.tasks[id]) {
        if id != t.id {
          ClearStays(w, v, w.tasks[id]);
        }
      }
    } else {
      assert v.tasks[t.id] == t;
    }
  }

  lemma StrayStart(w: World, t: HmasTask)
    requires Inv(w) && Safe(w) && t.id in w.tasks && Later(w.tasks[t.id], t) && Stamped(t)
    requires t.childTaskIds == w.tasks[t.id].childTaskIds && w.tasks[t.id].state.Pending?
    requires !t.state.Pending? && !t.state.Completed?
    ensures Safe(Put(w, t)) <==> !Blocked(w, t.id)
  {
    StrayPut(w, t);
    assert Clear(Put(w, t), t) <==> Clear(w, w.tasks[t.id]);
  }

  lemma StrayCompletion(w: World, id: string, now: string)
    requires Inv(w) && Safe(w) && now != "" && id in w.tasks && w.tasks[id].state.Pending?
    ensures Safe(OnCompletion(w, id, now)) <==> !BlockedByOthers(w, id)
  {
    hide Inv, Safe, Later, DelegateChildren;
    var t := Finished(w.tasks[id], now);
    FinishedIsLater(w, id, now);
    StrayPut(w, t);
    if BlockedByOthers(w, id) {
      CompletionStaysBlocked(w, id, now);
    } else {
      assert Clear(Put(w, t), t);
      DelegateAllKeeps(Put(w, t), w.tasks[id].childTaskIds);
    }
  }

  lemma FinishedIsLater(w: World, id: string, now: string)
    requires Inv(w) && now != "" && id in w.tasks
    ensures
      var t := Finished(w.tasks[id], now);
      && t.id == id != "" && Later(w.tasks[id], t) && Stamped(t)
      && t.childTaskIds == w.tasks[id].childTaskIds && t.blockedBy == w.tasks[id].blockedBy
  {
  }

  lemma CompletionStaysBlocked(w: World, id: string, now: string)
    requires Inv(w) && id in w.tasks && w.tasks[id].state.Pending? && BlockedByOthers(w, id)
    ensures !Safe(OnCompletion(w, id, now))
  {
    var t := Finished(w.tasks[id], now);
    var v, u := Put(w, t), OnCompletion(w, id, now);
    var children := w.tasks[id].childTaskIds;
    var b :| b in t.blockedBy && b != id && !(b in w.tasks && w.tasks[b].state.Completed?);
    DelegationCompletesNothing(v, children, b);
    DelegationCompletesNothing(v, children, id);
    hide DelegateChildren;
    assert b in u.tasks[id].blockedBy && !(b in u.tasks && u.tasks[b].state.Completed?);
    assert !Clear(u, u.tasks[id]);
  }

  /** A report on a waiting task that is still blocked; a completion counts other blockers only. */
  ghost predicate BreaksSafety(w: World, step: Step) {
    match step
    case Completion(id, _) => id in w.tasks && w.tasks[id].state.Pending? && BlockedByOthers(w, id)
    case Start(id, _, _) => id in w.tasks && w.tasks[id].state.Pending? && Blocked(w, id)
    case Failure(id, _) => id in w.tasks && w.tasks[id].state.Pending? && Blocked(w, id)
    case _ => false
  }

  lemma LateReportKeepsSafe(w: World, t: HmasTask)
    requires Inv(w) && Safe(w) && t.id in w.tasks && Later(w.tasks[t.id], t) && Stamped(t)
    requires t.childTaskIds == w.tasks[t.id].childTaskIds && !w.tasks[t.id].state.Pending?
    ensures Inv(Put(w, t)) && Safe(Put(w, t))
  {
    PutKeeps(w, t);
    PutKeepsSafe(w, t);
  }

  lemma ReportSafeIff(w: World, t: HmasTask)
    requires Inv(w) && Safe(w) && t.id in w.tasks && Later(w.tasks[t.id], t) && Stamped(t)
    requires t.childTaskIds == w.tasks[t.id].childTaskIds
    requires w.tasks[t.id].state.Pending? ==> !t.state.Pending? && !t.state.Completed?
    ensures Safe(Put(w, t)) <==> !(w.tasks[t.id].state.Pending? && Blocked(w, t.id))
  {
    hide Inv, Safe, Later, Blocked;
    if w.tasks[t.id].state.Pending? {
      StrayStart(w, t);
    } else {
      LateReportKeepsSafe(w, t);
    }
  }

  lemma CompletionSafeIff(w: World, id: string, now: string)
    requires Inv(w) && Safe(w) && now != ""
    ensures Safe(OnCompletion(w, id, now)) <==> !BreaksSafety(w, Step.Completion(id, now))
  {
    hide Inv, Safe, Later, DelegateChildren, BlockedByOthers;
    if id in w.tasks {
      FinishedIsLater(w, id, now);
      if w.tasks[id].state.Pending? {
        StrayCompletion(w, id, now);
      } else {
        LateReportKeepsSafe(w, Finished(w.tasks[id], now));
        DelegateAllKeeps(Put(w, Finished(w.tasks[id], now)), w.tasks[id].childTaskIds);
      }
    }
  }

  lemma ReportsAreLater(w: World, id: string, agent: string, host: string, now: string)
    requires Inv(w) && id in w.tasks
    ensures
      var t := Claimed(Started(w.tasks[id]), agent, host);
      && t.id == id != "" && Later(w.tasks[id], t) && Stamped(t) && t.childTaskIds == w.tasks[id].childTaskIds
      && (w.tasks[id].state.Pending? ==> t.state.InProgress?)
    ensures now != "" ==>
      var t := Broken(w.tasks[id], now);
      && t.id == id && Later(w.tasks[id], t) && Stamped(t) && t.childTaskIds == w.tasks[id].childTaskIds
      && (w.tasks[id].state.Pending? ==> t.state.Failed?)
  {
  }

  lemma StepSafeIff(w: World, step: Step)
    requires Inv(w) && Safe(w) && Enabled(w, step)
    ensures Safe(Apply(w, step)) <==> !BreaksSafety(w, step)
  {
    hide Inv, Safe, Later, Blocked, BlockedByOthers, Claimed, Started, Broken;
    match step
    case Submit(p, ts) => StepKeeps(w, step);
    case Epic(root) => StepKeeps(w, step);
    case Split(id, subs, ids, now) => StepKeeps(w, step);
    case Escalate(id, reason, now) => StepKeeps(w, step);
    case Completion(id, now) => CompletionSafeIff(w, id, now);
    case Start(id, agent, host) =>
      if id in w.tasks {
        ReportsAreLater(w, id, agent, host, "");
        ReportSafeIff(w, Claimed(Started(w.tasks[id]), agent, host));
      }
    case Failure(id, now) =>
      if id in w.tasks {
        ReportsAreLater(w, id, "", "", now);
        ReportSafeIff(w, Broken(w.tasks[id], now));
      }
  }

  /** A run stays safe if and only if it has no report on a waiting task that is still blocked. */
  lemma {:induction false} RunSafeIff(worlds: seq<World>, steps: seq<Step>, n: nat)
    requires IsRun(worlds, steps) && n < |worlds|
    ensures (forall k :: 0 <= k <= n ==> Safe(worlds[k])) <==>
            (forall k {:trigger steps[k]} :: 0 <= k < n ==> !BreaksSafety(worlds[k], steps[k]))
  {
    hide Inv, Enabled, Apply, Safe, BreaksSafety;
    if n == 0 {
      EmptyWorldInv();
    } else {
      RunSafeIff(worlds, steps, n - 1);
      RunKeepsInv(worlds, steps, n - 1);
      var step := steps[n - 1];
      if Safe(worlds[n - 1]) {
        StepSafeIff(worlds[n - 1], step);
      }
    }
  }

  /** A task of a submitted plan that has a blocker is stored as planned. */
  lemma SubmittedWaits(w: World, p: Plan, ts: seq<HmasTask>, a: nat, blocker: string)
    requires Breakdown.IsPlan(p, ts) && FreshIds(w, p.ids) && a < |ts| && blocker in ts[a].blockedBy
    ensures
      var v := OnSubmit(w, ts);
      ts[a].id in v.tasks && v.tasks[ts[a].id] == ts[a] && ts[a].state.Pending?
  {
    hide Breakdown.IsPlan;
    PlanNewcomers(w, p, ts);
    StoredEntries(w.tasks, ts);
    assert a != 0;
    assert ts[a].id != ts[0].id;
  }

  lemma FreshSupply(p: Plan, ts: seq<HmasTask>)
    requires Breakdown.IsPlan(p, ts)
    ensures FreshIds(World(map[], []), p.ids)
  {
    Breakdown.DistinctSupply(p);
  }

  /** Right after its plan is submitted, the second task waits for the root. */
  lemma SecondTaskBlocked(w: World, p: Plan, ts: seq<HmasTask>)
    requires Breakdown.IsPlan(p, ts) && FreshIds(w, p.ids) && |ts| > 1
    ensures
      var v := OnSubmit(w, ts);
      ts[1].id in v.tasks && v.tasks[ts[1].id].state.Pending? && BlockedByOthers(v, ts[1].id)
  {
    var q := Breakdown.ParentLinks(p, ts, 1);
    PlanNewcomers(w, p, ts);
    hide Breakdown.IsPlan, FreshIds;
    SubmittedWaits(w, p, ts, 1, ts[0].id);
    assert ts[0].id != ts[1].id;
  }

  /** A reachable violation: submit any plan with more than one task, then report its second task complete. */
  lemma StrayRun(p: Plan, ts: seq<HmasTask>, now: string) returns (worlds: seq<World>, steps: seq<Step>)
    requires Breakdown.IsPlan(p, ts) && |ts| > 1 && now != ""
    ensures IsRun(worlds, steps) && |steps| == 2
    ensures steps[0] == Step.Submit(p, ts) && steps[1] == Step.Completion(ts[1].id, now)
    ensures Safe(worlds[1]) && !Safe(worlds[2])
  {
    hide Breakdown.IsPlan, FreshIds, Inv, Safe, OnSubmit, OnCompletion, BlockedByOthers;
    var w0, id := World(map[], []), ts[1].id;
    FreshSupply(p, ts);
    EmptyWorldInv();
    SubmitKeeps(w0, p, ts);
    SecondTaskBlocked(w0, p, ts);
    var w1 := OnSubmit(w0, ts);
    StrayCompletion(w1, id, now);
    worlds := [w0, w1, OnCompletion(w1, id, now)];
    steps := [Step.Submit(p, ts), Step.Completion(id, now)];
    assert Follows(w0, steps[0], w1) && Follows(w1, steps[1], worlds[2]);
    hide Follows;
    assert forall k :: 0 <= k < 2 ==> Follows(worlds[k], steps[k], worlds[k + 1]);
  }

  // --------------------------------------------------------- repeated reports

  /** Delegation has nothing left to do for this child. */
  ghost predicate Settled(w: World, c: string) {
    DelegateIfClear(w, c) == w
  }

  lemma SettledStays(w: World, c: string, d: string)
    requires Settled(w, c)
    ensures Settled(DelegateIfClear(w, d), c)
  {
    var v := DelegateIfClear(w, d);
    if c in v.tasks && v.tasks[c].state.Pending? {
      assert Clear(w, w.tasks[c]) ==> |DelegateIfClear(w, c).dispatched| == |w.dispatched| + 1;
      var b :| b in w.tasks[c].blockedBy && !(b in w.tasks && w.tasks[b].state.Completed?);
      assert !(b in v.tasks && v.tasks[b].state.Completed?);
      assert !Clear(v, v.tasks[c]);
    }
  }

  lemma DelegatedIsSettled(w: World, c: string)
    ensures Settled(DelegateIfClear(w, c), c)
  {
  }

  lemma {:induction false} AllSettled(w: World, children: seq<string>)
    ensures forall k :: 0 <= k < |children| ==> Settled(DelegateChildren(w, children), children[k])
  {
    hide Settled, DelegateIfClear;
    if children != [] {
      var n := |children| - 1;
      var v := DelegateChildren(w, children[..n]);
      AllSettled(w, children[..n]);
      DelegatedIsSettled(v, children[n]);
      forall k | 0 <= k < n ensures Settled(DelegateIfClear(v, children[n]), children[k]) {
        assert children[..n][k] == children[k];
        SettledStays(v, children[k], children[n]);
      }
    }
  }

  lemma {:induction false} NothingToDelegate(w: World, children: seq<string>)
    requires forall k :: 0 <= k < |children| ==> Settled(w, children[k])
    ensures DelegateChildren(w, children) == w
  {
    if children != [] {
      NothingToDelegate(w, children[..|children| - 1]);
    }
  }

  /** Handling the same completion twice in a row changes nothing the second time. */
  lemma CompletionTwice(w: World, id: string, now: string, later: string)
    requires Keyed(w)
    ensures OnCompletion(OnCompletion(w, id, now), id, later) == OnCompletion(w, id, now)
  {
    if id != "" && id in w.tasks {
      var t := Finished(w.tasks[id], now);
      var v := Put(w, t);
      var children := w.tasks[id].childTaskIds;
      var u := DelegateChildren(v, children);
      DelegationCompletesNothing(v, children, id);
      assert u.tasks[id] == t && Finished(t, later) == t;
      assert Put(u, t) == u;
      AllSettled(v, children);
      NothingToDelegate(u, children);
    }
  }

  /** A completion report for a Failed task changes nothing and delegates nothing. */
  lemma CompletionOfFailed(w: World, id: string, now: string)
    requires Inv(w) && id in w.tasks && w.tasks[id].state.Failed?
    ensures OnCompletion(w, id, now) == w
  {
    assert Put(w, w.tasks[id]) == w;
    var children := w.tasks[id].childTaskIds;
    forall k | 0 <= k < |children| ensures Settled(w, children[k]) {
      var c := children[k];
      assert c in children;
      assert id in w.tasks[c].blockedBy;
      assert !Clear(w, w.tasks[c]);
    }
    NothingToDelegate(w, children);
  }
}
