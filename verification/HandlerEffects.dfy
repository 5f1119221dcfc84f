/** What each handler does, field by field: the task it is about, the tasks it delegates, and nothing else. */
module HandlerEffects {
  import opened Common
  import opened HmasTypes
  import opened Planning
  import opened Protocol
  import opened ProtocolRuns
  import Breakdown

  /** All tasks but these are the same. */
  ghost predicate OthersSame(w: World, v: World, ids: set<string>) {
    forall x :: x !in ids ==> (x in w.tasks <==> x in v.tasks) && (x in w.tasks ==> v.tasks[x] == w.tasks[x])
  }

  // --------------------------------------------------------------- completion

  /** The completion of `id` leaves nothing in the way of its child x. */
  ghost predicate Unblocks(w: World, id: string, x: string)
    requires id in w.tasks
  {
    && x in w.tasks && x != id && x in w.tasks[id].childTaskIds && w.tasks[x].state == Pending
    && forall b :: b in w.tasks[x].blockedBy ==>
         b in w.tasks && (w.tasks[b].state == Completed || (b == id && w.tasks[id].state != Failed))
  }

  lemma {:induction false} DelegationEffect(u: World, children: seq<string>, x: string)
    ensures
      var v := DelegateChildren(u, children);
      && (x in v.tasks <==> x in u.tasks)
      && (x in u.tasks && x in children && u.tasks[x].state == Pending && Clear(u, u.tasks[x]) ==>
            v.tasks[x] == u.tasks[x].(state := Delegated))
      && (x in u.tasks && !(x in children && u.tasks[x].state == Pending && Clear(u, u.tasks[x])) ==>
            v.tasks[x] == u.tasks[x])
  {
    if children != [] {
      var n := |children| - 1;
      var mid := DelegateChildren(u, children[..n]);
      DelegationEffect(u, children[..n], x);
      if x in u.tasks {
        SameClearance(u, children[..n], u.tasks[x]);
      }
      assert x in children <==> x in children[..n] || x == children[n];
    }
  }

  lemma SameClearance(u: World, children: seq<string>, t: HmasTask)
    ensures Clear(DelegateChildren(u, children), t) <==> Clear(u, t)
  {
    forall b ensures
      var v := DelegateChildren(u, children);
      b in v.tasks && v.tasks[b].state.Completed? <==> b in u.tasks && u.tasks[b].state.Completed?
    {
      DelegationCompletesNothing(u, children, b);
    }
  }

  lemma {:induction false} DispatchEffect(u: World, children: seq<string>, x: string)
    ensures
      var v := DelegateChildren(u, children);
      && u.dispatched <= v.dispatched
      && (x in v.dispatched[|u.dispatched|..] <==>
            x in u.tasks && x in children && u.tasks[x].state == Pending && Clear(u, u.tasks[x]))
  {
    if children != [] {
      var n := |children| - 1;
      var mid, v := DelegateChildren(u, children[..n]), DelegateChildren(u, children);
      DispatchEffect(u, children[..n], x);
      DelegationEffect(u, children[..n], x);
      DelegationEffect(u, children[..n], children[n]);
      if x in u.tasks {
        SameClearance(u, children[..n], u.tasks[x]);
      }
      assert x in children <==> x in children[..n] || x == children[n];
      if v != mid {
        assert v.dispatched[|u.dispatched|..] == mid.dispatched[|u.dispatched|..] + [children[n]];
      }
    }
  }

  ghost function Delegates(w: World, id: string): set<string>
    requires id in w.tasks
  {
    set x | x in w.tasks && Unblocks(w, id, x)
  }

  lemma CompletionAt(w: World, id: string, now: string, x: string)
    requires Inv(w) && id in w.tasks
    ensures
      var u, v := Put(w, Finished(w.tasks[id], now)), OnCompletion(w, id, now);
      && w.dispatched <= v.dispatched
      && (x in v.tasks <==> x in u.tasks)
      && (x in Delegates(w, id) ==> x in v.tasks && v.tasks[x] == u.tasks[x].(state := Delegated))
      && (x in u.tasks && x !in Delegates(w, id) ==> v.tasks[x] == u.tasks[x])
      && (x in v.dispatched[|w.dispatched|..] <==> x in Delegates(w, id))
  {
    var u, children := Put(w, Finished(w.tasks[id], now)), w.tasks[id].childTaskIds;
    assert OnCompletion(w, id, now) == DelegateChildren(u, children);
    DelegationEffect(u, children, x);
    DispatchEffect(u, children, x);
    UnblocksMeans(w, id, now, x);
    hide DelegateChildren, OnCompletion, Inv, Clear;
  }

  /** A completion report: the task is Completed and stamped, and exactly its unblocked children are delegated. */
  lemma CompletionEffect(w: World, id: string, now: string)
    requires Inv(w)
    ensures id !in w.tasks ==> OnCompletion(w, id, now) == w
    ensures id in w.tasks ==>
      var v, t := OnCompletion(w, id, now), w.tasks[id];
      && id in v.tasks
      && (t.state == Completed || t.state == Failed ==> v.tasks[id] == t)
      && (t.state != Completed && t.state != Failed ==> v.tasks[id] == t.(state := Completed, completedAt := now))
      && OthersSame(w, v, {id} + Delegates(w, id))
      && (forall x :: x in Delegates(w, id) ==> x in v.tasks && v.tasks[x] == w.tasks[x].(state := Delegated))
      && w.dispatched <= v.dispatched
      && (forall x :: x in v.dispatched[|w.dispatched|..] <==> x in Delegates(w, id))
  {
    if id in w.tasks {
      CompletedItself(w, id, now);
      hide OnCompletion, Inv, Delegates;
      var v := OnCompletion(w, id, now);
      CompletionAt(w, id, now, id);
      forall x ensures
        && (x in v.dispatched[|w.dispatched|..] <==> x in Delegates(w, id))
        && (x in Delegates(w, id) ==> x in v.tasks && v.tasks[x] == w.tasks[x].(state := Delegated))
      {
        CompletionElsewhere(w, id, now, x);
      }
      forall x | x !in {id} + Delegates(w, id)
        ensures (x in w.tasks <==> x in v.tasks) && (x in w.tasks ==> v.tasks[x] == w.tasks[x])
      {
        CompletionElsewhere(w, id, now, x);
      }
    }
  }

  lemma CompletedItself(w: World, id: string, now: string)
    requires Inv(w) && id in w.tasks
    ensures
      var v, t := OnCompletion(w, id, now), w.tasks[id];
      && id in v.tasks
      && (t.state == Completed || t.state == Failed ==> v.tasks[id] == t)
      && (t.state != Completed && t.state != Failed ==> v.tasks[id] == t.(state := Completed, completedAt := now))
  {
    CompletionAt(w, id, now, id);
    assert id !in Delegates(w, id);
    hide OnCompletion, Delegates;
  }

  lemma CompletionElsewhere(w: World, id: string, now: string, x: string)
    requires Inv(w) && id in w.tasks
    ensures
      var v := OnCompletion(w, id, now);
      && w.dispatched <= v.dispatched
      && (x in v.dispatched[|w.dispatched|..] <==> x in Delegates(w, id))
      && (x in Delegates(w, id) ==> x in w.tasks && x in v.tasks && v.tasks[x] == w.tasks[x].(state := Delegated))
      && (x !in {id} + Delegates(w, id) ==> (x in w.tasks <==> x in v.tasks) && (x in w.tasks ==> v.tasks[x] == w.tasks[x]))
  {
    CompletionAt(w, id, now, x);
    assert x in Delegates(w, id) ==> x in w.tasks && x != id;
    hide OnCompletion, Delegates;
  }

  lemma UnblocksMeans(w: World, id: string, now: string, x: string)
    requires Inv(w) && id in w.tasks
    ensures
      var u := Put(w, Finished(w.tasks[id], now));
      Unblocks(w, id, x) <==> x in u.tasks && x in w.tasks[id].childTaskIds && u.tasks[x].state == Pending && Clear(u, u.tasks[x])
  {
    var u := Put(w, Finished(w.tasks[id], now));
    forall b ensures b in u.tasks && u.tasks[b].state.Completed? <==>
      b in w.tasks && (w.tasks[b].state == Completed || (b == id && w.tasks[id].state != Failed))
    {
    }
  }

  // ----------------------------------------------- start, failure, escalation

  /** A start report: InProgress, claimed by the agent, at the host if one is named. */
  lemma StartEffect(w: World, id: string, agent: string, host: string)
    requires Inv(w)
    ensures id !in w.tasks ==> OnStarted(w, id, agent, host) == w
    ensures id in w.tasks ==>
      var v, t := OnStarted(w, id, agent, host), w.tasks[id];
      var state := if t.state == Completed || t.state == Failed then t.state else InProgress;
      var lead := if agent == "" then t.assignedLeadId else if host == "" then agent else agent + "@" + host;
      && id in v.tasks && v.tasks[id] == t.(state := state, assignedLeadId := lead)
      && OthersSame(w, v, {id}) && v.dispatched == w.dispatched
  {
  }

  /** A failure report: Failed and stamped. */
  lemma FailureEffect(w: World, id: string, now: string)
    requires Inv(w)
    ensures id !in w.tasks ==> OnFailed(w, id, now) == w
    ensures id in w.tasks ==>
      var v, t := OnFailed(w, id, now), w.tasks[id];
      && id in v.tasks
      && (t.state == Completed || t.state == Failed ==> v.tasks[id] == t)
      && (t.state != Completed && t.state != Failed ==> v.tasks[id] == t.(state := Failed, completedAt := now))
      && OthersSame(w, v, {id}) && v.dispatched == w.dispatched
  {
  }

  /** An escalation: only from InProgress, with one more record that says who, why, when and from which layer. */
  lemma EscalationEffect(w: World, id: string, reason: string, now: string)
    requires Inv(w)
    ensures id !in w.tasks || w.tasks[id].state != InProgress ==> OnEscalate(w, id, reason, now) == w
    ensures id in w.tasks && w.tasks[id].state == InProgress ==>
      var v, t := OnEscalate(w, id, reason, now), w.tasks[id];
      && id in v.tasks
      && v.tasks[id] == t.(state := Escalated, escalations := v.tasks[id].escalations)
      && |v.tasks[id].escalations| == |t.escalations| + 1 && t.escalations <= v.tasks[id].escalations
      && v.tasks[id].escalations[|t.escalations|] == EscalationRecord(id, reason, now, t.layer)
      && OthersSame(w, v, {id}) && v.dispatched == w.dispatched
  {
  }

  // --------------------------------------------------------------- submission

  /** A submission: the whole plan is stored as planned, its root Delegated and dispatched. */
  lemma SubmitEffect(w: World, p: Plan, ts: seq<HmasTask>)
    requires Breakdown.IsPlan(p, ts) && FreshIds(w, p.ids)
    ensures ts != []
    ensures
      var v := OnSubmit(w, ts);
      && v.dispatched == w.dispatched + [ts[0].id]
      && ts[0].id in v.tasks && v.tasks[ts[0].id] == ts[0].(state := Delegated)
      && (forall k :: 0 < k < |ts| ==> ts[k].id in v.tasks && v.tasks[ts[k].id] == ts[k])
      && OthersSame(w, v, set k | 0 <= k < |ts| :: ts[k].id)
  {
    hide Breakdown.IsPlan;
    PlanNewcomers(w, p, ts);
    StoredEntries(w.tasks, ts);
    hide FreshIds, Stored;
    assert forall k :: 0 < k < |ts| ==> ts[k].id != ts[0].id;
  }

  // -------------------------------------------------------------------- split

  /** The k-th remainder of a split: a sibling of the original that waits for it and for the one before. */
  ghost predicate IsRemainder(t: HmasTask, original: HmasTask, sub: Subtask, ids: seq<string>, k: nat, now: string)
    requires k < |ids|
  {
    && t.id == ids[k] && t.briefId == original.briefId && t.parentTaskId == original.parentTaskId
    && t.layer == original.layer && t.repo == original.repo && t.moduleName == original.moduleName
    && t.state == Pending && t.subject == sub.title && t.issue == sub.issue
    && t.createdAt == now && t.completedAt == "" && t.assignedLeadId == ""
    && t.childTaskIds == [] && t.escalations == []
    && (k == 0 ==> t.blockedBy == [original.id] + sub.blockers)
    && (k > 0 ==> t.blockedBy == [original.id, ids[k - 1]] + sub.blockers)
    && (sub.baseBranch == "" ==> t.description == sub.description)
    && (sub.baseBranch != "" && sub.description == "" ==> t.description == "Base branch: " + sub.baseBranch)
    && (sub.baseBranch != "" && sub.description != "" ==>
          t.description == sub.description + "\nBase branch: " + sub.baseBranch)
  }

  lemma {:induction false} RemaindersAre(original: HmasTask, subs: seq<Option<Subtask>>, ids: seq<string>, now: string, n: nat, k: nat)
    requires k < n <= |subs| <= |ids| && (forall i :: 0 <= i < n ==> subs[i].Some?)
    requires forall i :: 0 <= i < |ids| ==> ids[i] != ""
    ensures IsRemainder(Remainders(original, subs, ids, now, n)[k], original, subs[k].value, ids, k, now)
  {
    if k < n - 1 {
      RemaindersAre(original, subs, ids, now, n - 1, k);
    } else {
      RemainderIs(original, subs[k].value, ids, k, now);
    }
  }

  lemma RemainderIs(original: HmasTask, sub: Subtask, ids: seq<string>, k: nat, now: string)
    requires k < |ids| && forall i :: 0 <= i < |ids| ==> ids[i] != ""
    ensures IsRemainder(Remainder(original, sub, ids[k], if k == 0 then "" else ids[k - 1], now), original, sub, ids, k, now)
  {
    var t := Remainder(original, sub, ids[k], if k == 0 then "" else ids[k - 1], now);
    if k > 0 {
      assert t.blockedBy == [original.id] + [ids[k - 1]] + sub.blockers;
      assert [original.id] + [ids[k - 1]] == [original.id, ids[k - 1]];
    } else {
      assert t.blockedBy == [original.id] + [] + sub.blockers == [original.id] + sub.blockers;
    }
    BranchLine(original, sub, ids[k], if k == 0 then "" else ids[k - 1], now);
  }

  lemma BranchLine(original: HmasTask, sub: Subtask, id: string, prev: string, now: string)
    ensures
      var text := Remainder(original, sub, id, prev, now).description;
      && (sub.baseBranch == "" ==> text == sub.description)
      && (sub.baseBranch != "" && sub.description == "" ==> text == "Base branch: " + sub.baseBranch)
      && (sub.baseBranch != "" && sub.description != "" ==> text == sub.description + "\nBase branch: " + sub.baseBranch)
  {
    if sub.baseBranch == "" {
      assert sub.description + "" == sub.description;
    } else if sub.description == "" {
      assert "" + ("" + "Base branch: " + sub.baseBranch) == "Base branch: " + sub.baseBranch;
    } else {
      assert "\n" + "Base branch: " == "\nBase branch: ";
      assert sub.description + ("\nBase branch: " + sub.baseBranch) == sub.description + "\nBase branch: " + sub.baseBranch;
    }
  }

  /** The store after the remainders: one entry for each, the rest as it was. */
  lemma RemaindersStored(w: World, original: HmasTask, subs: seq<Option<Subtask>>, ids: seq<string>, now: string, n: nat)
    requires FreshIds(w, ids) && n <= |subs| <= |ids| && forall k :: 0 <= k < n ==> subs[k].Some?
    ensures
      var stored := Stored(w.tasks, Remainders(original, subs, ids, now, n));
      && (forall k :: 0 <= k < n ==> ids[k] in stored && IsRemainder(stored[ids[k]], original, subs[k].value, ids, k, now))
      && OthersSame(w, w.(tasks := stored), FirstOf(ids, n))
  {
    var ts := Remainders(original, subs, ids, now, n);
    StoredEntries(w.tasks, ts);
    assert forall k :: 0 <= k < n ==> ts[k].id in FirstOf(ids, n);
    hide *;
    forall k | 0 <= k < n
      ensures
        var stored := Stored(w.tasks, ts);
        ids[k] in stored && IsRemainder(stored[ids[k]], original, subs[k].value, ids, k, now)
    {
      assert ts[k].id == ids[k];
      NoneEmpty(w, ids);
      RemaindersAre(original, subs, ids, now, n, k);
    }
    RestSame(w, ts, Stored(w.tasks, ts), FirstOf(ids, n));
  }

  ghost function FirstOf(ids: seq<string>, n: nat): set<string>
    requires n <= |ids|
  {
    set k | 0 <= k < n :: ids[k]
  }

  lemma NoneEmpty(w: World, ids: seq<string>)
    requires FreshIds(w, ids)
    ensures forall i :: 0 <= i < |ids| ==> ids[i] != ""
  {
  }

  lemma RestSame(w: World, ts: seq<HmasTask>, stored: map<string, HmasTask>, ids: set<string>)
    requires forall id :: id in stored <==> id in w.tasks || HasId(ts, id)
    requires forall id :: id in w.tasks && !HasId(ts, id) ==> stored[id] == w.tasks[id]
    requires forall k :: 0 <= k < |ts| ==> ts[k].id in ids
    ensures OthersSame(w, w.(tasks := stored), ids)
  {
    forall id | id !in ids ensures !HasId(ts, id) {
    }
  }

  /**
   A split stores one remainder for each subtask before the first that cannot be read, and links
   the original to them if there is none such.
   */
  lemma SplitEffect(w: World, id: string, subs: seq<Option<Subtask>>, ids: seq<string>, now: string, n: nat)
    requires Inv(w) && FreshIds(w, ids) && |subs| <= |ids| && id in w.tasks && subs != []
    requires n <= |subs| && (forall k :: 0 <= k < n ==> subs[k].Some?) && (n < |subs| ==> subs[n].None?)
    ensures
      var v := OnSplit(w, id, subs, ids, now);
      && (forall k :: 0 <= k < n ==> ids[k] in v.tasks && IsRemainder(v.tasks[ids[k]], w.tasks[id], subs[k].value, ids, k, now))
      && id in v.tasks && (n < |subs| ==> v.tasks[id] == w.tasks[id])
      && (n == |subs| ==> v.tasks[id] == w.tasks[id].(childTaskIds := w.tasks[id].childTaskIds + ids[..n]))
      && OthersSame(w, v, {id} + FirstOf(ids, n))
      && v.dispatched == w.dispatched
  {
    hide *;
    RemaindersStored(w, w.tasks[id], subs, ids, now, n);
    SplitIs(w, id, subs, ids, now, n);
    NewIdsDiffer(w, id, ids, n);
    var v := OnSplit(w, id, subs, ids, now);
    var stored := Stored(w.tasks, Remainders(w.tasks[id], subs, ids, now, n));
    SameBut(w.(tasks := stored), v, id);
    LinkedSame(w, w.(tasks := stored), v, id, FirstOf(ids, n));
    forall k | 0 <= k < n ensures ids[k] in v.tasks && v.tasks[ids[k]] == stored[ids[k]] {
    }
  }

  lemma NewIdsDiffer(w: World, id: string, ids: seq<string>, n: nat)
    requires FreshIds(w, ids) && id in w.tasks && n <= |ids|
    ensures id !in FirstOf(ids, n) && forall k :: 0 <= k < n ==> ids[k] != id
  {
  }

  lemma SplitIs(w: World, id: string, subs: seq<Option<Subtask>>, ids: seq<string>, now: string, n: nat)
    requires id in w.tasks && n <= |subs| <= |ids| && subs != []
    requires (forall k :: 0 <= k < n ==> subs[k].Some?) && (n < |subs| ==> subs[n].None?)
    ensures
      var v, stored := OnSplit(w, id, subs, ids, now), Stored(w.tasks, Remainders(w.tasks[id], subs, ids, now, n));
      var linked := w.tasks[id].(childTaskIds := w.tasks[id].childTaskIds + ids[..n]);
      && v.dispatched == w.dispatched
      && v.tasks == if n < |subs| then stored else stored[id := linked]
  {
    assert GoodPrefix(subs) == n;
    hide GoodPrefix, Stored, Remainders;
  }

  lemma SameBut(u: World, v: World, id: string)
    requires v.tasks == u.tasks || (id in v.tasks && v.tasks == u.tasks[id := v.tasks[id]])
    ensures OthersSame(u, v, {id})
  {
  }

  lemma LinkedSame(w: World, u: World, v: World, id: string, ids: set<string>)
    requires OthersSame(w, u, ids) && OthersSame(u, v, {id}) && id in w.tasks && id !in ids
    ensures OthersSame(w, v, {id} + ids) && id in u.tasks && u.tasks[id] == w.tasks[id]
  {
  }

  /** Where a remainder has left Pending, the original and the remainder before it are Completed. */
  ghost predicate InOrder(w: World, id: string, ids: seq<string>, k: nat)
    requires k < |ids|
  {
    && ids[k] in w.tasks
    && (w.tasks[ids[k]].state != Pending ==>
          && id in w.tasks && w.tasks[id].state == Completed
          && (k > 0 ==> ids[k - 1] in w.tasks && w.tasks[ids[k - 1]].state == Completed))
  }

  lemma RemainderWaits(v: World, w: World, original: HmasTask, sub: Subtask, ids: seq<string>, k: nat, now: string)
    requires Advances(v, w) && Safe(w) && k < |ids|
    requires ids[k] in v.tasks && IsRemainder(v.tasks[ids[k]], original, sub, ids, k, now)
    ensures InOrder(w, original.id, ids, k)
  {
    var x := ids[k];
    assert Later(v.tasks[x], w.tasks[x]);
    if w.tasks[x].state != Pending {
      assert Clear(w, w.tasks[x]);
      assert w.tasks[x].blockedBy[0] == original.id;
      if k > 0 {
        assert w.tasks[x].blockedBy[1] == ids[k - 1];
      }
    }
  }

  /** In every run with well-behaved workers the remainders of a split are worked on one after the other. */
  lemma RemaindersRunInOrder(worlds: seq<World>, steps: seq<Step>, j: nat, l: nat, k: nat)
    requires IsRun(worlds, steps) && WorkersBehave(worlds, steps) && j < l < |worlds| && steps[j].Split?
    requires steps[j].id in worlds[j].tasks && k < |steps[j].subs|
    requires forall i :: 0 <= i <= k ==> steps[j].subs[i].Some?
    ensures k < |steps[j].ids| && InOrder(worlds[l], steps[j].id, steps[j].ids, k)
  {
    var s := steps[j];
    RunKeepsInv(worlds, steps, j);
    assert Follows(worlds[j], s, worlds[j + 1]);
    var n := GoodPrefix(s.subs);
    RunAdvances(worlds, steps, j + 1, l);
    RunIsSafe(worlds, steps, l);
    assert worlds[j].tasks[s.id].id == s.id;
    hide *;
    SplitFollows(worlds[j], s, worlds[j + 1], n);
    RemainderWaits(worlds[j + 1], worlds[l], worlds[j].tasks[s.id], s.subs[k].value, s.ids, k, s.now);
  }

  lemma SplitFollows(w: World, s: Step, v: World, n: nat)
    requires Inv(w) && Follows(w, s, v) && s.Split? && s.id in w.tasks && s.subs != [] && n == GoodPrefix(s.subs)
    ensures n <= |s.subs| <= |s.ids| && forall k :: 0 <= k < n ==> s.subs[k].Some?
    ensures forall k :: 0 <= k < n ==> s.ids[k] in v.tasks && IsRemainder(v.tasks[s.ids[k]], w.tasks[s.id], s.subs[k].value, s.ids, k, s.now)
  {
    hide Inv, IsRemainder, OnSplit, GoodPrefix;
    SplitEffect(w, s.id, s.subs, s.ids, s.now, n);
  }
}
