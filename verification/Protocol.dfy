/**
 The orchestration protocol over whole runs: each handler is one atomic step on the stored
 tasks and the log of dispatched task ids.  Worker messages may be early, late or repeated.
 */
module Protocol {
  import opened Common
  import opened HmasTypes
  import opened StateMachine
  import opened Planning
  import Breakdown

  datatype World = World(tasks: map<string, HmasTask>, dispatched: seq<string>)

  // --------------------------------------------------------- task transitions

  /** Where a completion report takes a task, from whatever state it is in. */
  function Finished(t: HmasTask, now: string): HmasTask {
    if Terminal(t.state) then t else t.(state := Completed, completedAt := now)
  }

  /** Where a start report takes a task. */
  function Started(t: HmasTask): HmasTask {
    if Terminal(t.state) then t else t.(state := InProgress)
  }

  /** Where a failure report takes a task. */
  function Broken(t: HmasTask, now: string): HmasTask {
    if Terminal(t.state) then t else t.(state := Failed, completedAt := now)
  }

  /** The claim of a start report. */
  function Claimed(t: HmasTask, agent: string, host: string): HmasTask {
    if agent == "" then t else t.(assignedLeadId := if host == "" then agent else agent + "@" + host)
  }

  // ----------------------------------------------------------- handler steps

  function Put(w: World, t: HmasTask): World {
    w.(tasks := w.tasks[t.id := t])
  }

  /** All blockers of a task are stored and Completed. */
  predicate Clear(w: World, t: HmasTask) {
    forall b :: b in t.blockedBy ==> b in w.tasks && w.tasks[b].state.Completed?
  }

  /** A waiting task whose blockers are all done is delegated and dispatched. */
  function DelegateIfClear(w: World, id: string): World {
    if id in w.tasks && w.tasks[id].state.Pending? && Clear(w, w.tasks[id])
    then World(w.tasks[id := w.tasks[id].(state := Delegated)], w.dispatched + [id])
    else w
  }

  function DelegateChildren(w: World, children: seq<string>): World {
    if children == [] then w
    else DelegateIfClear(DelegateChildren(w, children[..|children| - 1]), children[|children| - 1])
  }

  function OnCompletion(w: World, id: string, now: string): World {
    if id == "" || id !in w.tasks then w
    else DelegateChildren(Put(w, Finished(w.tasks[id], now)), w.tasks[id].childTaskIds)
  }

  function OnStarted(w: World, id: string, agent: string, host: string): World {
    if id == "" || id !in w.tasks then w
    else Put(w, Claimed(Started(w.tasks[id]), agent, host))
  }

  function OnFailed(w: World, id: string, now: string): World {
    if id == "" || id !in w.tasks then w
    else Put(w, Broken(w.tasks[id], now))
  }

  function Escalation(t: HmasTask, reason: string, now: string): HmasTask {
    t.(state := Escalated, escalations := t.escalations + [EscalationRecord(t.id, reason, now, t.layer)])
  }

  function OnEscalate(w: World, id: string, reason: string, now: string): World {
    if id !in w.tasks || !w.tasks[id].state.InProgress? then w
    else Put(w, Escalation(w.tasks[id], reason, now))
  }

  function Stored(tasks: map<string, HmasTask>, ts: seq<HmasTask>): map<string, HmasTask> {
    if ts == [] then tasks else Stored(tasks, ts[..|ts| - 1])[ts[|ts| - 1].id := ts[|ts| - 1]]
  }

  /** Store a plan, then delegate and dispatch its root. */
  function OnSubmit(w: World, plan: seq<HmasTask>): World
    requires plan != []
  {
    var root := plan[0].(state := Delegated);
    World(Stored(w.tasks, plan)[root.id := root], w.dispatched + [root.id])
  }

  /** An epic's placeholder root is parked in Decomposing and dispatched. */
  function OnEpic(w: World, root: HmasTask): World {
    World(w.tasks[root.id := root.(state := Decomposing)], w.dispatched + [root.id])
  }

  /** A remainder subtask of a split; None stands for one without a title. */
  datatype Subtask = Subtask(title: string, description: string, issue: int, baseBranch: string, blockers: seq<string>)

  function Remainder(original: HmasTask, sub: Subtask, id: string, prev: string, now: string): HmasTask {
    var branch := if sub.baseBranch == "" then ""
                  else (if sub.description == "" then "" else "\n") + "Base branch: " + sub.baseBranch;
    HmasTask(id, original.briefId, original.parentTaskId, original.layer, Pending, sub.title,
             sub.description + branch, original.repo, original.moduleName, sub.issue, "",
             [original.id] + (if prev == "" then [] else [prev]) + sub.blockers,
             [], [], now, "")
  }

  /** The tasks of the first n subtasks, each queued behind the one before it. */
  function Remainders(original: HmasTask, subs: seq<Option<Subtask>>, ids: seq<string>, now: string, n: nat): (ts: seq<HmasTask>)
    requires n <= |subs| <= |ids| && forall k :: 0 <= k < n ==> subs[k].Some?
    ensures |ts| == n && forall k :: 0 <= k < n ==> ts[k].id == ids[k]
  {
    if n == 0 then []
    else Remainders(original, subs, ids, now, n - 1)
         + [Remainder(original, subs[n - 1].value, ids[n - 1], if n == 1 then "" else ids[n - 2], now)]
  }

  /** How many subtasks come before the first one without a title. */
  function GoodPrefix(subs: seq<Option<Subtask>>): (n: nat)
    ensures n <= |subs| && (forall k :: 0 <= k < n ==> subs[k].Some?) && (n < |subs| ==> subs[n].None?)
  {
    if subs == [] || subs[0].None? then 0
    else
      var n := GoodPrefix(subs[1..]);
      assert forall k :: 0 < k < 1 + n ==> subs[k] == subs[1..][k - 1];
      1 + n
  }

  /**
   Subtasks before a malformed one are stored; only if all are well formed is the original
   linked to them.
   */
  function OnSplit(w: World, id: string, subs: seq<Option<Subtask>>, ids: seq<string>, now: string): World
    requires |subs| <= |ids|
  {
    if id !in w.tasks || subs == [] then w
    else
      var original := w.tasks[id];
      var n := GoodPrefix(subs);
      var stored := Stored(w.tasks, Remainders(original, subs, ids, now, n));
      if n < |subs| then w.(tasks := stored)
      else w.(tasks := stored[id := original.(childTaskIds := original.childTaskIds + ids[..n])])
  }

  // -------------------------------------------------------------- the steps

  datatype Step =
    | Submit(plan: Plan, tasks: seq<HmasTask>)
    | Epic(root: HmasTask)
    | Split(id: string, subs: seq<Option<Subtask>>, ids: seq<string>, now: string)
    | Escalate(id: string, reason: string, now: string)
    | Completion(id: string, now: string)
    | Start(id: string, agent: string, host: string)
    | Failure(id: string, now: string)

  ghost predicate FreshIds(w: World, ids: seq<string>) {
    && Distinct(ids)
    && forall k :: 0 <= k < |ids| ==> ids[k] != "" && ids[k] !in w.tasks
  }

  /** Ids come from generate_uuid and are new; the clock never reads empty. */
  ghost predicate Enabled(w: World, step: Step) {
    match step
    case Submit(p, ts) => Breakdown.IsPlan(p, ts) && FreshIds(w, p.ids)
    case Epic(root) =>
      && FreshIds(w, [root.id])
      && root.state.Pending? && root.completedAt == "" && root.blockedBy == [] && root.childTaskIds == []
    case Split(_, subs, ids, now) => FreshIds(w, ids) && |subs| <= |ids| && now != ""
    case Escalate(_, _, now) => now != ""
    case Completion(_, now) => now != ""
    case Start(_, _, _) => true
    case Failure(_, now) => now != ""
  }

  lemma PlansAreNotEmpty(p: Plan, ts: seq<HmasTask>)
    requires Breakdown.IsPlan(p, ts)
    ensures ts != []
  {
    Breakdown.PlanBasics(p, ts);
  }

  ghost function Apply(w: World, step: Step): World
    requires Enabled(w, step)
  {
    match step
    case Submit(p, ts) => PlansAreNotEmpty(p, ts); OnSubmit(w, ts)
    case Epic(root) => OnEpic(w, root)
    case Split(id, subs, ids, now) => OnSplit(w, id, subs, ids, now)
    case Escalate(id, reason, now) => OnEscalate(w, id, reason, now)
    case Completion(id, now) => OnCompletion(w, id, now)
    case Start(id, agent, host) => OnStarted(w, id, agent, host)
    case Failure(id, now) => OnFailed(w, id, now)
  }

  // --------------------------------------------------------------- invariant

  ghost predicate Keyed(w: World) {
    forall id :: id in w.tasks ==> id != "" && w.tasks[id].id == id
  }

  ghost predicate AllStamped(w: World) {
    forall id :: id in w.tasks ==> Stamped(w.tasks[id])
  }

  /** Nothing is dispatched twice, and what was dispatched is stored and no longer Pending. */
  ghost predicate DispatchedOnce(w: World) {
    && Distinct(w.dispatched)
    && forall k :: 0 <= k < |w.dispatched| ==> w.dispatched[k] in w.tasks && !w.tasks[w.dispatched[k]].state.Pending?
  }

  /** Every id in a child list names a stored task that lists the lister as a blocker. */
  ghost predicate ChildrenBlocked(w: World) {
    forall id, c :: id in w.tasks && c in w.tasks[id].childTaskIds ==> c in w.tasks && id in w.tasks[c].blockedBy
  }

  ghost predicate Inv(w: World) {
    Keyed(w) && AllStamped(w) && DispatchedOnce(w) && ChildrenBlocked(w)
  }

  /** Whatever has left Pending had all its blockers Completed. */
  ghost predicate Safe(w: World) {
    forall id :: id in w.tasks && !w.tasks[id].state.Pending? ==> Clear(w, w.tasks[id])
  }

  /** Workers report only on tasks that were dispatched to them. */
  ghost predicate ReportsDispatched(w: World, step: Step) {
    && (step.Completion? && step.id in w.tasks ==> step.id in w.dispatched)
    && (step.Start? && step.id in w.tasks ==> step.id in w.dispatched)
    && (step.Failure? && step.id in w.tasks ==> step.id in w.dispatched)
  }

  // -------------------------------------------------------- order of worlds

  /** What may happen to a stored task. */
  ghost predicate Later(t: HmasTask, u: HmasTask) {
    && u.id == t.id && u.blockedBy == t.blockedBy && u.layer == t.layer
    && (!t.state.Pending? ==> !u.state.Pending?)
    && (Terminal(t.state) ==> u.state == t.state && u.completedAt == t.completedAt)
    && t.childTaskIds <= u.childTaskIds
  }

  /** Tasks stay stored, leave Pending for good, and stay as they are once terminal; the log only grows. */
  ghost predicate Advances(w: World, v: World) {
    && w.dispatched <= v.dispatched
    && forall id :: id in w.tasks ==> id in v.tasks && Later(w.tasks[id], v.tasks[id])
  }

  lemma AdvancesTransitive(u: World, v: World, w: World)
    requires Advances(u, v) && Advances(v, w)
    ensures Advances(u, w)
  {
    forall id | id in u.tasks ensures id in w.tasks && Later(u.tasks[id], w.tasks[id]) {
      assert Later(u.tasks[id], v.tasks[id]) && Later(v.tasks[id], w.tasks[id]);
    }
  }

  lemma ClearStays(w: World, v: World, t: HmasTask)
    requires Advances(w, v) && Clear(w, t)
    ensures Clear(v, t)
  {
    forall b | b in t.blockedBy ensures b in v.tasks && v.tasks[b].state.Completed? {
      assert Later(w.tasks[b], v.tasks[b]);
    }
  }

  // ------------------------------------------------- replacing a single task

  lemma PutKeepsRest(w: World, t: HmasTask)
    requires Keyed(w) && AllStamped(w) && DispatchedOnce(w)
    requires t.id in w.tasks && Later(w.tasks[t.id], t) && Stamped(t)
    ensures Keyed(Put(w, t)) && AllStamped(Put(w, t)) && DispatchedOnce(Put(w, t)) && Advances(w, Put(w, t))
  {
    var v := Put(w, t);
    forall id | id in w.tasks ensures id in v.tasks && Later(w.tasks[id], v.tasks[id]) {
    }
  }

  /** Changing one stored task, keeping its links, keeps the invariant. */
  lemma PutKeeps(w: World, t: HmasTask)
    requires Inv(w) && t.id in w.tasks && Later(w.tasks[t.id], t) && Stamped(t)
    requires t.childTaskIds == w.tasks[t.id].childTaskIds
    ensures Inv(Put(w, t)) && Advances(w, Put(w, t))
  {
    var v := Put(w, t);
    PutKeepsRest(w, t);
    forall id, c | id in v.tasks && c in v.tasks[id].childTaskIds ensures c in v.tasks && id in v.tasks[c].blockedBy {
      assert c in w.tasks[id].childTaskIds;
    }
  }

  lemma PutKeepsSafe(w: World, t: HmasTask)
    requires Safe(w) && t.id in w.tasks && Later(w.tasks[t.id], t) && Advances(w, Put(w, t))
    requires !w.tasks[t.id].state.Pending? || t.state.Pending? || Clear(w, t)
    ensures Safe(Put(w, t))
  {
    var v := Put(w, t);
    forall id | id in v.tasks && !v.tasks[id].state.Pending? ensures Clear(v, v.tasks[id]) {
      if id == t.id {
        assert Clear(w, t) by {
          if !w.tasks[t.id].state.Pending? { assert Clear(w, w.tasks[t.id]); }
        }
      }
      ClearStays(w, v, v.tasks[id]);
    }
  }

  // ------------------------------------------------------ delegating children

  lemma DelegateKeeps(w: World, id: string)
    requires Inv(w)
    ensures Inv(DelegateIfClear(w, id)) && Advances(w, DelegateIfClear(w, id))
    ensures Safe(w) ==> Safe(DelegateIfClear(w, id))
  {
    var v := DelegateIfClear(w, id);
    if v != w {
      var t := w.tasks[id].(state := Delegated);
      var u := Put(w, t);
      assert v == u.(dispatched := w.dispatched + [id]);
      PutKeeps(w, t);
      assert id !in w.dispatched;
      if Safe(w) {
        PutKeepsSafe(w, t);
        SameTasksSafe(u, v);
      }
      assert ChildrenBlocked(v) by { assert ChildrenBlocked(u); }
    }
  }

  lemma SameTasksSafe(u: World, v: World)
    requires Safe(u) && v.tasks == u.tasks
    ensures Safe(v)
  {
    forall id | id in v.tasks && !v.tasks[id].state.Pending? ensures Clear(v, v.tasks[id]) {
      assert Clear(u, u.tasks[id]);
    }
  }

  lemma {:induction false} DelegateAllKeeps(w: World, children: seq<string>)
    requires Inv(w)
    ensures Inv(DelegateChildren(w, children)) && Advances(w, DelegateChildren(w, children))
    ensures Safe(w) ==> Safe(DelegateChildren(w, children))
  {
    hide Inv, Safe;
    if children == [] {
      AdvancesReflexive(w);
    } else {
      var rest := children[..|children| - 1];
      var v := DelegateChildren(w, rest);
      DelegateAllKeeps(w, rest);
      DelegateKeeps(v, children[|children| - 1]);
      AdvancesTransitive(w, v, DelegateChildren(w, children));
    }
  }

  lemma AdvancesReflexive(w: World)
    ensures Advances(w, w)
  {
  }

  // --------------------------------------------------------- storing new tasks

  lemma {:induction false} StoredEntries(tasks: map<string, HmasTask>, ts: seq<HmasTask>)
    requires DistinctTaskIds(ts)
    ensures forall id :: id in Stored(tasks, ts) <==> id in tasks || HasId(ts, id)
    ensures forall k :: 0 <= k < |ts| ==> ts[k].id in Stored(tasks, ts) && Stored(tasks, ts)[ts[k].id] == ts[k]
    ensures forall id :: id in tasks && !HasId(ts, id) ==> Stored(tasks, ts)[id] == tasks[id]
  {
    if ts != [] {
      var shorter := ts[..|ts| - 1];
      var last := ts[|ts| - 1];
      assert forall k :: 0 <= k < |shorter| ==> shorter[k] == ts[k];
      StoredEntries(tasks, shorter);
      forall id ensures HasId(ts, id) <==> HasId(shorter, id) || id == last.id {
        if HasId(shorter, id) {
          var k :| 0 <= k < |shorter| && shorter[k].id == id;
          assert ts[k].id == id;
        }
      }
    }
  }

  /** New waiting tasks, whose child links stay among themselves and are answered by blockers. */
  ghost predicate Newcomers(w: World, ts: seq<HmasTask>) {
    && DistinctTaskIds(ts)
    && (forall k :: 0 <= k < |ts| ==> ts[k].id != "" && ts[k].id !in w.tasks && ts[k].state.Pending? && ts[k].completedAt == "")
    && (forall k, c :: 0 <= k < |ts| && c in ts[k].childTaskIds ==> AnswersIn(ts, c, ts[k].id))
  }

  /** Some task of the list has this id and lists the blocker. */
  ghost predicate AnswersIn(ts: seq<HmasTask>, id: string, blocker: string) {
    exists k :: 0 <= k < |ts| && ts[k].id == id && blocker in ts[k].blockedBy
  }

  lemma StoreKeeps(w: World, ts: seq<HmasTask>)
    requires Inv(w) && Newcomers(w, ts)
    ensures
      var v := w.(tasks := Stored(w.tasks, ts));
      Inv(v) && Advances(w, v) && (Safe(w) ==> Safe(v))
  {
    var v := w.(tasks := Stored(w.tasks, ts));
    StoredEntries(w.tasks, ts);
    assert forall id :: id in w.tasks ==> !HasId(ts, id);
    assert Advances(w, v);
    assert Keyed(v) && AllStamped(v) by {
      forall id | id in v.tasks ensures id != "" && v.tasks[id].id == id && Stamped(v.tasks[id]) {
        if HasId(ts, id) { var k :| 0 <= k < |ts| && ts[k].id == id; }
      }
    }
    assert ChildrenBlocked(v) by { StoreKeepsChildren(w, ts); }
    if Safe(w) {
      assert forall id :: HasId(ts, id) ==> v.tasks[id].state.Pending?;
      forall id | id in v.tasks && !v.tasks[id].state.Pending? ensures Clear(v, v.tasks[id]) {
        assert Clear(w, w.tasks[id]);
        ClearStays(w, v, w.tasks[id]);
      }
    }
  }

  lemma StoreKeepsChildren(w: World, ts: seq<HmasTask>)
    requires Keyed(w) && ChildrenBlocked(w) && Newcomers(w, ts)
    ensures ChildrenBlocked(w.(tasks := Stored(w.tasks, ts)))
  {
    var v := w.(tasks := Stored(w.tasks, ts));
    StoredEntries(w.tasks, ts);
    forall id, c | id in v.tasks && c in v.tasks[id].childTaskIds ensures c in v.tasks && id in v.tasks[c].blockedBy {
      if HasId(ts, id) {
        var k :| 0 <= k < |ts| && ts[k].id == id;
        assert AnswersIn(ts, c, id);
        var m :| 0 <= m < |ts| && ts[m].id == c && id in ts[m].blockedBy;
      } else {
        assert c in w.tasks && !HasId(ts, c);
      }
    }
  }

  // ---------------------------------------------------------------- submission

  lemma PlanNewcomers(w: World, p: Plan, ts: seq<HmasTask>)
    requires Breakdown.IsPlan(p, ts) && FreshIds(w, p.ids)
    ensures Newcomers(w, ts) && ts != [] && ts[0].blockedBy == []
  {
    hide Breakdown.IsPlan;
    Breakdown.PlanBasics(p, ts);
    PlansAreNotEmpty(p, ts);
    forall k, c | 0 <= k < |ts| && c in ts[k].childTaskIds ensures AnswersIn(ts, c, ts[k].id) {
      var a := Breakdown.ChildrenAreBlocked(p, ts, k, c);
    }
    RootUnblocked(p, ts);
  }

  /** The root of a plan waits for nothing. */
  lemma RootUnblocked(p: Plan, ts: seq<HmasTask>)
    requires Breakdown.IsPlan(p, ts)
    ensures ts != [] && ts[0].blockedBy == []
  {
    Breakdown.PlanBasics(p, ts);
    Breakdown.LinksStayInside(p, ts, 0);
    hide Breakdown.IsPlan;
    if ts[0].blockedBy != [] {
      var x := ts[0].blockedBy[0];
      assert x in ts[0].blockedBy;
      var b :| 0 <= b < |ts| && ts[b].id == x;
      Breakdown.BlockersExactly(p, ts, 0, b);
      Breakdown.RootHasNoEdges(p, b);
    }
  }

  lemma SubmitKeeps(w: World, p: Plan, ts: seq<HmasTask>)
    requires Inv(w) && Breakdown.IsPlan(p, ts) && FreshIds(w, p.ids) && ts != []
    ensures Inv(OnSubmit(w, ts)) && Advances(w, OnSubmit(w, ts))
    ensures Safe(w) ==> Safe(OnSubmit(w, ts))
  {
    hide Breakdown.IsPlan;
    PlanNewcomers(w, p, ts);
    StoreKeeps(w, ts);
    StoredEntries(w.tasks, ts);
    var u := w.(tasks := Stored(w.tasks, ts));
    var root := ts[0].(state := Delegated);
    assert u.tasks[root.id] == ts[0];
    DelegateKeeps(u, root.id);
    assert Clear(u, ts[0]);
    assert OnSubmit(w, ts) == DelegateIfClear(u, root.id);
    AdvancesTransitive(w, u, OnSubmit(w, ts));
  }

  lemma EpicKeeps(w: World, root: HmasTask)
    requires Inv(w) && Enabled(w, Epic(root))
    ensures Inv(OnEpic(w, root)) && Advances(w, OnEpic(w, root))
    ensures Safe(w) ==> Safe(OnEpic(w, root))
  {
    var v := OnEpic(w, root);
    assert [root.id][0] == root.id;
    assert forall k :: 0 <= k < |w.dispatched| ==> w.dispatched[k] != root.id;
    assert Advances(w, v);
    if Safe(w) {
      forall id | id in v.tasks && !v.tasks[id].state.Pending? ensures Clear(v, v.tasks[id]) {
        if id != root.id {
          assert Clear(w, w.tasks[id]);
          ClearStays(w, v, w.tasks[id]);
        }
      }
    }
  }

  // --------------------------------------------------------------------- split

  /** A remainder waits for the original and has no children yet. */
  ghost predicate Waits(original: HmasTask, t: HmasTask) {
    && t.state.Pending? && t.completedAt == "" && t.childTaskIds == []
    && original.id in t.blockedBy
  }

  lemma RemainderWaits(original: HmasTask, sub: Subtask, id: string, prev: string, now: string)
    ensures Waits(original, Remainder(original, sub, id, prev, now))
  {
    assert Remainder(original, sub, id, prev, now).blockedBy[0] == original.id;
  }

  lemma {:induction false} RemaindersWait(original: HmasTask, subs: seq<Option<Subtask>>, ids: seq<string>, now: string, n: nat)
    requires n <= |subs| <= |ids| && forall k :: 0 <= k < n ==> subs[k].Some?
    ensures forall k :: 0 <= k < n ==> Waits(original, Remainders(original, subs, ids, now, n)[k])
  {
    hide Remainder, Waits;
    if n > 0 {
      RemaindersWait(original, subs, ids, now, n - 1);
      RemainderWaits(original, subs[n - 1].value, ids[n - 1], if n == 1 then "" else ids[n - 2], now);
    }
  }

  lemma RemaindersAreNew(w: World, original: HmasTask, ts: seq<HmasTask>, ids: seq<string>)
    requires FreshIds(w, ids) && |ts| <= |ids|
    requires forall k :: 0 <= k < |ts| ==> ts[k].id == ids[k] && Waits(original, ts[k])
    ensures Newcomers(w, ts)
  {
  }

  lemma SplitKeeps(w: World, id: string, subs: seq<Option<Subtask>>, ids: seq<string>, now: string)
    requires Inv(w) && FreshIds(w, ids) && |subs| <= |ids|
    ensures Inv(OnSplit(w, id, subs, ids, now)) && Advances(w, OnSplit(w, id, subs, ids, now))
    ensures Safe(w) ==> Safe(OnSplit(w, id, subs, ids, now))
  {
    hide Remainders, Waits, GoodPrefix, Newcomers, Safe, FreshIds, Advances, AllStamped, DispatchedOnce, ChildrenBlocked;
    AdvancesReflexive(w);
    if id in w.tasks && subs != [] {
      var original := w.tasks[id];
      var n := GoodPrefix(subs);
      var ts := Remainders(original, subs, ids, now, n);
      RemaindersWait(original, subs, ids, now, n);
      RemaindersAreNew(w, original, ts, ids);
      StoreKeeps(w, ts);
      if n == |subs| {
        LinkKeeps(w, original, ts, ids[..n]);
      }
    }
  }

  lemma LinkedChildren(w: World, original: HmasTask, ts: seq<HmasTask>, ids: seq<string>)
    requires Keyed(w) && ChildrenBlocked(w) && Newcomers(w, ts) && original.id in w.tasks && w.tasks[original.id] == original
    requires |ids| == |ts| && forall k :: 0 <= k < |ts| ==> ts[k].id == ids[k] && original.id in ts[k].blockedBy
    ensures
      var linked := original.(childTaskIds := original.childTaskIds + ids);
      ChildrenBlocked(Put(w.(tasks := Stored(w.tasks, ts)), linked))
  {
    var u := w.(tasks := Stored(w.tasks, ts));
    StoreKeepsChildren(w, ts);
    StoredEntries(w.tasks, ts);
    hide Newcomers, Stored, HasId, DistinctTaskIds;
    var linked := original.(childTaskIds := original.childTaskIds + ids);
    var v := Put(u, linked);
    forall c | c in linked.childTaskIds ensures c in u.tasks && original.id in u.tasks[c].blockedBy {
      if c in ids {
        var k :| 0 <= k < |ids| && ids[k] == c;
        assert u.tasks[ts[k].id] == ts[k];
      }
    }
  }

  /** Linking a task to new tasks that list it as a blocker. */
  lemma LinkKeeps(w: World, original: HmasTask, ts: seq<HmasTask>, ids: seq<string>)
    requires Inv(w) && Newcomers(w, ts) && original.id in w.tasks && w.tasks[original.id] == original
    requires |ids| == |ts| && forall k :: 0 <= k < |ts| ==> ts[k].id == ids[k] && Waits(original, ts[k])
    ensures
      var linked := original.(childTaskIds := original.childTaskIds + ids);
      var v := w.(tasks := Stored(w.tasks, ts)[original.id := linked]);
      Inv(v) && Advances(w, v) && (Safe(w) ==> Safe(v))
  {
    var u := w.(tasks := Stored(w.tasks, ts));
    StoreKeeps(w, ts);
    StoredEntries(w.tasks, ts);
    assert !HasId(ts, original.id);
    LinkedChildren(w, original, ts, ids);
    hide *;
    var linked := original.(childTaskIds := original.childTaskIds + ids);
    LinkOne(w, u, original, linked);
    PutIsUpdate(u, linked);
  }

  lemma PutIsUpdate(u: World, t: HmasTask)
    ensures Put(u, t) == u.(tasks := u.tasks[t.id := t])
  {
  }

  lemma LinkOne(w: World, u: World, original: HmasTask, linked: HmasTask)
    requires Inv(u) && Advances(w, u) && (Safe(w) ==> Safe(u))
    requires original.id in u.tasks && u.tasks[original.id] == original
    requires original.childTaskIds <= linked.childTaskIds && linked == original.(childTaskIds := linked.childTaskIds)
    requires ChildrenBlocked(Put(u, linked))
    ensures Inv(Put(u, linked)) && Advances(w, Put(u, linked)) && (Safe(w) ==> Safe(Put(u, linked)))
  {
    assert Stamped(original);
    hide ChildrenBlocked, Clear, Safe;
    PutKeepsRest(u, linked);
    AdvancesTransitive(w, u, Put(u, linked));
    if Safe(u) {
      SafeAt(u, original.id);
      PutKeepsSafe(u, linked);
    }
  }

  lemma SafeAt(w: World, id: string)
    requires Safe(w) && id in w.tasks
    ensures w.tasks[id].state.Pending? || Clear(w, w.tasks[id])
  {
  }

  // ------------------------------------------------- storing, one at a time

  lemma StoredNothing(tasks: map<string, HmasTask>)
    ensures Stored(tasks, []) == tasks
  {
  }

  lemma StoredStep(tasks: map<string, HmasTask>, ts: seq<HmasTask>, k: nat)
    requires k < |ts| && DistinctTaskIds(ts) && ts[k].id !in tasks
    ensures ts[k].id !in Stored(tasks, ts[..k])
    ensures Stored(tasks, ts[..k + 1]) == Stored(tasks, ts[..k])[ts[k].id := ts[k]]
  {
    StoredEntries(tasks, ts[..k]);
    assert !HasId(ts[..k], ts[k].id);
    assert ts[..k + 1][..k] == ts[..k];
  }

  lemma NoRemainders(w: World, original: HmasTask, subs: seq<Option<Subtask>>, ids: seq<string>, now: string)
    requires |subs| <= |ids|
    ensures Stored(w.tasks, Remainders(original, subs, ids, now, 0)) == w.tasks
  {
  }

  lemma RemainderStep(w: World, original: HmasTask, subs: seq<Option<Subtask>>, ids: seq<string>, now: string, n: nat)
    requires FreshIds(w, ids) && |subs| <= |ids|
    requires n < GoodPrefix(subs)
    ensures
      var child := Remainder(original, subs[n].value, ids[n], if n == 0 then "" else ids[n - 1], now);
      && child.id == ids[n]
      && ids[n] !in Stored(w.tasks, Remainders(original, subs, ids, now, n))
      && Stored(w.tasks, Remainders(original, subs, ids, now, n + 1))
         == Stored(w.tasks, Remainders(original, subs, ids, now, n))[ids[n] := child]
  {
    var ts := Remainders(original, subs, ids, now, n + 1);
    hide GoodPrefix;
    assert ts[..n] == Remainders(original, subs, ids, now, n) && ts[..n + 1] == ts;
    StoredStep(w.tasks, ts, n);
  }

  lemma RemaindersLeaveOthers(w: World, original: HmasTask, subs: seq<Option<Subtask>>, ids: seq<string>, now: string, id: string)
    requires FreshIds(w, ids) && |subs| <= |ids| && id in w.tasks
    ensures
      var n := GoodPrefix(subs);
      var stored := Stored(w.tasks, Remainders(original, subs, ids, now, n));
      id in stored && stored[id] == w.tasks[id]
  {
    var ts := Remainders(original, subs, ids, now, GoodPrefix(subs));
    StoredEntries(w.tasks, ts);
    assert !HasId(ts, id);
  }
}
