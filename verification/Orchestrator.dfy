/** The orchestrator: handlers that walk tasks through the state machine and write them back. */
module Orchestration {
  import opened Common
  import opened HmasTypes
  import opened JsonValues
  import opened StateMachine
  import opened TaskStore
  import opened Planning
  import opened ImplRefs
  import opened Protocol
  import opened Text
  import Breakdown
  import PlanSkeleton

  class Orchestrator {
    const store: Store
    const machine: TaskStateMachine
    var dispatched: seq<string>     // ids handed to dispatch_task, in order

    ghost function Now(): World
      reads this, store
    {
      World(store.tasks, dispatched)
    }

    ghost predicate Ready()
      reads this, store, machine
    {
      machine.Valid() && Indexed(store.Value())
    }

    constructor (store: Store, machine: TaskStateMachine)
      ensures this.store == store && this.machine == machine && dispatched == []
    {
      this.store, this.machine, dispatched := store, machine, [];
    }

    // ---------------------------------------------------------- state walks

    /** The first part of every walk: from Pending or Decomposing to Delegated. */
    method WalkToDelegated(task: HmasTask, now: string) returns (t: HmasTask)
      requires machine.Valid()
      ensures t == if task.state.Pending? || task.state.Decomposing? then task.(state := Delegated) else task
    {
      t := task;
      if t.state.Pending? {
        var ok, next := machine.TryTransition(t, TaskEvent.Delegate, now);
        t := next;
        if !ok {
          ok, t := machine.TryTransition(t, TaskEvent.Submit, now);
        }
      }
      if t.state.Decomposing? {
        var ok, next := machine.TryTransition(t, TaskEvent.Delegate, now);
        t := next;
      }
    }

    /** From any state, a completion walk ends in Completed, unless the task was terminal already. */
    method WalkToCompleted(task: HmasTask, now: string) returns (t: HmasTask)
      requires machine.Valid()
      ensures t == Finished(task, now)
    {
      var ok: bool;
      t := task;
      if t.state.Escalated? {
        ok, t := machine.TryTransition(t, TaskEvent.Retry, now);
      }
      t := WalkToDelegated(t, now);
      if t.state.Delegated? {
        ok, t := machine.TryTransition(t, TaskEvent.Start, now);
      }
      ok, t := machine.TryTransition(t, TaskEvent.Complete, now);
    }

    method WalkToStarted(task: HmasTask, now: string) returns (t: HmasTask)
      requires machine.Valid()
      ensures t == Started(task)
    {
      var ok: bool;
      t := task;
      if t.state.Escalated? {
        ok, t := machine.TryTransition(t, TaskEvent.Retry, now);
      }
      t := WalkToDelegated(t, now);
      ok, t := machine.TryTransition(t, TaskEvent.Start, now);
    }

    method WalkToFailed(task: HmasTask, now: string) returns (t: HmasTask)
      requires machine.Valid()
      ensures t == Broken(task, now)
    {
      var ok: bool;
      t := WalkToDelegated(task, now);
      if t.state.Delegated? {
        ok, t := machine.TryTransition(t, TaskEvent.Start, now);
      }
      ok, t := machine.TryTransition(t, TaskEvent.Fail, now);
    }

    // ------------------------------------------------------------- handlers

    method Save(t: HmasTask)
      requires Ready() && t.id in store.tasks
      modifies store
      ensures Ready() && Now() == Put(old(Now()), t)
    {
      UpdateKeepsIndex(store.Value(), t);
      var _ := store.UpdateTask(t);
    }

    /** Delegates one task; true exactly for Pending and Decomposing tasks that are stored. */
    method DelegateTask(id: string, now: string) returns (done: bool)
      requires Ready() && Keyed(Now())
      modifies this`dispatched, store
      ensures Ready()
      ensures done <==> id in old(store.tasks) && (old(store.tasks)[id].state.Pending? || old(store.tasks)[id].state.Decomposing?)
      ensures Now() == if done
        then World(old(store.tasks)[id := old(store.tasks)[id].(state := Delegated)], old(dispatched) + [id])
        else old(Now())
    {
      var found := store.GetTask(id);
      if found.None? {
        return false;
      }
      var task := found.value;
      done, task := machine.TryTransition(task, TaskEvent.Delegate, now);
      if !done && task.state.Pending? {
        done, task := machine.TryTransition(task, TaskEvent.Submit, now);
        if done {
          done, task := machine.TryTransition(task, TaskEvent.Delegate, now);
        }
      }
      if !done {
        return;
      }
      Save(task);
      dispatched := dispatched + [task.id];
    }

    method IsClear(t: HmasTask) returns (clear: bool)
      ensures clear <==> Clear(Now(), t)
    {
      var k := 0;
      while k < |t.blockedBy|
        invariant 0 <= k <= |t.blockedBy|
        invariant forall j :: 0 <= j < k ==> t.blockedBy[j] in store.tasks && store.tasks[t.blockedBy[j]].state.Completed?
      {
        var blocker := store.GetTask(t.blockedBy[k]);
        if blocker.None? || !blocker.value.state.Completed? {
          assert t.blockedBy[k] in t.blockedBy;
          return false;
        }
        k := k + 1;
      }
      clear := true;
    }

    method DelegateUnblockedChildren(id: string, now: string)
      requires Ready() && Keyed(Now())
      modifies this`dispatched, store
      ensures Ready() && Keyed(Now())
      ensures Now() == if id in old(store.tasks) then DelegateChildren(old(Now()), old(store.tasks)[id].childTaskIds) else old(Now())
    {
      var found := store.GetTask(id);
      if found.None? {
        return;
      }
      var children := found.value.childTaskIds;
      var k := 0;
      while k < |children|
        invariant 0 <= k <= |children|
        invariant Ready() && Keyed(Now())
        invariant Now() == DelegateChildren(old(Now()), children[..k])
      {
        assert children[..k + 1][..k] == children[..k];
        var candidate := store.GetTask(children[k]);
        if candidate.Some? && candidate.value.state.Pending? {
          var clear := IsClear(candidate.value);
          if clear {
            var _ := DelegateTask(candidate.value.id, now);
          }
        }
        k := k + 1;
      }
      assert children[..k] == children;
    }

    method OnMyrmidonCompletion(id: string, now: string)
      requires Ready() && Keyed(Now())
      modifies this`dispatched, store
      ensures Ready() && Keyed(Now()) && Now() == OnCompletion(old(Now()), id, now)
    {
      if id == "" {
        return;
      }
      var found := store.GetTask(id);
      if found.None? {
        return;
      }
      var task := WalkToCompleted(found.value, now);
      Save(task);
      DelegateUnblockedChildren(id, now);
    }

    method OnMyrmidonStarted(id: string, agent: string, host: string, now: string)
      requires Ready() && Keyed(Now())
      modifies store
      ensures Ready() && Now() == OnStarted(old(Now()), id, agent, host)
    {
      if id == "" {
        return;
      }
      var found := store.GetTask(id);
      if found.None? {
        return;
      }
      var task := WalkToStarted(found.value, now);
      if agent != "" {
        task := task.(assignedLeadId := if host == "" then agent else agent + "@" + host);
      }
      Save(task);
    }

    method OnMyrmidonFailed(id: string, now: string)
      requires Ready() && Keyed(Now())
      modifies store
      ensures Ready() && Now() == OnFailed(old(Now()), id, now)
    {
      if id == "" {
        return;
      }
      var found := store.GetTask(id);
      if found.None? {
        return;
      }
      var task := WalkToFailed(found.value, now);
      Save(task);
    }

    method EscalateTask(id: string, reason: string, now: string) returns (done: bool)
      requires Ready() && Keyed(Now())
      modifies store
      ensures Ready() && Now() == OnEscalate(old(Now()), id, reason, now)
      ensures done <==> id in old(store.tasks) && old(store.tasks)[id].state.InProgress?
    {
      var found := store.GetTask(id);
      if found.None? {
        return false;
      }
      var task := found.value;
      done, task := machine.TryTransition(task, TaskEvent.Escalate, now);
      if !done {
        return;
      }
      task := task.(escalations := task.escalations + [EscalationRecord(id, reason, now, task.layer)]);
      Save(task);
    }

    method CreateNew(t: HmasTask)
      requires Ready() && t.id !in store.tasks
      modifies store
      ensures Ready() && store.tasks == old(store.tasks)[t.id := t]
    {
      CreateKeepsIndexIff(store.Value(), t);
      store.CreateTask(t);
    }

    method CreateAll(ts: seq<HmasTask>)
      requires Ready() && DistinctTaskIds(ts)
      requires forall k :: 0 <= k < |ts| ==> ts[k].id !in store.tasks
      modifies store
      ensures Ready() && store.tasks == Stored(old(store.tasks), ts)
    {
      hide Indexed, Stored;
      StoredNothing(store.tasks);
      var k := 0;
      while k < |ts|
        invariant 0 <= k <= |ts|
        invariant Ready() && store.tasks == Stored(old(store.tasks), ts[..k])
      {
        StoredStep(old(store.tasks), ts, k);
        CreateNew(ts[k]);
        k := k + 1;
      }
      assert ts[..k] == ts;
    }

    /** Decompose a brief, store the plan, and delegate and dispatch its root. */
    method SubmitBrief(p: Plan) returns (r: Result<string, ParseError>, ghost plan: seq<HmasTask>)
      requires Ready() && Keyed(Now()) && EnoughIds(p) && FreshIds(Now(), p.ids)
      modifies this`dispatched, store
      ensures Ready()
      ensures r.Ok? <==> Parseable(PlanSkeleton.Skeleton(p.brief))
      ensures r.Err? ==> Now() == old(Now())
      ensures r.Ok? ==> r.value == p.brief.id && Enabled(old(Now()), Step.Submit(p, plan)) && Now() == Apply(old(Now()), Step.Submit(p, plan))
    {
      hide EnoughIds, Parseable, PlanSkeleton.Skeleton, Breakdown.IsPlan, Stored, Indexed;
      plan := [];
      var decomposed := Breakdown.Decompose(p);
      if decomposed.Err? {
        return Err(decomposed.error), [];
      }
      var tasks := decomposed.value;
      plan := tasks;
      PlanNewcomers(Now(), p, tasks);
      CreateAll(tasks);
      StoredEntries(old(store.tasks), tasks);
      var root := tasks[0];
      var ok: bool;
      ok, root := machine.TryTransition(root, TaskEvent.Submit, p.createdAt);
      ok, root := machine.TryTransition(root, TaskEvent.Delegate, p.createdAt);
      Save(root);
      dispatched := dispatched + [root.id];
      r := Ok(p.brief.id);
    }

    /** An epic's root: stored, parked in Decomposing and dispatched; rejected without repo, key or issue. */
    method RegisterEpic(repo: string, key: string, issue: int, briefId: string, rootId: string, now: string)
      returns (r: string, ghost root: HmasTask)
      requires Ready() && Keyed(Now()) && FreshIds(Now(), [rootId])
      modifies this`dispatched, store
      ensures Ready()
      ensures repo == "" || key == "" || issue == 0 ==> r == "" && Now() == old(Now())
      ensures repo != "" && key != "" && issue != 0 ==>
        r == briefId && Enabled(old(Now()), Epic(root)) && Now() == Apply(old(Now()), Epic(root))
      ensures repo != "" && key != "" && issue != 0 ==>
        && store.tasks == old(store.tasks)[rootId :=
             HmasTask(rootId, briefId, "", L0_ChiefArchitect, Decomposing, "[epic] " + key,
                      "Decompose epic " + repo + "#" + IntText(issue), repo, "", issue, "", [], [], [], now, "")]
        && dispatched == old(dispatched) + [rootId]
    {
      var task := HmasTask(rootId, briefId, "", L0_ChiefArchitect, Pending, "[epic] " + key,
                           "Decompose epic " + repo + "#" + IntText(issue), repo, "", issue, "", [], [], [], now, "");
      root := task;
      if repo == "" || key == "" || issue == 0 {
        return "", root;
      }
      assert [rootId][0] == rootId;
      assert Enabled(old(Now()), Epic(root));
      hide Indexed, IntText, FreshIds, Enabled;
      CreateNew(task);
      var ok: bool;
      ok, task := machine.TryTransition(task, TaskEvent.Submit, now);
      Save(task);
      dispatched := dispatched + [task.id];
      r := briefId;
    }

    /** Reading one subtask: text and number fields must have their type, other blockers are skipped. */
    method ReadSubtask(j: Json) returns (r: Result<Subtask, SplitError>)
      ensures r == SubtaskOf(j)
    {
      hide TextItems;
      if !j.Obj? {
        return Err(NoTitle);
      }
      var title := TextOr(j.fields, "title", "");
      if title.None? {
        return Err(TypeError);
      }
      if title.value == "" {
        return Err(NoTitle);
      }
      var issue := IntOr(j.fields, "issue", 0);
      var description := TextOr(j.fields, "description", "");
      var branch := TextOr(j.fields, "base_branch", "");
      if issue.None? || description.None? || branch.None? {
        return Err(TypeError);
      }
      NoTextItems();
      var blockers := [];
      if "blocked_by" in j.fields && j.fields["blocked_by"].Arr? {
        var items := j.fields["blocked_by"].items;
        var k := 0;
        while k < |items|
          invariant 0 <= k <= |items| && blockers == TextItems(items[..k])
        {
          TextItemsStep(items, k);
          if items[k].Str? {
            blockers := blockers + [items[k].s];
          }
          k := k + 1;
        }
        assert items[..k] == items;
      }
      return Ok(Subtask(title.value, description.value, issue.value, branch.value, blockers));
    }

    /** The loop over the subtasks: stops at the first one that cannot be read. */
    method CreateRemainders(original: HmasTask, items: seq<Json>, ids: seq<string>, now: string)
      returns (created: seq<string>, error: Option<SplitError>)
      requires Ready() && FreshIds(Now(), ids) && |items| <= |ids|
      modifies store
      ensures
        var n := GoodPrefix(Subtasks(items));
        && Ready() && created == ids[..n]
        && store.tasks == Stored(old(store.tasks), Remainders(original, Subtasks(items), ids, now, n))
        && error == if n == |items| then None else Some(SubtaskOf(items[n]).error)
    {
      hide Indexed, Stored, Remainders, Remainder, GoodPrefix, FreshIds, SubtaskOf;
      ghost var subs := Subtasks(items);
      NoRemainders(old(Now()), original, subs, ids, now);
      created := [];
      var prev := "";
      var n := 0;
      while n < |items|
        invariant 0 <= n <= GoodPrefix(subs)
        invariant Ready() && store.tasks == Stored(old(store.tasks), Remainders(original, subs, ids, now, n))
        invariant created == ids[..n] && prev == (if n == 0 then "" else ids[n - 1])
      {
        var sub := ReadSubtask(items[n]);
        if sub.Err? {
          return created, Some(sub.error);
        }
        RemainderStep(old(Now()), original, subs, ids, now, n);
        var child := Remainder(original, sub.value, ids[n], prev, now);
        CreateNew(child);
        created := created + [ids[n]];
        prev := ids[n];
        n := n + 1;
      }
      error := None;
    }

    /** Remainder subtasks: stored as they are read, linked only if all of them can be read. */
    method SplitTask(id: string, subtasks: Json, ids: seq<string>, now: string) returns (r: Result<seq<string>, SplitError>)
      requires Ready() && Keyed(Now()) && FreshIds(Now(), ids) && |Items(subtasks)| <= |ids|
      modifies store
      ensures Ready() && Now() == OnSplit(old(Now()), id, Subtasks(Items(subtasks)), ids, now)
      ensures
        var n := GoodPrefix(Subtasks(Items(subtasks)));
        r == if id !in old(store.tasks) then Err(TaskNotFound)
             else if Items(subtasks) == [] then Err(NotAnArray)
             else if n == |Items(subtasks)| then Ok(ids[..n])
             else Err(SubtaskOf(Items(subtasks)[n]).error)
    {
      hide Indexed, Stored, Remainders, GoodPrefix, FreshIds, SubtaskOf;
      var found := store.GetTask(id);
      if found.None? {
        return Err(TaskNotFound);
      }
      if !subtasks.Arr? || subtasks.items == [] {
        return Err(NotAnArray);
      }
      var original := found.value;
      var created, error := CreateRemainders(original, subtasks.items, ids, now);
      if error.Some? {
        return Err(error.value);
      }
      RemaindersLeaveOthers(old(Now()), original, Subtasks(subtasks.items), ids, now, id);
      original := original.(childTaskIds := original.childTaskIds + created);
      Save(original);
      r := Ok(created);
    }
  }

  // ----------------------------------------------------------------- subtasks

  datatype SplitError = TaskNotFound | NotAnArray | NoTitle | TypeError

  /** The elements of a list; anything else counts as an empty one. */
  function Items(j: Json): seq<Json> {
    if j.Arr? then j.items else []
  }

  /** The strings among some values. */
  function TextItems(items: seq<Json>): seq<string> {
    if items == [] then []
    else
      var last := items[|items| - 1];
      TextItems(items[..|items| - 1]) + if last.Str? then [last.s] else []
  }

  lemma NoTextItems()
    ensures TextItems([]) == []
  {
  }

  lemma TextItemsStep(items: seq<Json>, k: nat)
    requires k < |items|
    ensures TextItems(items[..k + 1]) == TextItems(items[..k]) + if items[k].Str? then [items[k].s] else []
  {
    assert items[..k + 1][..k] == items[..k];
  }

  function SubtaskOf(j: Json): Result<Subtask, SplitError> {
    if !j.Obj? then Err(NoTitle)
    else
      var title := TextOr(j.fields, "title", "");
      if title == Some("") then Err(NoTitle)
      else
        var issue, description := IntOr(j.fields, "issue", 0), TextOr(j.fields, "description", "");
        var branch := TextOr(j.fields, "base_branch", "");
        if title.None? || issue.None? || description.None? || branch.None? then Err(TypeError)
        else
          var blockers := if "blocked_by" in j.fields then TextItems(Items(j.fields["blocked_by"])) else [];
          Ok(Subtask(title.value, description.value, issue.value, branch.value, blockers))
  }

  function Subtasks(items: seq<Json>): (subs: seq<Option<Subtask>>)
    ensures |subs| == |items|
    ensures forall k :: 0 <= k < |items| ==>
      subs[k] == if SubtaskOf(items[k]).Ok? then Some(SubtaskOf(items[k]).value) else None
  {
    seq(|items|, k requires 0 <= k < |items| =>
      if SubtaskOf(items[k]).Ok? then Some(SubtaskOf(items[k]).value) else None)
  }

  ghost predicate TextOrAbsent(m: map<string, Json>, key: string) {
    key in m ==> m[key].Str?
  }

  ghost predicate IntOrAbsent(m: map<string, Json>, key: string) {
    key in m ==> m[key].Num? || m[key].Float? || m[key].Bool?
  }

  /** A subtask can be read exactly when it has a title and no field of the wrong type; its fields by name. */
  lemma SubtaskMeans(j: Json)
    ensures SubtaskOf(j).Ok? <==>
      && j.Obj? && "title" in j.fields && j.fields["title"].Str? && j.fields["title"].s != ""
      && TextOrAbsent(j.fields, "description") && TextOrAbsent(j.fields, "base_branch") && IntOrAbsent(j.fields, "issue")
    ensures SubtaskOf(j) == Err(NoTitle) <==>
      !j.Obj? || "title" !in j.fields || j.fields["title"] == Str("")
    ensures SubtaskOf(j).Ok? ==>
      var m, sub := j.fields, SubtaskOf(j).value;
      && sub.title == m["title"].s
      && sub.description == (if "description" in m then m["description"].s else "")
      && sub.baseBranch == (if "base_branch" in m then m["base_branch"].s else "")
      && (if "issue" in m then IntOf(m["issue"]) == Some(sub.issue) else sub.issue == 0)
      && ("blocked_by" in m && m["blocked_by"].Arr? ==>
            sub.blockers == TextItems(m["blocked_by"].items)
            && forall b :: b in sub.blockers <==> Str(b) in m["blocked_by"].items)
      && ("blocked_by" !in m || !m["blocked_by"].Arr? ==> sub.blockers == [])
  {
    hide Int32, Truncated;
    if j.Obj? && "blocked_by" in j.fields && j.fields["blocked_by"].Arr? {
      TextItemsMembers(j.fields["blocked_by"].items);
    }
    NoTextItems();
    hide TextItems;
  }

  lemma {:induction false} TextItemsMembers(items: seq<Json>)
    ensures forall b :: b in TextItems(items) <==> Str(b) in items
    ensures (forall k :: 0 <= k < |items| ==> items[k].Str?) ==>
      |TextItems(items)| == |items| && forall k :: 0 <= k < |items| ==> Str(TextItems(items)[k]) == items[k]
  {
    if items != [] {
      var front := items[..|items| - 1];
      TextItemsMembers(front);
      assert items == front + [items[|items| - 1]];
    }
  }
}
