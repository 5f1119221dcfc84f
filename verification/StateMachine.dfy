/** The guarded state machine that drives a task. */
module StateMachine {
  import opened Common
  import opened HmasTypes

  datatype Guard = NoGuard | LeafOnly

  datatype Action = NoAction | StampCompletion

  datatype Transition = Transition(target: TaskState, guard: Guard, action: Action)

  /** The state diagram: each state has at most one transition for an event. */
  function Diagram(s: TaskState, event: TaskEvent): Option<Transition> {
    match (s, event)
    case (Pending, Submit) => Some(Transition(Decomposing, NoGuard, NoAction))
    case (Decomposing, Delegate) => Some(Transition(Delegated, NoGuard, NoAction))
    case (Pending, Delegate) => Some(Transition(Delegated, LeafOnly, NoAction))
    case (Delegated, Start) => Some(Transition(InProgress, NoGuard, NoAction))
    case (InProgress, Escalate) => Some(Transition(Escalated, NoGuard, NoAction))
    case (Escalated, Retry) => Some(Transition(Delegated, NoGuard, NoAction))
    case (InProgress, Complete) => Some(Transition(Completed, NoGuard, StampCompletion))
    case (InProgress, Fail) => Some(Transition(Failed, NoGuard, StampCompletion))
    case (Escalated, Fail) => Some(Transition(Failed, NoGuard, StampCompletion))
    case _ => None
  }

  predicate Passes(guard: Guard, t: HmasTask) {
    guard.NoGuard? || t.layer.L3_TaskAgent?
  }

  function Acted(action: Action, t: HmasTask, now: string): HmasTask {
    if action.StampCompletion? then t.(completedAt := now) else t
  }

  /** What one event does to a task; None if the event is rejected. */
  function After(t: HmasTask, event: TaskEvent, now: string): Option<HmasTask> {
    var tr := Diagram(t.state, event);
    if tr.None? || !Passes(tr.value.guard, t) then None
    else Some(Acted(tr.value.action, t.(state := tr.value.target), now))
  }

  /** A rejected event leaves the task as it is. */
  function Stepped(t: HmasTask, event: TaskEvent, now: string): HmasTask {
    var next := After(t, event, now);
    if next.Some? then next.value else t
  }

  /** The first candidate whose guard passes. */
  function FirstMatch(candidates: seq<Transition>, t: HmasTask, now: string): Option<HmasTask> {
    if candidates == [] then None
    else if Passes(candidates[0].guard, t) then
      Some(Acted(candidates[0].action, t.(state := candidates[0].target), now))
    else FirstMatch(candidates[1..], t, now)
  }

  function Candidates(table: map<(TaskState, TaskEvent), seq<Transition>>, s: TaskState, event: TaskEvent): seq<Transition> {
    if (s, event) in table then table[(s, event)] else []
  }

  /** One more candidate at the end of a row. */
  function Added(table: map<(TaskState, TaskEvent), seq<Transition>>, from: TaskState, event: TaskEvent, tr: Transition)
    : (r: map<(TaskState, TaskEvent), seq<Transition>>)
    ensures forall s: TaskState, e: TaskEvent :: s != from || e != event ==>
              Candidates(r, s, e) == Candidates(table, s, e)
    ensures Candidates(r, from, event) == Candidates(table, from, event) + [tr]
  {
    table[(from, event) := Candidates(table, from, event) + [tr]]
  }

  lemma NoRows()
    ensures forall s: TaskState, e: TaskEvent :: Candidates(map[], s, e) == []
  {
  }

  /** The candidates the table should hold. */
  function Row(s: TaskState, event: TaskEvent): seq<Transition> {
    var tr := Diagram(s, event);
    if tr.None? then [] else [tr.value]
  }

  lemma RowMeansAfter(t: HmasTask, event: TaskEvent, now: string)
    ensures FirstMatch(Row(t.state, event), t, now) == After(t, event, now)
  {
    hide Diagram;
    var row := Row(t.state, event);
    if row != [] {
      assert row[1..] == [];
    }
  }

  class TaskStateMachine {
    var table: map<(TaskState, TaskEvent), seq<Transition>>

    /** The table says what the state diagram says. */
    ghost predicate Valid()
      reads this
    {
      forall s: TaskState, event: TaskEvent :: Candidates(table, s, event) == Row(s, event)
    }

    constructor ()
      ensures Valid()
    {
      hide Added;
      var t1 := Added(map[], Pending, Submit, Transition(Decomposing, NoGuard, NoAction));
      var t2 := Added(t1, Decomposing, Delegate, Transition(Delegated, NoGuard, NoAction));
      var t3 := Added(t2, Pending, Delegate, Transition(Delegated, LeafOnly, NoAction));
      var t4 := Added(t3, Delegated, Start, Transition(InProgress, NoGuard, NoAction));
      var t5 := Added(t4, InProgress, Escalate, Transition(Escalated, NoGuard, NoAction));
      var t6 := Added(t5, Escalated, Retry, Transition(Delegated, NoGuard, NoAction));
      var t7 := Added(t6, InProgress, Complete, Transition(Completed, NoGuard, StampCompletion));
      var t8 := Added(t7, InProgress, Fail, Transition(Failed, NoGuard, StampCompletion));
      var t9 := Added(t8, Escalated, Fail, Transition(Failed, NoGuard, StampCompletion));
      NoRows();
      hide Candidates;
      table := t9;
    }

    /** The table lookup and guard loop apply exactly the transition of the state diagram. */
    method TryTransition(task: HmasTask, event: TaskEvent, now: string) returns (ok: bool, next: HmasTask)
      requires Valid()
      ensures next == Stepped(task, event, now)
      ensures ok <==> After(task, event, now).Some?
    {
      RowMeansAfter(task, event, now);
      hide Diagram;
      ok, next := false, task;
      if (task.state, event) !in table {
        return;
      }
      var candidates := table[(task.state, event)];
      var i := 0;
      while i < |candidates|
        invariant 0 <= i <= |candidates|
        invariant FirstMatch(candidates, task, now) == FirstMatch(candidates[i..], task, now)
      {
        if Passes(candidates[i].guard, task) {
          return true, Acted(candidates[i].action, task.(state := candidates[i].target), now);
        }
        i := i + 1;
      }
    }
  }

  // --------------------------------------------------------------- properties

  predicate Terminal(s: TaskState) {
    s.Completed? || s.Failed?
  }

  /** The completion stamp is set exactly in the two terminal states. */
  predicate Stamped(t: HmasTask) {
    t.completedAt != "" <==> Terminal(t.state)
  }

  /** The parts of a task that no event touches. */
  predicate SameBody(t: HmasTask, u: HmasTask) {
    u == t.(state := u.state, completedAt := u.completedAt)
  }

  /**
   What any accepted or rejected event keeps: the body, finality of terminal tasks, the stamp
   discipline; and Pending is never re-entered.
   */
  lemma StepDiscipline(t: HmasTask, event: TaskEvent, now: string)
    requires now != ""
    ensures
      var u := Stepped(t, event, now);
      && SameBody(t, u)
      && (Terminal(t.state) ==> u == t)
      && (Stamped(t) ==> Stamped(u))
      && (!t.state.Pending? ==> !u.state.Pending?)
  {
  }

  function SteppedAll(t: HmasTask, events: seq<(TaskEvent, string)>): HmasTask {
    if events == [] then t
    else
      var n := |events| - 1;
      Stepped(SteppedAll(t, events[..n]), events[n].0, events[n].1)
  }

  /** So does any sequence of events, whatever their order. */
  lemma {:induction false} SequenceDiscipline(t: HmasTask, events: seq<(TaskEvent, string)>)
    requires forall k :: 0 <= k < |events| ==> events[k].1 != ""
    ensures
      var u := SteppedAll(t, events);
      && SameBody(t, u)
      && (Terminal(t.state) ==> u == t)
      && (Stamped(t) ==> Stamped(u))
      && (!t.state.Pending? ==> !u.state.Pending?)
  {
    hide Stepped;
    if events != [] {
      var n := |events| - 1;
      SequenceDiscipline(t, events[..n]);
      StepDiscipline(SteppedAll(t, events[..n]), events[n].0, events[n].1);
    }
  }

  /** A terminal state accepts no event, and every other state accepts one that leads on. */
  lemma TerminalIffStuck(t: HmasTask, now: string)
    ensures Terminal(t.state) <==> forall event: TaskEvent :: After(t, event, now).None?
  {
    if !Terminal(t.state) {
      var event := match t.state
        case Pending => Submit
        case Decomposing => Delegate
        case Delegated => Start
        case InProgress => Complete
        case _ => Retry;
      assert After(t, event, now).Some?;
    }
  }

  /** Which events a task accepts where, and what they make of it. */
  lemma Lifecycle(t: HmasTask, event: TaskEvent, now: string)
    ensures t.state == Pending ==>
      && (event == Submit ==> After(t, event, now) == Some(t.(state := Decomposing)))
      && (event == Delegate && t.layer == L3_TaskAgent ==> After(t, event, now) == Some(t.(state := Delegated)))
      && (event != Submit && (event != Delegate || t.layer != L3_TaskAgent) ==> After(t, event, now) == None)
    ensures t.state == Decomposing ==>
      After(t, event, now) == if event == Delegate then Some(t.(state := Delegated)) else None
    ensures t.state == Delegated ==>
      After(t, event, now) == if event == Start then Some(t.(state := InProgress)) else None
    ensures t.state == InProgress ==>
      && (event == Complete ==> After(t, event, now) == Some(t.(state := Completed, completedAt := now)))
      && (event == Fail ==> After(t, event, now) == Some(t.(state := Failed, completedAt := now)))
      && (event == Escalate ==> After(t, event, now) == Some(t.(state := Escalated)))
      && (event != Complete && event != Fail && event != Escalate ==> After(t, event, now) == None)
    ensures t.state == Escalated ==>
      && (event == Retry ==> After(t, event, now) == Some(t.(state := Delegated)))
      && (event == Fail ==> After(t, event, now) == Some(t.(state := Failed, completedAt := now)))
      && (event != Retry && event != Fail ==> After(t, event, now) == None)
  {
  }
}
