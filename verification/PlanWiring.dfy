/** The post-pass of the breakdown: "(depends on: #N)" annotations become blockers and child links. */
module PlanWiring {
  import opened Common
  import opened HmasTypes
  import opened ImplRefs

  // ------------------------------------------------------ annotated edges

  predicate RefersToIssue(t: HmasTask, n: int) {
    t.layer.L3_TaskAgent? && t.issue == n && n != 0
  }

  /** Task b is the first L3 task with issue n. */
  ghost predicate IsFirst(ts: seq<HmasTask>, n: int, b: nat) {
    && b < |ts|
    && RefersToIssue(ts[b], n)
    && forall k :: 0 <= k < b ==> !RefersToIssue(ts[k], n)
  }

  /** Issue numbers a task is annotated to depend on; only L3 tasks with an issue count. */
  function Annotated(t: HmasTask): seq<nat> {
    if t.layer.L3_TaskAgent? && t.issue != 0 && Parsed(t.subject).Ok? then Parsed(t.subject).value.dependsOn else []
  }

  /** The dependency at position d of task a resolves to another task b. */
  ghost predicate Resolves(ts: seq<HmasTask>, a: nat, d: nat, b: nat) {
    && a < |ts| && b < |ts| && a != b
    && d < |Annotated(ts[a])|
    && IsFirst(ts, Annotated(ts[a])[d], b)
  }

  /** One of the first m dependencies of task a resolves to task b. */
  ghost predicate EdgeBy(ts: seq<HmasTask>, a: nat, b: nat, m: nat) {
    exists d: nat :: d < m && Resolves(ts, a, d, b)
  }

  /** Task a is annotated to depend on task b. */
  ghost predicate Edge(ts: seq<HmasTask>, a: nat, b: nat) {
    a < |ts| && EdgeBy(ts, a, b, |Annotated(ts[a])|)
  }

  // ------------------------------------------------------ the wired list

  /** Dependencies of task a handled when the loops stand at task i, dependency d. */
  ghost function Done(ts: seq<HmasTask>, a: nat, i: nat, d: nat): nat
    requires a < |ts|
  {
    if a < i then |Annotated(ts[a])| else if a == i then d else 0
  }

  ghost predicate NewBlocker(ts: seq<HmasTask>, a: nat, x: string, i: nat, d: nat)
    requires a < |ts|
  {
    exists b: nat :: EdgeBy(ts, a, b, Done(ts, a, i, d)) && b < |ts| && ts[b].id == x
  }

  ghost predicate NewChild(ts: seq<HmasTask>, b: nat, x: string, i: nat, d: nat) {
    exists a: nat :: a < |ts| && EdgeBy(ts, a, b, Done(ts, a, i, d)) && ts[a].id == x
  }

  /** Old entries first and in order, the given new ones behind them, nothing twice. */
  ghost predicate Extends(before: seq<string>, after: seq<string>) {
    before <= after && (Distinct(before) ==> Distinct(after))
  }

  ghost predicate WiredTask(ts: seq<HmasTask>, t: HmasTask, a: nat, i: nat, d: nat)
    requires a < |ts|
  {
    && t == ts[a].(blockedBy := t.blockedBy, childTaskIds := t.childTaskIds)
    && Extends(ts[a].blockedBy, t.blockedBy)
    && Extends(ts[a].childTaskIds, t.childTaskIds)
    && (forall x :: x in t.blockedBy <==> x in ts[a].blockedBy || NewBlocker(ts, a, x, i, d))
    && (forall x :: x in t.childTaskIds <==> x in ts[a].childTaskIds || NewChild(ts, a, x, i, d))
  }

  ghost predicate WiredUpTo(ts: seq<HmasTask>, cur: seq<HmasTask>, i: nat, d: nat) {
    && |cur| == |ts|
    && forall a :: 0 <= a < |ts| ==> WiredTask(ts, cur[a], a, i, d)
  }

  /** The added edges are exactly the annotated ones. */
  ghost predicate Wired(ts: seq<HmasTask>, out: seq<HmasTask>) {
    WiredUpTo(ts, out, |ts|, 0)
  }

  // ---------------------------------------------------------- one dependency

  function Appended(s: seq<string>, x: string): (r: seq<string>)
    ensures Extends(s, r)
    ensures forall y :: y in r <==> y in s || y == x
  {
    if x in s then s else s + [x]
  }

  function WithEdge(cur: seq<HmasTask>, a: nat, b: nat): seq<HmasTask>
    requires a < |cur| && b < |cur| && a != b
  {
    var t := cur[a].(blockedBy := Appended(cur[a].blockedBy, cur[b].id));
    var u := cur[b].(childTaskIds := Appended(cur[b].childTaskIds, cur[a].id));
    cur[a := t][b := u]
  }

  lemma FirstUnique(ts: seq<HmasTask>, n: int, b: nat, c: nat)
    requires IsFirst(ts, n, b) && IsFirst(ts, n, c)
    ensures b == c
  {
  }

  /** Handling one more dependency adds the edge it resolves to, if any, and no other. */
  lemma EdgeStep(ts: seq<HmasTask>, i: nat, d: nat, a: nat, b: nat)
    requires i < |ts| && d < |Annotated(ts[i])| && a < |ts|
    ensures EdgeBy(ts, a, b, Done(ts, a, i, d + 1)) <==>
            EdgeBy(ts, a, b, Done(ts, a, i, d)) || (a == i && Resolves(ts, i, d, b))
  {
    hide Resolves, Annotated;
    if a == i && Resolves(ts, i, d, b) {
      assert EdgeBy(ts, a, b, d + 1);
    }
  }

  lemma UnresolvedStep(ts: seq<HmasTask>, cur: seq<HmasTask>, i: nat, d: nat)
    requires WiredUpTo(ts, cur, i, d) && i < |ts| && d < |Annotated(ts[i])|
    requires forall b: nat :: !Resolves(ts, i, d, b)
    ensures WiredUpTo(ts, cur, i, d + 1)
  {
    forall a | 0 <= a < |ts| ensures WiredTask(ts, cur[a], a, i, d + 1) {
      forall x ensures NewBlocker(ts, a, x, i, d + 1) <==> NewBlocker(ts, a, x, i, d) {
        BlockerStep(ts, i, d, a, x);
      }
      forall x ensures NewChild(ts, a, x, i, d + 1) <==> NewChild(ts, a, x, i, d) {
        ChildStep(ts, i, d, a, x);
      }
    }
  }

  lemma BlockerStep(ts: seq<HmasTask>, i: nat, d: nat, a: nat, x: string)
    requires i < |ts| && d < |Annotated(ts[i])| && a < |ts|
    ensures NewBlocker(ts, a, x, i, d + 1) <==>
            NewBlocker(ts, a, x, i, d) || (a == i && exists b: nat :: Resolves(ts, i, d, b) && ts[b].id == x)
  {
    forall b: nat
      ensures EdgeBy(ts, a, b, Done(ts, a, i, d + 1)) <==>
              EdgeBy(ts, a, b, Done(ts, a, i, d)) || (a == i && Resolves(ts, i, d, b))
    {
      EdgeStep(ts, i, d, a, b);
    }
    if a == i && exists b: nat :: Resolves(ts, i, d, b) && ts[b].id == x {
      var b: nat :| Resolves(ts, i, d, b) && ts[b].id == x;
      assert EdgeBy(ts, a, b, Done(ts, a, i, d + 1));
    }
  }

  lemma ChildStep(ts: seq<HmasTask>, i: nat, d: nat, b: nat, x: string)
    requires i < |ts| && d < |Annotated(ts[i])|
    ensures NewChild(ts, b, x, i, d + 1) <==>
            NewChild(ts, b, x, i, d) || (Resolves(ts, i, d, b) && ts[i].id == x)
  {
    forall a: nat | a < |ts|
      ensures EdgeBy(ts, a, b, Done(ts, a, i, d + 1)) <==>
              EdgeBy(ts, a, b, Done(ts, a, i, d)) || (a == i && Resolves(ts, i, d, b))
    {
      EdgeStep(ts, i, d, a, b);
    }
    if Resolves(ts, i, d, b) && ts[i].id == x {
      assert EdgeBy(ts, i, b, Done(ts, i, i, d + 1));
    }
  }

  lemma ExtendsReflexive(a: seq<string>)
    ensures Extends(a, a)
  {
  }

  lemma ExtendsTransitive(a: seq<string>, b: seq<string>, c: seq<string>)
    requires Extends(a, b) && Extends(b, c)
    ensures Extends(a, c)
  {
  }

  lemma OnlyTarget(ts: seq<HmasTask>, i: nat, d: nat, b: nat)
    requires Resolves(ts, i, d, b)
    ensures forall c: nat :: Resolves(ts, i, d, c) ==> c == b
  {
    forall c: nat | Resolves(ts, i, d, c) ensures c == b {
      FirstUnique(ts, Annotated(ts[i])[d], b, c);
    }
  }

  lemma BlockerStepTo(ts: seq<HmasTask>, i: nat, d: nat, b: nat, a: nat, x: string)
    requires Resolves(ts, i, d, b) && a < |ts|
    ensures NewBlocker(ts, a, x, i, d + 1) <==> NewBlocker(ts, a, x, i, d) || (a == i && ts[b].id == x)
  {
    OnlyTarget(ts, i, d, b);
    BlockerStep(ts, i, d, a, x);
  }

  lemma ChildStepTo(ts: seq<HmasTask>, i: nat, d: nat, b: nat, c: nat, x: string)
    requires Resolves(ts, i, d, b)
    ensures NewChild(ts, c, x, i, d + 1) <==> NewChild(ts, c, x, i, d) || (c == b && ts[i].id == x)
  {
    OnlyTarget(ts, i, d, b);
    ChildStep(ts, i, d, c, x);
  }

  lemma ResolvedBlockers(ts: seq<HmasTask>, before: seq<string>, after: seq<string>, i: nat, d: nat, b: nat, a: nat)
    requires Resolves(ts, i, d, b) && a < |ts| && Extends(ts[a].blockedBy, before)
    requires forall x :: x in before <==> x in ts[a].blockedBy || NewBlocker(ts, a, x, i, d)
    requires after == if a == i then Appended(before, ts[b].id) else before
    ensures Extends(ts[a].blockedBy, after)
    ensures forall x :: x in after <==> x in ts[a].blockedBy || NewBlocker(ts, a, x, i, d + 1)
  {
    assert i < |ts| && b < |ts|;
    hide EdgeBy, NewBlocker, Annotated, IsFirst, Appended, Extends, Resolves;
    ExtendsReflexive(before);
    ExtendsTransitive(ts[a].blockedBy, before, after);
    forall x ensures x in after <==> x in ts[a].blockedBy || NewBlocker(ts, a, x, i, d + 1) {
      BlockerStepTo(ts, i, d, b, a, x);
    }
  }

  lemma ResolvedChildren(ts: seq<HmasTask>, before: seq<string>, after: seq<string>, i: nat, d: nat, b: nat, a: nat)
    requires Resolves(ts, i, d, b) && a < |ts| && Extends(ts[a].childTaskIds, before)
    requires forall x :: x in before <==> x in ts[a].childTaskIds || NewChild(ts, a, x, i, d)
    requires after == if a == b then Appended(before, ts[i].id) else before
    ensures Extends(ts[a].childTaskIds, after)
    ensures forall x :: x in after <==> x in ts[a].childTaskIds || NewChild(ts, a, x, i, d + 1)
  {
    assert i < |ts| && b < |ts|;
    hide EdgeBy, NewChild, Annotated, IsFirst, Appended, Extends, Resolves;
    ExtendsReflexive(before);
    ExtendsTransitive(ts[a].childTaskIds, before, after);
    forall x ensures x in after <==> x in ts[a].childTaskIds || NewChild(ts, a, x, i, d + 1) {
      ChildStepTo(ts, i, d, b, a, x);
    }
  }

  /** How a task must look after the edge from i to b has been added. */
  lemma ResolvedTask(ts: seq<HmasTask>, t: HmasTask, u: HmasTask, i: nat, d: nat, b: nat, a: nat)
    requires Resolves(ts, i, d, b) && a < |ts| && WiredTask(ts, t, a, i, d)
    requires u.blockedBy == (if a == i then Appended(t.blockedBy, ts[b].id) else t.blockedBy)
    requires u.childTaskIds == (if a == b then Appended(t.childTaskIds, ts[i].id) else t.childTaskIds)
    requires u == t.(blockedBy := u.blockedBy, childTaskIds := u.childTaskIds)
    ensures WiredTask(ts, u, a, i, d + 1)
  {
    hide EdgeBy, NewBlocker, NewChild, Annotated, IsFirst, Appended, Extends, Resolves;
    ResolvedBlockers(ts, t.blockedBy, u.blockedBy, i, d, b, a);
    ResolvedChildren(ts, t.childTaskIds, u.childTaskIds, i, d, b, a);
  }

  lemma ResolvedStep(ts: seq<HmasTask>, cur: seq<HmasTask>, i: nat, d: nat, b: nat)
    requires WiredUpTo(ts, cur, i, d) && Resolves(ts, i, d, b)
    ensures WiredUpTo(ts, WithEdge(cur, i, b), i, d + 1)
  {
    var out := WithEdge(cur, i, b);
    assert cur[i].id == ts[i].id by { assert WiredTask(ts, cur[i], i, i, d); }
    assert cur[b].id == ts[b].id by { assert WiredTask(ts, cur[b], b, i, d); }
    hide WiredTask, Resolves, Appended;
    forall a | 0 <= a < |ts| ensures WiredTask(ts, out[a], a, i, d + 1) {
      ResolvedTask(ts, cur[a], out[a], i, d, b, a);
    }
  }

  // ------------------------------------------------------------- the loops

  /** The issue index: for every issue number the first L3 task that carries it. */
  method IndexIssues(ts: seq<HmasTask>) returns (index: map<int, nat>)
    ensures forall n, b: nat :: IsFirst(ts, n, b) <==> n in index && index[n] == b
  {
    index := map[];
    var i := 0;
    while i < |ts|
      invariant 0 <= i <= |ts|
      invariant forall n :: n in index ==> index[n] < i && IsFirst(ts, n, index[n])
      invariant forall n, k :: 0 <= k < i && RefersToIssue(ts[k], n) ==> n in index
    {
      if ts[i].layer.L3_TaskAgent? && ts[i].issue != 0 && ts[i].issue !in index {
        index := index[ts[i].issue := i];
      }
      i := i + 1;
    }
    forall n, b: nat ensures IsFirst(ts, n, b) <==> n in index && index[n] == b {
      if IsFirst(ts, n, b) {
        FirstUnique(ts, n, b, index[n]);
      }
    }
  }

  ghost predicate SubjectsParse(ts: seq<HmasTask>) {
    forall i :: 0 <= i < |ts| && ts[i].layer.L3_TaskAgent? ==> Parsed(ts[i].subject).Ok?
  }

  lemma NothingDone(ts: seq<HmasTask>)
    ensures WiredUpTo(ts, ts, 0, 0)
  {
  }

  /** A task without dependencies left: the loops stand at the next task. */
  lemma NextTask(ts: seq<HmasTask>, cur: seq<HmasTask>, i: nat)
    requires i < |ts| && WiredUpTo(ts, cur, i, |Annotated(ts[i])|)
    ensures WiredUpTo(ts, cur, i + 1, 0)
  {
    forall a | 0 <= a < |ts| ensures WiredTask(ts, cur[a], a, i + 1, 0) {
      assert WiredTask(ts, cur[a], a, i, |Annotated(ts[i])|);
      forall c | 0 <= c < |ts| ensures Done(ts, c, i + 1, 0) == Done(ts, c, i, |Annotated(ts[i])|) {
      }
      forall x ensures NewChild(ts, a, x, i + 1, 0) <==> NewChild(ts, a, x, i, |Annotated(ts[i])|) {
      }
    }
  }

  /** The dependencies of one task. */
  method WireTask(ts: seq<HmasTask>, cur0: seq<HmasTask>, i: nat, deps: seq<nat>, index: map<int, nat>)
    returns (cur: seq<HmasTask>)
    requires i < |ts| && deps == Annotated(ts[i]) && DistinctTaskIds(ts) && WiredUpTo(ts, cur0, i, 0)
    requires forall n, b: nat :: IsFirst(ts, n, b) <==> n in index && index[n] == b
    ensures WiredUpTo(ts, cur, i, |deps|)
  {
    hide WiredTask, Annotated, IsFirst;
    cur := cur0;
    var d := 0;
    while d < |deps|
      invariant 0 <= d <= |deps|
      invariant WiredUpTo(ts, cur, i, d)
    {
      var dep := deps[d];
      if dep !in index {
        assert forall b: nat :: !Resolves(ts, i, d, b);
        UnresolvedStep(ts, cur, i, d);
      } else {
        var b := index[dep];
        assert IsFirst(ts, dep, b);
        FirstInRange(ts, dep, b);
        SameId(ts, cur, i, d, b);
        if cur[b].id == cur[i].id {
          assert forall c: nat :: !Resolves(ts, i, d, c);
          UnresolvedStep(ts, cur, i, d);
        } else {
          ResolvedStep(ts, cur, i, d, b);
          cur := WithEdge(cur, i, b);
        }
      }
      d := d + 1;
    }
  }

  lemma FirstInRange(ts: seq<HmasTask>, n: int, b: nat)
    requires IsFirst(ts, n, b)
    ensures b < |ts|
  {
  }

  lemma SameId(ts: seq<HmasTask>, cur: seq<HmasTask>, i: nat, d: nat, b: nat)
    requires WiredUpTo(ts, cur, i, d) && DistinctTaskIds(ts) && i < |ts| && b < |ts|
    ensures |cur| == |ts| && (cur[b].id == cur[i].id <==> b == i)
  {
    assert WiredTask(ts, cur[i], i, i, d) && WiredTask(ts, cur[b], b, i, d);
  }

  /**
   The whole post-pass: the list keeps its tasks and their order, and gains exactly the
   annotated blockers and child links.
   */
  method WireDependencies(ts: seq<HmasTask>) returns (cur: seq<HmasTask>)
    requires DistinctTaskIds(ts) && SubjectsParse(ts)
    ensures Wired(ts, cur)
  {
    hide WiredTask, Annotated, IsFirst, SubjectsParse, Parsed;
    var index := IndexIssues(ts);
    NothingDone(ts);
    cur := ts;
    var i := 0;
    while i < |ts|
      invariant 0 <= i <= |ts|
      invariant WiredUpTo(ts, cur, i, 0)
    {
      SameTask(ts, cur, i);
      var t := cur[i];
      var deps: seq<nat> := [];
      if t.layer.L3_TaskAgent? && t.issue != 0 {
        var ref := ParseImplRef(t.subject);
        deps := ref.value.dependsOn;
      }
      cur := WireTask(ts, cur, i, deps, index);
      NextTask(ts, cur, i);
      i := i + 1;
    }
  }

  lemma SameTask(ts: seq<HmasTask>, cur: seq<HmasTask>, i: nat)
    requires i < |ts| && WiredUpTo(ts, cur, i, 0) && SubjectsParse(ts)
    ensures |cur| == |ts|
    ensures cur[i].layer == ts[i].layer && cur[i].issue == ts[i].issue && cur[i].subject == ts[i].subject
    ensures ts[i].layer.L3_TaskAgent? ==> Parsed(ts[i].subject).Ok?
    ensures Annotated(ts[i]) ==
      if ts[i].layer.L3_TaskAgent? && ts[i].issue != 0 then Parsed(ts[i].subject).value.dependsOn else []
  {
    assert WiredTask(ts, cur[i], i, i, 0);
  }
}
