/** The store of HMAS tasks with its secondary index from brief id to task ids. */
module TaskStore {
  import opened Common
  import opened HmasTypes

  datatype Contents = Contents(tasks: map<string, HmasTask>, byBrief: map<string, seq<string>>)

  function Bucket(c: Contents, brief: string): seq<string> {
    if brief in c.byBrief then c.byBrief[brief] else []
  }

  /** The index holds, for every non-empty brief id, exactly the tasks of that brief, each once. */
  ghost predicate Indexed(c: Contents) {
    && (forall id :: id in c.tasks ==> c.tasks[id].id == id)
    && (forall b, id :: id in Bucket(c, b) <==> b != "" && id in c.tasks && c.tasks[id].briefId == b)
    && (forall b :: Distinct(Bucket(c, b)))
  }

  function Without(s: seq<string>, x: string): (r: seq<string>)
    ensures x !in r
    ensures forall y :: y != x ==> (y in r <==> y in s)
  {
    if s == [] then []
    else
      var rest := Without(s[1..], x);
      if s[0] == x then rest else [s[0]] + rest
  }

  lemma {:induction false} WithoutDistinct(s: seq<string>, x: string)
    requires Distinct(s)
    ensures Distinct(Without(s, x))
  {
    if s != [] {
      WithoutDistinct(s[1..], x);
      assert forall y :: y in Without(s[1..], x) ==> y in s[1..];
      assert s[0] !in s[1..];
      assert s[0] !in Without(s[1..], x);
    }
  }

  // ------------------------------------------------------ what the calls do

  function Pushed(c: Contents, brief: string, id: string): Contents {
    if brief == "" then c else c.(byBrief := c.byBrief[brief := Bucket(c, brief) + [id]])
  }

  function Removed(c: Contents, brief: string, id: string): Contents {
    if brief == "" then c
    else
      var bucket := Without(Bucket(c, brief), id);
      c.(byBrief := if bucket == [] then c.byBrief - {brief} else c.byBrief[brief := bucket])
  }

  function Created(c: Contents, t: HmasTask): Contents {
    Pushed(c.(tasks := c.tasks[t.id := t]), t.briefId, t.id)
  }

  function Updated(c: Contents, t: HmasTask): Contents {
    if t.id !in c.tasks then c
    else
      var was := c.tasks[t.id].briefId;
      var stored := c.(tasks := c.tasks[t.id := t]);
      if was == t.briefId then stored else Pushed(Removed(stored, was, t.id), t.briefId, t.id)
  }

  function StateSet(c: Contents, id: string, s: TaskState, escalations: seq<EscalationRecord>): Contents {
    if id !in c.tasks then c
    else c.(tasks := c.tasks[id := c.tasks[id].(state := s, escalations := c.tasks[id].escalations + escalations)])
  }

  /** The tasks an index lookup returns. */
  function Listed(c: Contents, ids: seq<string>): seq<HmasTask> {
    if ids == [] then []
    else Listed(c, ids[..|ids| - 1]) + if ids[|ids| - 1] in c.tasks then [c.tasks[ids[|ids| - 1]]] else []
  }

  // -------------------------------------------------------------- the class

  class Store {
    var tasks: map<string, HmasTask>
    var byBrief: map<string, seq<string>>

    ghost function Value(): Contents
      reads this
    {
      Contents(tasks, byBrief)
    }

    constructor ()
      ensures Value() == Contents(map[], map[]) && Indexed(Value())
    {
      tasks, byBrief := map[], map[];
    }

    method CreateTask(t: HmasTask)
      modifies this
      ensures Value() == Created(old(Value()), t)
    {
      tasks := tasks[t.id := t];
      if t.briefId != "" {
        var bucket := if t.briefId in byBrief then byBrief[t.briefId] else [];
        byBrief := byBrief[t.briefId := bucket + [t.id]];
      }
    }

    method GetTask(id: string) returns (r: Option<HmasTask>)
      ensures r == if id in tasks then Some(tasks[id]) else None
    {
      r := if id in tasks then Some(tasks[id]) else None;
    }

    method UpdateTask(t: HmasTask) returns (ok: bool)
      modifies this
      ensures Value() == Updated(old(Value()), t) && (ok <==> t.id in old(tasks))
    {
      if t.id !in tasks {
        return false;
      }
      ok := true;
      var oldBrief := tasks[t.id].briefId;
      tasks := tasks[t.id := t];
      if oldBrief != t.briefId {
        if oldBrief != "" {
          var bucket := Without(if oldBrief in byBrief then byBrief[oldBrief] else [], t.id);
          byBrief := byBrief[oldBrief := bucket];
          if bucket == [] {
            byBrief := byBrief - {oldBrief};
            assert byBrief == old(byBrief) - {oldBrief};
          }
        }
        if t.briefId != "" {
          var bucket := if t.briefId in byBrief then byBrief[t.briefId] else [];
          byBrief := byBrief[t.briefId := bucket + [t.id]];
        }
      }
    }

    method UpdateTaskState(id: string, s: TaskState, escalation: Option<EscalationRecord>) returns (ok: bool)
      modifies this
      ensures ok <==> id in old(tasks)
      ensures Value() == StateSet(old(Value()), id, s, if escalation.Some? then [escalation.value] else [])
      ensures tasks.Keys == old(tasks).Keys && forall x :: x in tasks && x != id ==> tasks[x] == old(tasks)[x]
      ensures ok ==>
        && (escalation.None? ==> tasks[id] == old(tasks)[id].(state := s))
        && (escalation.Some? ==>
              tasks[id] == old(tasks)[id].(state := s, escalations := old(tasks)[id].escalations + [escalation.value]))
    {
      if id !in tasks {
        return false;
      }
      ok := true;
      var t := tasks[id].(state := s);
      if escalation.Some? {
        t := t.(escalations := t.escalations + [escalation.value]);
      } else {
        assert t.escalations + [] == t.escalations;
      }
      tasks := tasks[id := t];
    }

    /** Exactly the stored tasks of the brief, each once; the empty id names no brief. */
    method ListByBrief(brief: string) returns (out: seq<HmasTask>)
      requires Indexed(Value())
      ensures Distinct(out)
      ensures forall t :: t in out <==> brief != "" && t.id in tasks && tasks[t.id] == t && t.briefId == brief
    {
      out := [];
      if brief in byBrief {
        var ids := byBrief[brief];
        var k := 0;
        while k < |ids|
          invariant 0 <= k <= |ids|
          invariant out == Listed(Value(), ids[..k])
        {
          assert ids[..k + 1][..k] == ids[..k];
          if ids[k] in tasks {
            out := out + [tasks[ids[k]]];
          }
          k := k + 1;
        }
        assert ids[..k] == ids;
      }
      ListingIsExact(Value(), brief);
    }
  }

  // ------------------------------------------------------------- properties

  lemma {:induction false} ListedAll(c: Contents, ids: seq<string>)
    requires forall i :: 0 <= i < |ids| ==> ids[i] in c.tasks && c.tasks[ids[i]].id == ids[i]
    ensures |Listed(c, ids)| == |ids| && forall i :: 0 <= i < |ids| ==> Listed(c, ids)[i] == c.tasks[ids[i]]
  {
    if ids != [] {
      ListedAll(c, ids[..|ids| - 1]);
    }
  }

  /** The index lookup finds what a full scan would find. */
  lemma ListingIsExact(c: Contents, brief: string)
    requires Indexed(c)
    ensures Distinct(Listed(c, Bucket(c, brief)))
    ensures forall t :: t in Listed(c, Bucket(c, brief)) <==>
      brief != "" && t.id in c.tasks && c.tasks[t.id] == t && t.briefId == brief
  {
    var ids := Bucket(c, brief);
    assert forall i :: 0 <= i < |ids| ==> ids[i] in ids;
    ListedAll(c, ids);
    forall t: HmasTask | brief != "" && t.id in c.tasks && c.tasks[t.id] == t && t.briefId == brief
      ensures t in Listed(c, ids)
    {
      assert t.id in ids;
      var i :| 0 <= i < |ids| && ids[i] == t.id;
      assert Listed(c, ids)[i] == t;
    }
  }

  lemma PushedBuckets(c: Contents, brief: string, id: string, b: string)
    ensures Bucket(Pushed(c, brief, id), b) == Bucket(c, b) + if b == brief != "" then [id] else []
  {
  }

  lemma RemovedBuckets(c: Contents, brief: string, id: string, b: string)
    ensures Bucket(Removed(c, brief, id), b) == if b == brief != "" then Without(Bucket(c, b), id) else Bucket(c, b)
  {
  }

  lemma CreatedBuckets(c: Contents, t: HmasTask, b: string)
    ensures Bucket(Created(c, t), b) == Bucket(c, b) + if b == t.briefId != "" then [t.id] else []
    ensures Created(c, t).tasks == c.tasks[t.id := t]
  {
    var stored := c.(tasks := c.tasks[t.id := t]);
    PushedBuckets(stored, t.briefId, t.id, b);
    assert Bucket(stored, b) == Bucket(c, b);
  }

  lemma CreateKeepsIndex(c: Contents, t: HmasTask)
    requires Indexed(c) && (t.id !in c.tasks || c.tasks[t.id].briefId == "")
    ensures Indexed(Created(c, t))
  {
    hide Created, Bucket;
    var d := Created(c, t);
    CreatedBuckets(c, t, "");
    forall b, id ensures id in Bucket(d, b) <==> b != "" && id in d.tasks && d.tasks[id].briefId == b {
      CreatedBuckets(c, t, b);
      assert id in Bucket(c, b) <==> b != "" && id in c.tasks && c.tasks[id].briefId == b;
      assert id != t.id ==> (id in Bucket(d, b) <==> id in Bucket(c, b));
    }
    forall b ensures Distinct(Bucket(d, b)) {
      CreatedBuckets(c, t, b);
      assert t.id !in Bucket(c, b) && Distinct(Bucket(c, b));
    }
  }

  /**
   Creating a task keeps the index exact if and only if its id is new, or was so far stored
   without a brief.
   */
  lemma CreateKeepsIndexIff(c: Contents, t: HmasTask)
    requires Indexed(c)
    ensures Indexed(Created(c, t)) <==> t.id !in c.tasks || c.tasks[t.id].briefId == ""
  {
    hide Created, Bucket;
    if t.id !in c.tasks || c.tasks[t.id].briefId == "" {
      CreateKeepsIndex(c, t);
    } else {
      var b := c.tasks[t.id].briefId;
      CreatedBuckets(c, t, b);
      assert t.id in Bucket(c, b);
      if b == t.briefId {
        RepeatedEntry(Bucket(c, b), t.id);
      } else {
        var d := Created(c, t);
        assert t.id in Bucket(d, b) && d.tasks[t.id].briefId != b;
        assert !(b != "" && t.id in d.tasks && d.tasks[t.id].briefId == b);
      }
    }
  }

  lemma RepeatedEntry(s: seq<string>, x: string)
    requires x in s
    ensures !Distinct(s + [x])
  {
    var i :| 0 <= i < |s| && s[i] == x;
    var longer := s + [x];
    assert longer[i] == longer[|s|];
  }

  /** A full update, also one that moves the task to another brief, keeps the index exact. */
  lemma UpdateKeepsIndex(c: Contents, t: HmasTask)
    requires Indexed(c)
    ensures Indexed(Updated(c, t))
    ensures Updated(c, t).tasks == if t.id in c.tasks then c.tasks[t.id := t] else c.tasks
  {
    if t.id in c.tasks {
      var was := c.tasks[t.id].briefId;
      var stored := c.(tasks := c.tasks[t.id := t]);
      var d := Updated(c, t);
      forall b
        ensures b == was == t.briefId ==> Bucket(d, b) == Bucket(c, b)
        ensures b == was != "" && was != t.briefId ==> Bucket(d, b) == Without(Bucket(c, b), t.id)
        ensures b == t.briefId != "" && was != t.briefId ==> Bucket(d, b) == Bucket(c, b) + [t.id]
        ensures b != was && b != t.briefId ==> Bucket(d, b) == Bucket(c, b)
        ensures b == "" ==> Bucket(d, b) == Bucket(c, b)
      {
        assert Bucket(stored, b) == Bucket(c, b);
        RemovedBuckets(stored, was, t.id, b);
        PushedBuckets(Removed(stored, was, t.id), t.briefId, t.id, b);
        if b == "" { assert Bucket(c, b) + [] == Bucket(c, b); }
      }
      forall b ensures Distinct(Bucket(d, b)) {
        assert Distinct(Bucket(c, b));
        WithoutDistinct(Bucket(c, b), t.id);
      }
    }
  }

  lemma StateSetKeepsIndex(c: Contents, id: string, s: TaskState, escalations: seq<EscalationRecord>)
    requires Indexed(c)
    ensures Indexed(StateSet(c, id, s, escalations))
  {
    var d := StateSet(c, id, s, escalations);
    forall b ensures Bucket(d, b) == Bucket(c, b) {
    }
  }

  // ------------------------------------------------------------ whole runs

  datatype Operation =
    | Create(task: HmasTask)
    | Update(task: HmasTask)
    | SetState(id: string, state: TaskState, escalations: seq<EscalationRecord>)

  function Performed(c: Contents, op: Operation): Contents {
    match op
    case Create(t) => Created(c, t)
    case Update(t) => Updated(c, t)
    case SetState(id, s, es) => StateSet(c, id, s, es)
  }

  function Run(c: Contents, ops: seq<Operation>): Contents {
    if ops == [] then c else Performed(Run(c, ops[..|ops| - 1]), ops[|ops| - 1])
  }

  /** Every id is new when it is created. */
  ghost predicate FreshCreates(c: Contents, ops: seq<Operation>) {
    forall k :: 0 <= k < |ops| && ops[k].Create? ==> ops[k].task.id !in Run(c, ops[..k]).tasks
  }

  /** After any such run a lookup by brief still finds exactly what a full scan finds. */
  lemma {:induction false} RunKeepsIndex(c: Contents, ops: seq<Operation>)
    requires Indexed(c) && FreshCreates(c, ops)
    ensures Indexed(Run(c, ops))
  {
    if ops != [] {
      var n := |ops| - 1;
      var before := ops[..n];
      assert forall k :: 0 <= k < n ==> before[..k] == ops[..k];
      RunKeepsIndex(c, before);
      match ops[n]
      case Create(t) => CreateKeepsIndexIff(Run(c, before), t);
      case Update(t) => UpdateKeepsIndex(Run(c, before), t);
      case SetState(id, s, es) => StateSetKeepsIndex(Run(c, before), id, s, es);
    }
  }

  // --------------------------------------------------------------- restart

  /** Hydration stores the tasks read back from their issues one after another. */
  function Hydrated(ts: seq<HmasTask>): Contents {
    if ts == [] then Contents(map[], map[]) else Created(Hydrated(ts[..|ts| - 1]), ts[|ts| - 1])
  }

  lemma {:induction false} HydratedTasks(ts: seq<HmasTask>)
    requires DistinctTaskIds(ts)
    ensures Indexed(Hydrated(ts))
    ensures forall id :: id in Hydrated(ts).tasks <==> HasId(ts, id)
    ensures forall k :: 0 <= k < |ts| ==> ts[k].id in Hydrated(ts).tasks && Hydrated(ts).tasks[ts[k].id] == ts[k]
  {
    hide Indexed, Created;
    if ts == [] {
      NothingHydrated();
    } else {
      var shorter := ts[..|ts| - 1];
      var last := ts[|ts| - 1];
      assert forall k :: 0 <= k < |shorter| ==> shorter[k] == ts[k];
      HydratedTasks(shorter);
      assert !HasId(shorter, last.id);
      CreateKeepsIndex(Hydrated(shorter), last);
      CreatedBuckets(Hydrated(shorter), last, "");
      forall id ensures HasId(ts, id) <==> HasId(shorter, id) || id == last.id {
        if HasId(shorter, id) {
          var k :| 0 <= k < |shorter| && shorter[k].id == id;
          assert ts[k].id == id;
        }
      }
    }
  }

  lemma NothingHydrated()
    ensures Indexed(Contents(map[], map[]))
  {
  }

  /** Hydration from the tasks of a store, in any order, restores them and an exact index. */
  lemma HydrationRestores(c: Contents, ts: seq<HmasTask>)
    requires Indexed(c) && DistinctTaskIds(ts)
    requires forall t: HmasTask :: t in ts <==> t.id in c.tasks && c.tasks[t.id] == t
    ensures Hydrated(ts).tasks == c.tasks && Indexed(Hydrated(ts))
  {
    HydratedTasks(ts);
    var d := Hydrated(ts);
    forall id ensures id in d.tasks <==> id in c.tasks {
      if id in d.tasks {
        var k :| 0 <= k < |ts| && ts[k].id == id;
        assert ts[k] in ts;
      }
      if id in c.tasks {
        assert c.tasks[id] in ts;
      }
    }
    forall id | id in c.tasks ensures d.tasks[id] == c.tasks[id] {
      assert c.tasks[id] in ts;
      var k :| 0 <= k < |ts| && ts[k] == c.tasks[id];
    }
  }
}
