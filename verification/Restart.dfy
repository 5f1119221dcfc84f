/** A restart: tasks written to GitHub issues and read back give the store that was written. */
module Restart {
  import opened Common
  import opened Text
  import opened HmasTypes
  import opened JsonValues
  import opened TaskJson
  import opened TaskStore
  import opened IssueBody

  /** An issue as it is listed: two optional fields. */
  datatype Issue = Issue(body: Option<Json>, number: Option<Json>)

  /** A task read back, and the number of its issue if it has one. */
  datatype Entry = Entry(task: HmasTask, number: Option<int>)

  function EntityType(t: HmasTask): string {
    "hmas-tasks/" + t.id
  }

  /** The issue a task is written to. */
  function Written(dump: Json -> string, t: HmasTask, number: int): Issue {
    Issue(Some(Str(MakeIssueBody(EntityType(t), dump(TaskJson.TaskJson(t))))), Some(Num(number)))
  }

  // -------------------------------------------------------------- hydration

  function TaskIn(parse: string -> Option<Json>, body: string): Option<HmasTask> {
    var text := FencedText(body);
    if text.None? then None
    else
      var j := parse(text.value);
      if j.None? || !j.value.Obj? || ID !in j.value.fields then None else TaskOf(j.value)
  }

  /** What an issue holds; malformed and mistyped ones hold nothing. */
  function Recovered(parse: string -> Option<Json>, issue: Issue): Option<Entry> {
    if issue.body.None? || !issue.body.value.Str? then None
    else
      var t := TaskIn(parse, issue.body.value.s);
      if t.None? then None
      else if issue.number.None? then Some(Entry(t.value, None))
      else if IntOf(issue.number.value).None? then None
      else Some(Entry(t.value, IntOf(issue.number.value)))
  }

  /** What a listing of issues holds, in order. */
  function AllRecovered(parse: string -> Option<Json>, issues: seq<Issue>): seq<Entry> {
    if issues == [] then []
    else
      var last := Recovered(parse, issues[|issues| - 1]);
      AllRecovered(parse, issues[..|issues| - 1]) + if last.Some? then [last.value] else []
  }

  function Tasks(entries: seq<Entry>): (ts: seq<HmasTask>)
    ensures |ts| == |entries| && forall k :: 0 <= k < |ts| ==> ts[k] == entries[k].task
  {
    seq(|entries|, k requires 0 <= k < |entries| => entries[k].task)
  }

  /** The issue number of every task that has one, as text. */
  function Numbers(entries: seq<Entry>): map<string, string> {
    if entries == [] then map[]
    else
      var last := entries[|entries| - 1];
      var before := Numbers(entries[..|entries| - 1]);
      if last.number.None? then before else before[last.task.id := IntText(last.number.value)]
  }

  lemma NothingRecovered(parse: string -> Option<Json>)
    ensures
      var entries := AllRecovered(parse, []);
      Hydrated(Tasks(entries)) == Contents(map[], map[]) && Numbers(entries) == map[]
  {
  }

  lemma RecoveredStep(parse: string -> Option<Json>, issues: seq<Issue>, k: nat)
    requires k < |issues|
    ensures
      var before, after := AllRecovered(parse, issues[..k]), AllRecovered(parse, issues[..k + 1]);
      var entry := Recovered(parse, issues[k]);
      && (entry.None? ==> after == before)
      && (entry.Some? ==> Hydrated(Tasks(after)) == Created(Hydrated(Tasks(before)), entry.value.task))
      && (entry.Some? && entry.value.number.None? ==> Numbers(after) == Numbers(before))
      && (entry.Some? && entry.value.number.Some? ==>
            Numbers(after) == Numbers(before)[entry.value.task.id := IntText(entry.value.number.value)])
  {
    hide Recovered, Created;
    assert issues[..k + 1][..k] == issues[..k];
    var before, after := AllRecovered(parse, issues[..k]), AllRecovered(parse, issues[..k + 1]);
    var entry := Recovered(parse, issues[k]);
    if entry.Some? {
      assert after == before + [entry.value];
      assert after[..|before|] == before;
      assert Tasks(after)[..|before|] == Tasks(before);
    } else {
      assert after == before + [] == before;
    }
  }

  /** The hydration loop. */
  method Hydrate(parse: string -> Option<Json>, issues: seq<Issue>) returns (store: Store, numbers: map<string, string>)
    ensures fresh(store) && store.Value() == Hydrated(Tasks(AllRecovered(parse, issues)))
    ensures numbers == Numbers(AllRecovered(parse, issues))
  {
    hide TaskIn, AllRecovered, Hydrated, Created, Tasks, Numbers;
    store := new Store();
    numbers := map[];
    NothingRecovered(parse);
    var k := 0;
    while k < |issues|
      invariant 0 <= k <= |issues| && fresh(store)
      invariant store.Value() == Hydrated(Tasks(AllRecovered(parse, issues[..k])))
      invariant numbers == Numbers(AllRecovered(parse, issues[..k]))
    {
      RecoveredStep(parse, issues, k);
      var entry := Recovered(parse, issues[k]);
      if entry.Some? {
        if entry.value.number.Some? {
          numbers := numbers[entry.value.task.id := IntText(entry.value.number.value)];
        }
        store.CreateTask(entry.value.task);
      }
      k := k + 1;
    }
    assert issues[..k] == issues;
  }

  // ---------------------------------------------------------------- restarts

  /**
   What a task needs to survive: parsing undoes dumping for it and its dump holds no closing
   fence, which is the JSON library's part; a 32-bit issue reference; an id without an opening fence.
   */
  ghost predicate Survives(dump: Json -> string, parse: string -> Option<Json>, t: HmasTask) {
    var j := TaskJson.TaskJson(t);
    && parse(dump(j)) == Some(j)
    && !Contains(dump(j), CLOSE)
    && -0x8000_0000 <= t.issue < 0x8000_0000
    && !Contains(EntityType(t) + "\n", OPEN)
  }

  lemma TaskRecovered(dump: Json -> string, parse: string -> Option<Json>, t: HmasTask, number: int)
    requires Survives(dump, parse, t)
    ensures Recovered(parse, Written(dump, t, number)) == Some(Entry(t, Some(Int32(number))))
  {
    hide FencedText, MakeIssueBody, TaskJson.TaskJson, TaskOf, Contains, EntityType;
    RecoveredIff(EntityType(t), dump(TaskJson.TaskJson(t)));
    HeadFields(t);
    TaskRoundTrip(t);
  }

  function AllWritten(dump: Json -> string, ts: seq<HmasTask>, numbers: seq<int>): (issues: seq<Issue>)
    requires |ts| == |numbers|
    ensures |issues| == |ts| && forall k :: 0 <= k < |ts| ==> issues[k] == Written(dump, ts[k], numbers[k])
  {
    seq(|ts|, k requires 0 <= k < |ts| => Written(dump, ts[k], numbers[k]))
  }

  lemma {:induction false} AllTasksRecovered(dump: Json -> string, parse: string -> Option<Json>,
                                             ts: seq<HmasTask>, numbers: seq<int>)
    requires |ts| == |numbers| && forall k :: 0 <= k < |ts| ==> Survives(dump, parse, ts[k])
    ensures
      var entries := AllRecovered(parse, AllWritten(dump, ts, numbers));
      |entries| == |ts| && forall k :: 0 <= k < |ts| ==> entries[k] == Entry(ts[k], Some(Int32(numbers[k])))
  {
    hide Recovered, Written, Survives, Int32;
    if ts != [] {
      var n := |ts| - 1;
      AllTasksRecovered(dump, parse, ts[..n], numbers[..n]);
      assert AllWritten(dump, ts, numbers)[..n] == AllWritten(dump, ts[..n], numbers[..n]);
      TaskRecovered(dump, parse, ts[n], numbers[n]);
    }
  }

  lemma {:induction false} NumbersRecovered(entries: seq<Entry>, k: nat)
    requires k < |entries| && entries[k].number.Some?
    requires forall i, j :: 0 <= i < j < |entries| ==> entries[i].task.id != entries[j].task.id
    ensures entries[k].task.id in Numbers(entries)
    ensures Numbers(entries)[entries[k].task.id] == IntText(entries[k].number.value)
  {
    hide IntText;
    var n := |entries| - 1;
    if k < n {
      NumbersRecovered(entries[..n], k);
    }
  }

  /**
   Writing every task of a store to an issue and hydrating from the issues, in any order, restores
   the tasks, an exact index, and the number of each task's issue.
   */
  lemma RestartRecovers(dump: Json -> string, parse: string -> Option<Json>, c: Contents,
                        ts: seq<HmasTask>, numbers: seq<int>)
    requires Indexed(c) && DistinctTaskIds(ts) && |numbers| == |ts|
    requires forall t: HmasTask :: t in ts <==> t.id in c.tasks && c.tasks[t.id] == t
    requires forall k :: 0 <= k < |ts| ==> Survives(dump, parse, ts[k])
    requires forall k :: 0 <= k < |ts| ==> -0x8000_0000 <= numbers[k] < 0x8000_0000
    ensures
      var entries := AllRecovered(parse, AllWritten(dump, ts, numbers));
      && Hydrated(Tasks(entries)).tasks == c.tasks
      && Indexed(Hydrated(Tasks(entries)))
      && forall k :: 0 <= k < |ts| ==>
           ts[k].id in Numbers(entries) && Numbers(entries)[ts[k].id] == IntText(numbers[k])
  {
    hide Survives, Indexed, AllRecovered, Numbers, Int32, IntText, Hydrated;
    var entries := AllRecovered(parse, AllWritten(dump, ts, numbers));
    AllTasksRecovered(dump, parse, ts, numbers);
    assert Tasks(entries) == ts;
    HydrationRestores(c, ts);
    forall k | 0 <= k < |ts|
      ensures ts[k].id in Numbers(entries) && Numbers(entries)[ts[k].id] == IntText(numbers[k])
    {
      NumbersRecovered(entries, k);
    }
  }

  // ------------------------------------------- the hypothesis can be satisfied

  ghost function PositionOf(ts: seq<HmasTask>, j: Json): nat {
    if exists k :: 0 <= k < |ts| && TaskJson.TaskJson(ts[k]) == j then
      var k :| 0 <= k < |ts| && TaskJson.TaskJson(ts[k]) == j;
      k
    else 0
  }

  ghost function Labelled(ts: seq<HmasTask>, text: string): Option<Json> {
    if exists k :: 0 <= k < |ts| && Decimal(k) == text then
      var k :| 0 <= k < |ts| && Decimal(k) == text;
      Some(TaskJson.TaskJson(ts[k]))
    else None
  }

  lemma PositionFound(ts: seq<HmasTask>, i: nat)
    requires i < |ts|
    ensures
      var j := TaskJson.TaskJson(ts[i]);
      Labelled(ts, Decimal(PositionOf(ts, j))) == Some(j) && !Contains(Decimal(PositionOf(ts, j)), CLOSE)
  {
    hide TaskJson.TaskJson, Decimal;
    var j := TaskJson.TaskJson(ts[i]);
    var k := PositionOf(ts, j);
    assert k < |ts| && TaskJson.TaskJson(ts[k]) == j;
    forall l: nat | Decimal(l) == Decimal(k) ensures l == k {
      NumeralOfDecimal(k);
      NumeralOfDecimal(l);
    }
    FenceCharacters();
    forall l: nat ensures !Occurs(Decimal(k), CLOSE, l) {
      if Occurs(Decimal(k), CLOSE, l) {
        OccurrenceAt(Decimal(k), CLOSE, l, 0);
      }
    }
  }

  /** For any tasks there are a dump and a parse under which they survive, ids and issue references permitting. */
  lemma SurvivalPossible(ts: seq<HmasTask>) returns (dump: Json -> string, parse: string -> Option<Json>)
    requires forall k :: 0 <= k < |ts| ==> -0x8000_0000 <= ts[k].issue < 0x8000_0000
    requires forall k :: 0 <= k < |ts| ==> !Contains(EntityType(ts[k]) + "\n", OPEN)
    ensures forall k :: 0 <= k < |ts| ==> Survives(dump, parse, ts[k])
  {
    hide TaskJson.TaskJson, Decimal, EntityType, Contains, PositionOf, Labelled;
    dump := j => Decimal(PositionOf(ts, j));
    parse := text => Labelled(ts, text);
    forall k | 0 <= k < |ts| ensures Survives(dump, parse, ts[k]) {
      PositionFound(ts, k);
    }
  }
}
