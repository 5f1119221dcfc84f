/**
 Tasks and briefs as JSON.  Reading returns None where the original throws: a field of the wrong
 type, an unknown enumerator, a list element that is not a string.
 */
module TaskJson {
  import opened Common
  import opened HmasTypes
  import opened JsonValues

  type Fields = map<string, Json>

  // ----------------------------------------------------------- enumerations

  function LayerText(layer: Layer): (s: string)
    ensures LayerOf(s) == Some(layer)
  {
    match layer
    case L0_ChiefArchitect => "L0_ChiefArchitect"
    case L1_ComponentLead => "L1_ComponentLead"
    case L2_ModuleLead => "L2_ModuleLead"
    case L3_TaskAgent => "L3_TaskAgent"
  }

  function LayerOf(s: string): Option<Layer> {
    if s == "L0_ChiefArchitect" then Some(L0_ChiefArchitect)
    else if s == "L1_ComponentLead" then Some(L1_ComponentLead)
    else if s == "L2_ModuleLead" then Some(L2_ModuleLead)
    else if s == "L3_TaskAgent" then Some(L3_TaskAgent)
    else None
  }

  function StateText(state: TaskState): (s: string)
    ensures StateOf(s) == Some(state)
  {
    match state
    case Pending => "Pending"
    case Decomposing => "Decomposing"
    case Delegated => "Delegated"
    case InProgress => "InProgress"
    case Escalated => "Escalated"
    case Completed => "Completed"
    case Failed => "Failed"
  }

  function StateOf(s: string): Option<TaskState> {
    if s == "Pending" then Some(Pending)
    else if s == "Decomposing" then Some(Decomposing)
    else if s == "Delegated" then Some(Delegated)
    else if s == "InProgress" then Some(InProgress)
    else if s == "Escalated" then Some(Escalated)
    else if s == "Completed" then Some(Completed)
    else if s == "Failed" then Some(Failed)
    else None
  }

  // ------------------------------------------------------------------ fields

  function LayerAt(m: Fields, key: string): Option<Layer> {
    var s := TextOr(m, key, "L0_ChiefArchitect");
    if s.None? then None else LayerOf(s.value)
  }

  function StateAt(m: Fields, key: string): Option<TaskState> {
    var s := TextOr(m, key, "Pending");
    if s.None? then None else StateOf(s.value)
  }

  // ---------------------------------------------------------- string lists

  function TextsJson(texts: seq<string>): Json {
    Arr(seq(|texts|, i requires 0 <= i < |texts| => Str(texts[i])))
  }

  function TextsOf(items: seq<Json>): (r: Option<seq<string>>)
    ensures r.Some? <==> forall i :: 0 <= i < |items| ==> items[i].Str?
    ensures r.Some? ==> |r.value| == |items| && forall i :: 0 <= i < |items| ==> items[i] == Str(r.value[i])
  {
    if items == [] then Some([])
    else
      var before, last := TextsOf(items[..|items| - 1]), items[|items| - 1];
      if before.Some? && last.Str? then Some(before.value + [last.s]) else None
  }

  lemma TextsRoundTrip(texts: seq<string>)
    ensures TextsJson(texts).Arr? && TextsOf(TextsJson(texts).items) == Some(texts)
  {
    hide TextsOf;
    var items := TextsJson(texts).items;
    forall i | 0 <= i < |texts| ensures items[i] == Str(texts[i]) {
    }
    assert TextsOf(items).value == texts;
  }

  method ReadTexts(items: seq<Json>) returns (r: Option<seq<string>>)
    ensures r == TextsOf(items)
  {
    hide TextsOf;
    var texts := [];
    var k := 0;
    while k < |items|
      invariant 0 <= k <= |items| && |texts| == k
      invariant forall i :: 0 <= i < k ==> items[i] == Str(texts[i])
    {
      if !items[k].Str? {
        return None;
      }
      texts := texts + [items[k].s];
      k := k + 1;
    }
    assert TextsOf(items).Some? && TextsOf(items).value == texts;
    return Some(texts);
  }

  /** A list field; absent or of another kind it counts as empty. */
  function TextsAt(m: Fields, key: string): Option<seq<string>> {
    if key in m && m[key].Arr? then TextsOf(m[key].items) else Some([])
  }

  method ReadTextsAt(m: Fields, key: string) returns (r: Option<seq<string>>)
    ensures r == TextsAt(m, key)
  {
    if key in m && m[key].Arr? {
      r := ReadTexts(m[key].items);
    } else {
      r := Some([]);
    }
  }

  // -------------------------------------------------------- field name clashes

  const ID := "id"
  const BRIEF_ID := "brief_id"
  const PARENT_TASK_ID := "parent_task_id"
  const LAYER := "layer"
  const STATE := "state"
  const SUBJECT := "subject"
  const DESCRIPTION := "description"
  const REPO := "repo"
  const MODULE := "module"
  const ISSUE := "issue"
  const ASSIGNED_LEAD_ID := "assigned_lead_id"
  const BLOCKED_BY := "blocked_by"
  const CHILD_TASK_IDS := "child_task_ids"
  const CREATED_AT := "created_at"
  const COMPLETED_AT := "completed_at"
  const ESCALATIONS := "escalations"
  const TASK_ID := "task_id"
  const REASON := "reason"
  const ESCALATED_AT := "escalated_at"
  const FROM_LAYER := "from_layer"
  const TITLE := "title"
  const REPOS := "repos"
  const MODULES := "modules"
  const IMPLS := "impls"

  /** Length and first letter tell the fields of one object apart. */
  lemma FieldNames()
    ensures |ID| == 2 && |BRIEF_ID| == 8 && |PARENT_TASK_ID| == 14 && |LAYER| == 5 && |STATE| == 5
    ensures |SUBJECT| == 7 && |DESCRIPTION| == 11 && |REPO| == 4 && |MODULE| == 6 && |ISSUE| == 5
    ensures |ASSIGNED_LEAD_ID| == 16 && |BLOCKED_BY| == 10 && |CHILD_TASK_IDS| == 14 && |CREATED_AT| == 10
    ensures |COMPLETED_AT| == 12 && |ESCALATIONS| == 11 && |TASK_ID| == 7 && |REASON| == 6
    ensures |ESCALATED_AT| == 12 && |FROM_LAYER| == 10
    ensures |TITLE| == 5 && |REPOS| == 5 && |MODULES| == 7 && |IMPLS| == 5
    ensures PARENT_TASK_ID[0] == 'p' && CHILD_TASK_IDS[0] == 'c'
    ensures LAYER[0] == 'l' && STATE[0] == 's' && ISSUE[0] == 'i'
    ensures DESCRIPTION[0] == 'd' && ESCALATIONS[0] == 'e'
    ensures BLOCKED_BY[0] == 'b' && CREATED_AT[0] == 'c'
    ensures TITLE[0] == 't' && REPOS[0] == 'r' && IMPLS[0] == 'i'
  {
  }

  // -------------------------------------------------------------- escalations

  function RecordJson(r: EscalationRecord): Json {
    Obj(map[TASK_ID := Str(r.taskId), REASON := Str(r.reason), ESCALATED_AT := Str(r.escalatedAt),
            FROM_LAYER := Str(LayerText(r.fromLayer))])
  }

  function RecordOf(j: Json): Option<EscalationRecord> {
    if !j.Obj? then None
    else
      var taskId := TextOr(j.fields, TASK_ID, "");
      var reason := TextOr(j.fields, REASON, "");
      var escalatedAt := TextOr(j.fields, ESCALATED_AT, "");
      var layer := LayerAt(j.fields, FROM_LAYER);
      if taskId.None? || reason.None? || escalatedAt.None? || layer.None? then None
      else Some(EscalationRecord(taskId.value, reason.value, escalatedAt.value, layer.value))
  }

  lemma RecordRoundTrip(r: EscalationRecord)
    ensures RecordOf(RecordJson(r)) == Some(r)
  {
    hide ID, BRIEF_ID, TASK_ID, REASON, ESCALATED_AT, FROM_LAYER, LayerText, LayerOf;
    FieldNames();
  }

  function RecordsJson(rs: seq<EscalationRecord>): Json {
    Arr(seq(|rs|, i requires 0 <= i < |rs| => RecordJson(rs[i])))
  }

  function RecordsOf(items: seq<Json>): (r: Option<seq<EscalationRecord>>)
    ensures r.Some? <==> forall i :: 0 <= i < |items| ==> RecordOf(items[i]).Some?
    ensures r.Some? ==>
      |r.value| == |items| && forall i :: 0 <= i < |items| ==> RecordOf(items[i]) == Some(r.value[i])
  {
    if items == [] then Some([])
    else
      var before, last := RecordsOf(items[..|items| - 1]), RecordOf(items[|items| - 1]);
      if before.Some? && last.Some? then Some(before.value + [last.value]) else None
  }

  lemma RecordsRoundTrip(rs: seq<EscalationRecord>)
    ensures RecordsJson(rs).Arr? && RecordsOf(RecordsJson(rs).items) == Some(rs)
  {
    hide RecordsOf, RecordOf, RecordJson;
    var items := RecordsJson(rs).items;
    forall i | 0 <= i < |rs| ensures RecordOf(items[i]) == Some(rs[i]) {
      RecordRoundTrip(rs[i]);
    }
    assert RecordsOf(items).value == rs;
  }

  function RecordsAt(m: Fields, key: string): Option<seq<EscalationRecord>> {
    if key in m && m[key].Arr? then RecordsOf(m[key].items) else Some([])
  }

  method ReadRecordsAt(m: Fields, key: string) returns (r: Option<seq<EscalationRecord>>)
    ensures r == RecordsAt(m, key)
  {
    hide RecordsOf, RecordOf;
    if key !in m || !m[key].Arr? {
      return Some([]);
    }
    var items := m[key].items;
    var records := [];
    var k := 0;
    while k < |items|
      invariant 0 <= k <= |items| && |records| == k
      invariant forall i :: 0 <= i < k ==> RecordOf(items[i]) == Some(records[i])
    {
      var record := RecordOf(items[k]);
      if record.None? {
        return None;
      }
      records := records + [record.value];
      k := k + 1;
    }
    assert RecordsOf(items).Some? && RecordsOf(items).value == records;
    return Some(records);
  }

  // -------------------------------------------------------------------- tasks

  function TaskJson(t: HmasTask): (j: Json)
    ensures j.Obj?
  {
    Obj(map[ID := Str(t.id), BRIEF_ID := Str(t.briefId), PARENT_TASK_ID := Str(t.parentTaskId),
            LAYER := Str(LayerText(t.layer)), STATE := Str(StateText(t.state)), SUBJECT := Str(t.subject),
            DESCRIPTION := Str(t.description), REPO := Str(t.repo), MODULE := Str(t.moduleName),
            ISSUE := Num(t.issue), ASSIGNED_LEAD_ID := Str(t.assignedLeadId),
            BLOCKED_BY := TextsJson(t.blockedBy), CHILD_TASK_IDS := TextsJson(t.childTaskIds),
            CREATED_AT := Str(t.createdAt), COMPLETED_AT := Str(t.completedAt),
            ESCALATIONS := RecordsJson(t.escalations)])
  }

  /** The thirteen fields that are not lists. */
  function PlainTask(m: Fields): Option<HmasTask> {
    var id, briefId, parent := TextOr(m, ID, ""), TextOr(m, BRIEF_ID, ""), TextOr(m, PARENT_TASK_ID, "");
    var layer, state := LayerAt(m, LAYER), StateAt(m, STATE);
    var subject, description := TextOr(m, SUBJECT, ""), TextOr(m, DESCRIPTION, "");
    var repo, mod, issue := TextOr(m, REPO, ""), TextOr(m, MODULE, ""), IntOr(m, ISSUE, 0);
    var lead := TextOr(m, ASSIGNED_LEAD_ID, "");
    var created, completed := TextOr(m, CREATED_AT, ""), TextOr(m, COMPLETED_AT, "");
    if id.None? || briefId.None? || parent.None? || layer.None? || state.None? || subject.None? ||
       description.None? || repo.None? || mod.None? || issue.None? || lead.None? || created.None? || completed.None?
    then None
    else Some(HmasTask(id.value, briefId.value, parent.value, layer.value, state.value, subject.value,
                       description.value, repo.value, mod.value, issue.value, lead.value, [], [], [],
                       created.value, completed.value))
  }

  function TaskOf(j: Json): Option<HmasTask> {
    if !j.Obj? then None
    else
      var plain := PlainTask(j.fields);
      var blockedBy, children := TextsAt(j.fields, BLOCKED_BY), TextsAt(j.fields, CHILD_TASK_IDS);
      var escalations := RecordsAt(j.fields, ESCALATIONS);
      if plain.None? || blockedBy.None? || children.None? || escalations.None? then None
      else Some(plain.value.(blockedBy := blockedBy.value, childTaskIds := children.value,
                             escalations := escalations.value))
  }

  method TaskFromJson(j: Json) returns (r: Option<HmasTask>)
    ensures r == TaskOf(j)
  {
    hide PlainTask, TextsAt, RecordsAt, BLOCKED_BY, CHILD_TASK_IDS, ESCALATIONS;
    if !j.Obj? {
      return None;
    }
    var plain := PlainTask(j.fields);
    if plain.None? {
      return None;
    }
    var t := plain.value;
    var blockedBy := ReadTextsAt(j.fields, BLOCKED_BY);
    if blockedBy.None? {
      return None;
    }
    var children := ReadTextsAt(j.fields, CHILD_TASK_IDS);
    if children.None? {
      return None;
    }
    var escalations := ReadRecordsAt(j.fields, ESCALATIONS);
    if escalations.None? {
      return None;
    }
    return Some(t.(blockedBy := blockedBy.value, childTaskIds := children.value, escalations := escalations.value));
  }

  lemma ListFieldsRoundTrip(t: HmasTask)
    ensures
      var m := TaskJson(t).fields;
      && TextsAt(m, BLOCKED_BY) == Some(t.blockedBy)
      && TextsAt(m, CHILD_TASK_IDS) == Some(t.childTaskIds)
      && RecordsAt(m, ESCALATIONS) == Some(t.escalations)
  {
    hide TextsOf, RecordsOf, TextsJson, RecordsJson, LayerText, StateText,
      ID, BRIEF_ID, PARENT_TASK_ID, LAYER, STATE, SUBJECT, DESCRIPTION, REPO, MODULE, ISSUE, ASSIGNED_LEAD_ID,
      BLOCKED_BY, CHILD_TASK_IDS, CREATED_AT, COMPLETED_AT, ESCALATIONS;
    FieldNames();
    TextsRoundTrip(t.blockedBy);
    TextsRoundTrip(t.childTaskIds);
    RecordsRoundTrip(t.escalations);
  }

  lemma HeadFields(t: HmasTask)
    ensures
      var m := TaskJson(t).fields;
      && ID in m && m[ID] == Str(t.id)
      && BRIEF_ID in m && m[BRIEF_ID] == Str(t.briefId)
      && PARENT_TASK_ID in m && m[PARENT_TASK_ID] == Str(t.parentTaskId)
      && LAYER in m && m[LAYER] == Str(LayerText(t.layer))
      && STATE in m && m[STATE] == Str(StateText(t.state))
      && SUBJECT in m && m[SUBJECT] == Str(t.subject)
      && DESCRIPTION in m && m[DESCRIPTION] == Str(t.description)
  {
    hide LayerText, StateText, TextsJson, RecordsJson,
      ID, BRIEF_ID, PARENT_TASK_ID, LAYER, STATE, SUBJECT, DESCRIPTION, REPO, MODULE, ISSUE, ASSIGNED_LEAD_ID,
      BLOCKED_BY, CHILD_TASK_IDS, CREATED_AT, COMPLETED_AT, ESCALATIONS;
    FieldNames();
  }

  lemma TailFields(t: HmasTask)
    ensures
      var m := TaskJson(t).fields;
      && REPO in m && m[REPO] == Str(t.repo)
      && MODULE in m && m[MODULE] == Str(t.moduleName)
      && ISSUE in m && m[ISSUE] == Num(t.issue)
      && ASSIGNED_LEAD_ID in m && m[ASSIGNED_LEAD_ID] == Str(t.assignedLeadId)
      && CREATED_AT in m && m[CREATED_AT] == Str(t.createdAt)
      && COMPLETED_AT in m && m[COMPLETED_AT] == Str(t.completedAt)
  {
    hide LayerText, StateText, TextsJson, RecordsJson,
      ID, BRIEF_ID, PARENT_TASK_ID, LAYER, STATE, SUBJECT, DESCRIPTION, REPO, MODULE, ISSUE, ASSIGNED_LEAD_ID,
      BLOCKED_BY, CHILD_TASK_IDS, CREATED_AT, COMPLETED_AT, ESCALATIONS;
    FieldNames();
  }

  lemma PlainFieldsRoundTrip(t: HmasTask)
    requires -0x8000_0000 <= t.issue < 0x8000_0000
    ensures PlainTask(TaskJson(t).fields) == Some(t.(blockedBy := [], childTaskIds := [], escalations := []))
  {
    hide TaskJson, LayerText, LayerOf, StateText, StateOf, Int32,
      ID, BRIEF_ID, PARENT_TASK_ID, LAYER, STATE, SUBJECT, DESCRIPTION, REPO, MODULE, ISSUE, ASSIGNED_LEAD_ID,
      CREATED_AT, COMPLETED_AT;
    HeadFields(t);
    TailFields(t);
  }

  /** The names the texts and numbers of a task have on the wire. */
  lemma TaskOnTheWire(t: HmasTask)
    ensures HasText(TaskJson(t), "id", t.id) && HasText(TaskJson(t), "brief_id", t.briefId)
    ensures HasText(TaskJson(t), "parent_task_id", t.parentTaskId)
    ensures HasText(TaskJson(t), "layer", LayerText(t.layer)) && HasText(TaskJson(t), "state", StateText(t.state))
    ensures HasText(TaskJson(t), "subject", t.subject) && HasText(TaskJson(t), "description", t.description)
    ensures HasText(TaskJson(t), "repo", t.repo) && HasText(TaskJson(t), "module", t.moduleName)
    ensures HasText(TaskJson(t), "assigned_lead_id", t.assignedLeadId)
    ensures HasText(TaskJson(t), "created_at", t.createdAt) && HasText(TaskJson(t), "completed_at", t.completedAt)
    ensures Has(TaskJson(t), "issue", Num(t.issue))
  {
    HeadFields(t);
    TailFields(t);
    hide TaskJson, LayerText, StateText;
  }

  /** The names its lists have on the wire. */
  lemma TaskListsOnTheWire(t: HmasTask)
    ensures HasTexts(TaskJson(t), "blocked_by", t.blockedBy) && HasTexts(TaskJson(t), "child_task_ids", t.childTaskIds)
    ensures forall k :: 0 <= k < |t.escalations| ==>
      && HasItem(TaskJson(t), "escalations", |t.escalations|, k, RecordJson(t.escalations[k]))
      && HasText(RecordJson(t.escalations[k]), "task_id", t.escalations[k].taskId)
      && HasText(RecordJson(t.escalations[k]), "reason", t.escalations[k].reason)
      && HasText(RecordJson(t.escalations[k]), "escalated_at", t.escalations[k].escalatedAt)
      && HasText(RecordJson(t.escalations[k]), "from_layer", LayerText(t.escalations[k].fromLayer))
  {
    ListFields(t);
    forall k | 0 <= k < |t.escalations|
      ensures
        var r := t.escalations[k];
        && HasText(RecordJson(r), "task_id", r.taskId) && HasText(RecordJson(r), "reason", r.reason)
        && HasText(RecordJson(r), "escalated_at", r.escalatedAt)
        && HasText(RecordJson(r), "from_layer", LayerText(r.fromLayer))
    {
      RecordFields(t.escalations[k]);
      hide RecordJson, LayerText;
    }
    hide TaskJson, RecordJson, LayerText;
  }

  ghost predicate Has(j: Json, key: string, value: Json) {
    j.Obj? && key in j.fields && j.fields[key] == value
  }

  ghost predicate HasText(j: Json, key: string, text: string) {
    Has(j, key, Str(text))
  }

  ghost predicate HasItem(j: Json, key: string, n: nat, k: nat, item: Json) {
    && j.Obj? && key in j.fields && j.fields[key].Arr?
    && |j.fields[key].items| == n && k < n && j.fields[key].items[k] == item
  }

  ghost predicate HasTexts(j: Json, key: string, texts: seq<string>) {
    && j.Obj? && key in j.fields && j.fields[key].Arr? && |j.fields[key].items| == |texts|
    && forall i :: 0 <= i < |texts| ==> j.fields[key].items[i] == Str(texts[i])
  }

  /** Absent fields have defaults: empty texts and lists, issue 0, the top layer, Pending. */
  lemma AbsentFields()
    ensures TaskOf(Obj(map[])) ==
      Some(HmasTask("", "", "", L0_ChiefArchitect, Pending, "", "", "", "", 0, "", [], [], [], "", ""))
    ensures BriefOf(Obj(map[])) == Some(TaskBrief("", "", "", [], map[], map[]))
  {
  }

  lemma ListFields(t: HmasTask)
    ensures
      var m := TaskJson(t).fields;
      && BLOCKED_BY in m && m[BLOCKED_BY] == TextsJson(t.blockedBy)
      && CHILD_TASK_IDS in m && m[CHILD_TASK_IDS] == TextsJson(t.childTaskIds)
      && ESCALATIONS in m && m[ESCALATIONS] == RecordsJson(t.escalations)
  {
    hide LayerText, StateText, TextsJson, RecordsJson,
      ID, BRIEF_ID, PARENT_TASK_ID, LAYER, STATE, SUBJECT, DESCRIPTION, REPO, MODULE, ISSUE, ASSIGNED_LEAD_ID,
      BLOCKED_BY, CHILD_TASK_IDS, CREATED_AT, COMPLETED_AT, ESCALATIONS;
    FieldNames();
  }

  lemma RecordFields(r: EscalationRecord)
    ensures
      var m := RecordJson(r).fields;
      && RecordJson(r).Obj?
      && TASK_ID in m && m[TASK_ID] == Str(r.taskId) && REASON in m && m[REASON] == Str(r.reason)
      && ESCALATED_AT in m && m[ESCALATED_AT] == Str(r.escalatedAt)
      && FROM_LAYER in m && m[FROM_LAYER] == Str(LayerText(r.fromLayer))
  {
    hide TASK_ID, REASON, ESCALATED_AT, FROM_LAYER, LayerText;
    FieldNames();
  }

  /** A task read back is the task that was written. */
  lemma TaskRoundTrip(t: HmasTask)
    requires -0x8000_0000 <= t.issue < 0x8000_0000
    ensures TaskOf(TaskJson(t)) == Some(t)
  {
    hide PlainTask, TextsAt, RecordsAt;
    ListFieldsRoundTrip(t);
    PlainFieldsRoundTrip(t);
  }

  // ------------------------------------------------------------------- briefs

  type Lists = map<string, seq<string>>

  function ListsJson(lists: Lists): Json {
    Obj(map k | k in lists :: TextsJson(lists[k]))
  }

  function BriefJson(b: TaskBrief): Json {
    Obj(map[ID := Str(b.id), TITLE := Str(b.title), DESCRIPTION := Str(b.description),
            REPOS := TextsJson(b.repos), MODULES := ListsJson(b.modules),
            IMPLS := Obj(map r | r in b.impls :: ListsJson(b.impls[r]))])
  }

  /** The strings of a list field; anything else has none. */
  function Texts(j: Json): seq<string> {
    if j.Arr? && TextsOf(j.items).Some? then TextsOf(j.items).value else []
  }

  /** A list with an element that is not a string makes reading fail. */
  predicate Unreadable(j: Json) {
    j.Arr? && TextsOf(j.items).None?
  }

  /** Lists are collected element by element, so an empty one leaves no entry. */
  function ListsOf(m: Fields): Option<Lists> {
    if exists k :: k in m && Unreadable(m[k]) then None
    else Some(map k | k in m && Texts(m[k]) != [] :: Texts(m[k]))
  }

  function ListsIn(j: Json): Option<Lists> {
    if j.Obj? then ListsOf(j.fields) else Some(map[])
  }

  function NestedOf(m: Fields): Option<map<string, Lists>> {
    if exists r :: r in m && ListsIn(m[r]).None? then None
    else Some(map r | r in m && ListsIn(m[r]).Some? && ListsIn(m[r]).value != map[] :: ListsIn(m[r]).value)
  }

  function ListsAt(m: Fields, key: string): Option<Lists> {
    if key in m then ListsIn(m[key]) else Some(map[])
  }

  function NestedAt(m: Fields, key: string): Option<map<string, Lists>> {
    if key in m && m[key].Obj? then NestedOf(m[key].fields) else Some(map[])
  }

  function BriefOf(j: Json): Option<TaskBrief> {
    if !j.Obj? then None
    else
      var m := j.fields;
      var id, title, description := TextOr(m, ID, ""), TextOr(m, TITLE, ""), TextOr(m, DESCRIPTION, "");
      var repos, modules, impls := TextsAt(m, REPOS), ListsAt(m, MODULES), NestedAt(m, IMPLS);
      if id.None? || title.None? || description.None? || repos.None? || modules.None? || impls.None? then None
      else Some(TaskBrief(id.value, title.value, description.value, repos.value, modules.value, impls.value))
  }

  method ReadLists(m: Fields) returns (r: Option<Lists>)
    ensures r == ListsOf(m)
  {
    hide TextsOf;
    var lists: Lists := map[];
    var todo := m.Keys;
    while todo != {}
      invariant todo <= m.Keys
      invariant forall k :: k in m && k !in todo ==> !Unreadable(m[k])
      invariant forall k :: k in lists <==> k in m && k !in todo && Texts(m[k]) != []
      invariant forall k :: k in lists ==> lists[k] == Texts(m[k])
      decreases |todo|
    {
      var k :| k in todo;
      todo := todo - {k};
      if m[k].Arr? {
        var texts := ReadTexts(m[k].items);
        if texts.None? {
          assert Unreadable(m[k]);
          return None;
        }
        if texts.value != [] {
          lists := lists[k := texts.value];
        }
      }
    }
    assert ListsOf(m).Some? && lists == ListsOf(m).value;
    return Some(lists);
  }

  method ReadNested(m: Fields) returns (r: Option<map<string, Lists>>)
    ensures r == NestedOf(m)
  {
    hide ListsOf;
    var nested: map<string, Lists> := map[];
    var todo := m.Keys;
    while todo != {}
      invariant todo <= m.Keys
      invariant forall k :: k in m && k !in todo ==> ListsIn(m[k]).Some?
      invariant forall k :: k in nested <==> k in m && k !in todo && ListsIn(m[k]).value != map[]
      invariant forall k :: k in nested ==> Some(nested[k]) == ListsIn(m[k])
      decreases |todo|
    {
      var k :| k in todo;
      todo := todo - {k};
      if m[k].Obj? {
        var lists := ReadLists(m[k].fields);
        if lists.None? {
          assert ListsIn(m[k]).None?;
          return None;
        }
        if lists.value != map[] {
          nested := nested[k := lists.value];
        }
      }
    }
    assert NestedOf(m).Some? && nested == NestedOf(m).value;
    return Some(nested);
  }

  method BriefFromJson(j: Json) returns (r: Option<TaskBrief>)
    ensures r == BriefOf(j)
  {
    hide TextsAt, ListsOf, NestedOf, TextOr, ID, TITLE, DESCRIPTION, REPOS, MODULES, IMPLS;
    if !j.Obj? {
      return None;
    }
    var m := j.fields;
    var id, title, description := TextOr(m, ID, ""), TextOr(m, TITLE, ""), TextOr(m, DESCRIPTION, "");
    if id.None? || title.None? || description.None? {
      return None;
    }
    var repos := ReadTextsAt(m, REPOS);
    if repos.None? {
      return None;
    }
    var modules: Option<Lists> := Some(map[]);
    if MODULES in m && m[MODULES].Obj? {
      modules := ReadLists(m[MODULES].fields);
    }
    if modules.None? {
      return None;
    }
    var impls: Option<map<string, Lists>> := Some(map[]);
    if IMPLS in m && m[IMPLS].Obj? {
      impls := ReadNested(m[IMPLS].fields);
    }
    if impls.None? {
      return None;
    }
    return Some(TaskBrief(id.value, title.value, description.value, repos.value, modules.value, impls.value));
  }

  /** A brief without the empty lists that JSON does not bring back. */
  function WithoutEmpty(lists: Lists): Lists {
    map k | k in lists && lists[k] != [] :: lists[k]
  }

  function Normalized(b: TaskBrief): TaskBrief {
    b.(modules := WithoutEmpty(b.modules),
       impls := map r | r in b.impls && WithoutEmpty(b.impls[r]) != map[] :: WithoutEmpty(b.impls[r]))
  }

  lemma ListsRoundTrip(lists: Lists)
    ensures ListsJson(lists).Obj? && ListsIn(ListsJson(lists)) == Some(WithoutEmpty(lists))
  {
    hide TextsOf, TextsJson;
    var m := ListsJson(lists).fields;
    forall k | k in lists ensures !Unreadable(m[k]) && Texts(m[k]) == lists[k] {
      TextsRoundTrip(lists[k]);
    }
    assert ListsOf(m).value == WithoutEmpty(lists);
  }

  lemma NestedRoundTrip(impls: map<string, Lists>)
    ensures NestedOf(map r | r in impls :: ListsJson(impls[r]))
         == Some(map r | r in impls && WithoutEmpty(impls[r]) != map[] :: WithoutEmpty(impls[r]))
  {
    hide ListsIn, ListsJson, WithoutEmpty;
    var m := map r | r in impls :: ListsJson(impls[r]);
    forall r | r in impls ensures ListsIn(m[r]) == Some(WithoutEmpty(impls[r])) {
      ListsRoundTrip(impls[r]);
    }
    assert NestedOf(m).value == map r | r in impls && WithoutEmpty(impls[r]) != map[] :: WithoutEmpty(impls[r]);
  }

  /** A brief read back is the brief that was written, without its empty lists. */
  lemma BriefRoundTrip(b: TaskBrief)
    ensures BriefOf(BriefJson(b)) == Some(Normalized(b))
  {
    hide TextsOf, TextsJson, ListsIn, ListsOf, ListsJson, NestedOf, WithoutEmpty,
      ID, TITLE, DESCRIPTION, REPOS, MODULES, IMPLS;
    FieldNames();
    TextsRoundTrip(b.repos);
    ListsRoundTrip(b.modules);
    NestedRoundTrip(b.impls);
  }
}
