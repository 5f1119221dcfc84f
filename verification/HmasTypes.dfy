/** Tasks of the four-layer hierarchy (HMAS) and the briefs they come from. */
module HmasTypes {
  datatype Layer = L0_ChiefArchitect | L1_ComponentLead | L2_ModuleLead | L3_TaskAgent

  datatype TaskState = Pending | Decomposing | Delegated | InProgress | Escalated | Completed | Failed

  datatype TaskEvent = Submit | Delegate | Start | Escalate | Retry | Complete | Fail

  datatype EscalationRecord = EscalationRecord(taskId: string, reason: string, escalatedAt: string, fromLayer: Layer)

  datatype HmasTask = HmasTask(
    id: string,
    briefId: string,
    parentTaskId: string,
    layer: Layer,
    state: TaskState,
    subject: string,
    description: string,
    repo: string,
    moduleName: string,
    issue: int,
    assignedLeadId: string,
    blockedBy: seq<string>,
    childTaskIds: seq<string>,
    escalations: seq<EscalationRecord>,
    createdAt: string,
    completedAt: string)

  datatype TaskBrief = TaskBrief(
    id: string,
    title: string,
    description: string,
    repos: seq<string>,
    modules: map<string, seq<string>>,
    impls: map<string, map<string, seq<string>>>)

  ghost predicate HasId(ts: seq<HmasTask>, id: string) {
    exists k :: 0 <= k < |ts| && ts[k].id == id
  }

  ghost predicate DistinctTaskIds(ts: seq<HmasTask>) {
    forall a, b :: 0 <= a < b < |ts| ==> ts[a].id != ts[b].id
  }
}
