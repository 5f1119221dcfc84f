# Agamemnon, verified

A Dafny model of the parts of Agamemnon whose correctness is hard to see from the code: the DAG
walker of the Python orchestration package, the hierarchical task (HMAS) orchestrator with its
planner, state machine and store, the inbound GitHub sync and the issue format, the work-stealing
scheduler, the parallel peer search, and the flow control around publishing and HTTP requests.

Code that changes state step by step is modelled by classes and methods with loops, each proved
against a specification function or predicate; what the system promises is then proved about those
specifications. The two concurrent components are transition systems over all interleavings.

| File | Component |
|---|---|
| `Common.dfy`, `Text.dfy` | shared datatypes; substring search, numerals, string order |
| `DependencyGraph.dfy`, `CycleSearch.dfy`, `DagWalker.dfy`, `DagProgress.dfy` | cycles, the three-colour search, assignment rounds |
| `HmasTypes.dfy`, `StateMachine.dfy` | tasks, briefs, the guarded state machine |
| `ImplRefs.dfy`, `PlanSkeleton.dfy`, `Planning.dfy`, `PlanWiring.dfy`, `Breakdown.dfy`, `PlanContents.dfy`, `PlanLinks.dfy`, `PlanCycles.dfy` | issue references, the breakdown of a brief, what a plan contains and how it is linked in terms of the brief, and when it is free of cycles |
| `TaskStore.dfy` | tasks with a secondary index by brief |
| `Protocol.dfy`, `ProtocolRuns.dfy`, `HandlerEffects.dfy`, `Deadlocks.dfy`, `ChainedTasks.dfy`, `Orchestrator.dfy` | handlers as steps of one world, runs of them, what each handler changes, tasks that never run or wait for a second report, and the code that performs the steps |
| `InboundSync.dfy`, `IssueBody.dfy` | last-writer-wins sync, fenced issue bodies and titles |
| `JsonValues.dfy`, `TaskJson.dfy`, `RestoredPlans.dfy`, `Restart.dfy` | JSON, round trips of tasks and briefs, plans of restored briefs, restarts |
| `WorkStealing.dfy`, `PeerRace.dfy` | scheduler and peer race as transition systems |
| `RateLimiter.dfy` | token buckets |
| `DeadLetters.dfy`, `Breakers.dfy`, `Publisher.dfy` | dead-letter queue, circuit breaker, publishing with retries |

The main results:

- The cycle search terminates and reports nothing exactly for acyclic graphs, and otherwise a simple
  cycle; the branch that handles popping a gray node is dead code.
- A round assigns only pending, unassigned tasks whose dependencies have all ended, in list order, and
  passes none over while an agent is free. On an acyclic task list some task is always ready, so rounds of
  assign-and-finish end within as many rounds as there are tasks.
- A plan contains, in order, one task for each repo, module and implementation the brief lists, or their
  defaults. A task waits for exactly its parent, the sibling before it if it waits its turn, and the tasks
  its text depends on. A plan is free of cycles if and only if the chain and annotated edges among the implementation tasks of its brief are.
  A brief whose edges run in a circle is accepted, and in no run with well-behaved workers does a task
  on the circle leave Pending.
- In every run of the orchestrator, whatever workers report and however often, nothing is dispatched
  twice, terminal tasks keep state and completion stamp, and stamps appear exactly in terminal states.
  If workers report only on what was dispatched, no task leaves Pending before all its blockers are
  Completed. Without that assumption a run keeps this if and only if it has no report on a waiting task
  that is still blocked, and there are runs that have one.
- A completion delegates exactly those children whose blockers are then all Completed. The remainders of a
  split are worked on one after the other.
- A task chained behind a sibling is never dispatched unless the completion of its parent is reported
  again after the parent is Completed; once its blockers are Completed, such a report dispatches it.
- The scheduler neither loses nor duplicates an item in any interleaving, restarts included. A worker
  at the top of its loop that works alone runs or drops an item within as many steps as there are workers,
  plus two, if any queue holds one. Every item
  accepted before its queue's worker has exited runs, and joining terminates. What is accepted after all
  workers have exited does not run until the scheduler is started again, and has run when they exit next.
- Timestamped GitHub edits converge in any order and any multiplicity, the alphabetically last timestamp winning if and only if
  the stored timestamp is absent or a string. A second reconciliation over the same timestamped issues
  goes through and applies nothing.
- Tasks written to issues and read back after a restart give the store that was written.
- Forgetting idle rate-limiter clients is invisible if and only if a bucket refills within the
  eviction period of 300 seconds. A new client may spend its whole burst at once.
- In an outage of length T after opening, at most T / interval publishes reach the broker, and every
  publish an interval after the last opening does. One that is acknowledged closes the breaker.

Identifiers from `generate_uuid` are parameters assumed fresh, distinct and non-empty. Clock readings,
answers of the network and statuses of publish attempts are parameters as well. Each orchestrator
handler is one atomic step.

Where code and documentation differ, the code is followed:

- The planner's comment says an annotated dependency becomes an edge if the issue is in the brief. An
  issue whose first L3 task is the annotated task itself adds no edge, even if a later task carries the
  same issue.
- The planner's comment calls the links of annotated dependencies parent child links. They are added under
  the blocker, which is not the parent.

## Model

| member | source | states |
|---|---|---|
| `DependencyGraph.FinishingOrderExcludesCycles` | agamemnon/src/agamemnon/orchestration/dag_walker.py:47-116 | a graph whose nodes can all be listed after their dependencies has no cycle |
| `DependencyGraph.SourceExists` | agamemnon/src/agamemnon/orchestration/dag_walker.py:36-45 | an acyclic graph restricted to a non-empty set of nodes has a node without dependencies in the set |
| `CycleSearch.BlackenKeepsInv` | agamemnon/src/agamemnon/orchestration/dag_walker.py:81-83 | finishing a node keeps the search invariant: gray nodes are the parent chain of the stack, black nodes finish after their dependencies |
| `CycleSearch.PoppedNodeIsNotGray` | agamemnon/src/agamemnon/orchestration/dag_walker.py:85-94 | an unprocessed popped node is never gray, so this branch is unreachable |
| `CycleSearch.DropKeepsInv` | agamemnon/src/agamemnon/orchestration/dag_walker.py:96-97 | dropping a popped black node keeps the invariant |
| `CycleSearch.VisitKeepsInv` | agamemnon/src/agamemnon/orchestration/dag_walker.py:99-100 | graying a node and pushing its second visit keeps the invariant |
| `CycleSearch.PushKeepsInv` | agamemnon/src/agamemnon/orchestration/dag_walker.py:112-114 | pushing a white dependency keeps the invariant |
| `CycleSearch.SkipKeepsInv` | agamemnon/src/agamemnon/orchestration/dag_walker.py:101-114 | passing over a black dependency keeps the invariant |
| `CycleSearch.ChainClosesCycle` | agamemnon/src/agamemnon/orchestration/dag_walker.py:102-111 | the parent chain from a gray dependency to the node, closed by the back edge, is a simple cycle |
| `CycleSearch.TraceCycle` | agamemnon/src/agamemnon/orchestration/dag_walker.py:104-111 | following parents and reversing yields exactly that chain, closed |
| `CycleSearch.PushDependencies` | agamemnon/src/agamemnon/orchestration/dag_walker.py:101-114 | either a simple cycle is returned or all dependencies are accounted for |
| `CycleSearch.SearchFrom` | agamemnon/src/agamemnon/orchestration/dag_walker.py:69-114 | the search from one start node terminates with a simple cycle, or with the start node black and nothing gray |
| `CycleSearch.FindCycle` | agamemnon/src/agamemnon/orchestration/dag_walker.py:64-116 | the result is empty if and only if the graph is acyclic, and otherwise a simple cycle |
| `DagWalker.FindCyclePath` | agamemnon/src/agamemnon/orchestration/dag_walker.py:47-62 | an unknown dependency is reported, with the first task that has one; otherwise the cycle result holds for the dependency graph |
| `DagWalker.ReadyIndices` | agamemnon/src/agamemnon/orchestration/dag_walker.py:36-45 | exactly the positions of the ready records, in order |
| `DagWalker.StartableIsReady` | agamemnon/src/agamemnon/orchestration/dag_walker.py:36-45 | a task is ready if and only if it is pending, has no agent, and each dependency names a task that is completed, failed, in error or cancelled |
| `DagWalker.AvailableIndices` | agamemnon/src/agamemnon/orchestration/dag_walker.py:28-34 | exactly the positions of the active, online, unassigned agents, in order |
| `DagWalker.AvailableAgents` | agamemnon/src/agamemnon/orchestration/dag_walker.py:28-34 | the agents at those positions, in list order and as often as listed |
| `DagWalker.AssignPairs` | agamemnon/src/agamemnon/orchestration/dag_walker.py:155-173 | the k-th ready task gets the k-th free agent as far as both last; nothing else changes |
| `DagWalker.Walker.AssignReady` | agamemnon/src/agamemnon/orchestration/dag_walker.py:155-173 | min(ready, free) pairs of distinct tasks and distinct agents: only tasks that may start, in list order, to agents that may work, none passed over while one is idle; the pairs are recorded and nothing else changes |
| `DagWalker.Walker.AdvanceDag` | agamemnon/src/agamemnon/orchestration/dag_walker.py:126-173 | a list with an unknown dependency or a cycle is refused unchanged, naming the first unknown one or a simple cycle; otherwise a fetched agent list replaces the cached one and a round with that contract is assigned |
| `DagWalker.RoundIsFair` | agamemnon/src/agamemnon/orchestration/dag_walker.py:155-173 | pairing ready tasks with free agents in order meets that contract |
| `DagProgress.SomeTaskReady` | agamemnon/src/agamemnon/orchestration/dag_walker.py:36-45 | on an accepted list with open work, all of it pending and unassigned, some task is ready |
| `DagProgress.RoundKeepsAccepted` | agamemnon/src/agamemnon/orchestration/dag_walker.py:126-173 | assigning and finishing keeps the list acyclic and settled |
| `DagProgress.RoundProgress` | agamemnon/src/agamemnon/orchestration/dag_walker.py:126-173 | with a free agent, every round finishes at least one open task |
| `DagProgress.RoundsFinish` | agamemnon/src/agamemnon/orchestration/dag_walker.py:126-173 | after as many rounds as there are tasks, every task is terminal |
| `StateMachine.TaskStateMachine.constructor` | src/state_machine.cpp:27-62 | the registered table is exactly the state diagram |
| `StateMachine.RowMeansAfter` | src/state_machine.cpp:64-77 | the first candidate with a passing guard gives what the diagram says |
| `StateMachine.TaskStateMachine.TryTransition` | src/state_machine.cpp:64-77 | accepts exactly the events of the diagram and changes nothing otherwise |
| `StateMachine.StepDiscipline` | src/state_machine.cpp:27-77 | no step returns to Pending, stamps appear exactly in terminal states, the task's body stays |
| `StateMachine.SequenceDiscipline` | src/state_machine.cpp:27-77 | so it is over any sequence of events, and terminal tasks stay as they are |
| `StateMachine.TerminalIffStuck` | src/state_machine.cpp:27-77 | a state accepts no event if and only if it is Completed or Failed |
| `StateMachine.Lifecycle` | src/state_machine.cpp:27-62 | what each event makes of a task in each state; Pending goes straight to Delegated for leaf tasks only |
| `ImplRefs.SkipBlanks` | src/planning_breakdown.cpp:14 | the number of leading blanks |
| `ImplRefs.SkipDigits` | src/planning_breakdown.cpp:16-18 | the end of the run of digits |
| `ImplRefs.CollectReferences` | src/planning_breakdown.cpp:28-38 | the issue numbers of the annotation, or an error if one does not fit in int |
| `ImplRefs.ParseAnnotation` | src/planning_breakdown.cpp:21-39 | the annotation between marker and closing parenthesis, if both are there |
| `ImplRefs.ParseImplRef` | src/planning_breakdown.cpp:11-40 | the scanning loops compute the declarative reading of the string, including its errors |
| `ImplRefs.ParseUndoesRender` | src/planning_breakdown.cpp:11-40 | parsing "#N" or "#N (depends on: #A, #B)" gives back N, the list and the flag, or the range error exactly when a number does not fit |
| `ImplRefs.LeadingBlankIgnored` | src/planning_breakdown.cpp:11-40 | blanks in front of a reference change nothing |
| `ImplRefs.NoReference` | src/planning_breakdown.cpp:13-19 | a string without a number sign and a digit behind its blanks refers to nothing |
| `ImplRefs.NoExplicitDependencies` | src/planning_breakdown.cpp:21-26 | without the marker or without a closing parenthesis no dependency is explicit |
| `PlanSkeleton.SkeletonShape` | src/planning_breakdown.cpp:42-150 | each node hangs one layer below an earlier one and, if chained, behind its nearest earlier sibling |
| `Planning.BuiltGrows` | src/planning_breakdown.cpp:60-150 | appending a task and linking it to its parent keeps the list equal to the plan so far |
| `Planning.AddL3` | src/planning_breakdown.cpp:113-148 | the implementation loop adds exactly the L3 nodes of a module, failing exactly on an unreadable reference |
| `Planning.AddL2` | src/planning_breakdown.cpp:80-149 | the module loop adds exactly the nodes of a repo |
| `Planning.AddL1` | src/planning_breakdown.cpp:42-150 | the first pass lists the tasks of the skeleton in order, each linked to its children, and fails exactly on an unreadable reference |
| `PlanWiring.IndexIssues` | src/planning_breakdown.cpp:156-161 | every issue maps to the first L3 task that carries it |
| `PlanWiring.WireTask` | src/planning_breakdown.cpp:163-179 | the dependencies of one task add exactly their edges |
| `PlanWiring.WireDependencies` | src/planning_breakdown.cpp:152-180 | the post-pass adds exactly the annotated edges, each once, and changes nothing else |
| `Breakdown.Decompose` | src/planning_breakdown.cpp:42-183 | fails exactly when the nodes of the brief cannot all be read, and otherwise returns its plan |
| `Breakdown.PlanBasics` | src/planning_breakdown.cpp:42-183 | one task per node with its own id and layer, all Pending, unassigned and unstamped |
| `Breakdown.BlockersExactly` | src/planning_breakdown.cpp:60-180 | b blocks a if and only if b is a's parent, the sibling a is chained behind, or annotated |
| `Breakdown.ChildrenExactly` | src/planning_breakdown.cpp:60-180 | a is listed under b if and only if b is a's parent or a is annotated to depend on b |
| `Breakdown.LinksStayInside` | src/planning_breakdown.cpp:60-180 | links name tasks of the plan and none twice |
| `Breakdown.ParentLinks` | src/planning_breakdown.cpp:60-150 | every non-root task has an earlier parent one layer up, which blocks it and lists it once |
| `Breakdown.ChildrenAreBlocked` | src/planning_breakdown.cpp:60-180 | whoever is listed as a child lists the lister as a blocker |
| `Breakdown.UnlinkedBlockerIsChain` | src/planning_breakdown.cpp:88-150 | a blocker without a child link is the previous sibling |
| `Breakdown.BlockersComeEarlier` | src/planning_breakdown.cpp:152-180 | if annotations point back, so does every blocker |
| `PlanContents.ParseableIff` | src/planning_breakdown.cpp:80-141 | the nodes can be read if and only if every text the brief lists for a module of its repos can |
| `PlanContents.ReposAsListed` | src/planning_breakdown.cpp:59-78 | under the root, in order: one lead for each repo of the brief |
| `PlanContents.ModulesAsListed` | src/planning_breakdown.cpp:80-111 | under a repo lead, in order: one lead for each module the brief lists, or "core" |
| `PlanContents.ImplementationsAsListed` | src/planning_breakdown.cpp:113-148 | under a module lead, in order: one L3 task for each implementation the brief lists, with that text as its subject, or "Implement" and the module |
| `PlanContents.PlanLength` | src/planning_breakdown.cpp:42-150 | the length is 1 + the sum over the listed repos, modules and implementations |
| `PlanContents.PlanTexts` | src/planning_breakdown.cpp:46-141 | subject, description and issue number of every task, layer by layer |
| `PlanLinks.LinksAsListed` | src/planning_breakdown.cpp:72-180 | on the tasks alone: b blocks a if and only if b is the parent of a, or a is a module lead or an implementation without explicit dependencies and b its nearest elder sibling, or the text of a depends on the issue of b and no earlier task has it; b lists a if and only if it is the first or the last |
| `PlanCycles.BlockerKinds` | src/planning_breakdown.cpp:60-180 | a blocker is never on a deeper layer; on the same layer it is an implementation edge of the brief or an earlier sibling |
| `PlanCycles.PlanAcyclicIff` | src/planning_breakdown.cpp:42-180 | the blocker graph of a plan has no cycle if and only if the chain and annotated edges among the implementation nodes of the brief have none |
| `PlanCycles.PlanIsAcyclic` | src/planning_breakdown.cpp:152-180 | in particular it has none if every annotation points to an earlier task |
| `PlanCycles.PlanExists` | src/planning_breakdown.cpp:152-180 | with enough ids every brief whose references can be read has a plan |
| `PlanCycles.MutualBriefGoesInCircles` | src/planning_breakdown.cpp:162-180 | the brief with "#1 (depends on: #2)" and "#2 (depends on: #1)" is accepted and its plan has a cycle |
| `TaskStore.Store.CreateTask` | src/store.cpp:786-800 | stores the task and appends it to its brief's bucket |
| `TaskStore.Store.UpdateTask` | src/store.cpp:851-880 | replaces a stored task and moves it between buckets when its brief changes |
| `TaskStore.Store.UpdateTaskState` | src/store.cpp:810-849 | sets the state, and appends the escalation if there is one, of a stored task only; all other fields and tasks stay |
| `TaskStore.Store.ListByBrief` | src/store.cpp:902-914 | with an exact index: each task of the brief once, and no other; none for the empty id |
| `TaskStore.ListingIsExact` | src/store.cpp:902-914 | a lookup in an exact index finds what a full scan finds |
| `TaskStore.CreateKeepsIndexIff` | src/store.cpp:786-800 | creating keeps the index exact if and only if the id is new or was stored without a brief |
| `TaskStore.UpdateKeepsIndex` | src/store.cpp:851-880 | a full update keeps the index exact, moves included |
| `TaskStore.StateSetKeepsIndex` | src/store.cpp:810-849 | a state update keeps the index exact |
| `TaskStore.RunKeepsIndex` | src/store.cpp:786-880 | so does any sequence of operations whose creates are fresh |
| `TaskStore.HydrationRestores` | src/store.cpp:242-262 | storing the tasks of a store again, in any order, restores them and an exact index |
| `Restart.Hydrate` | src/store.cpp:229-269 | the hydration loop stores the tasks of the well-formed issues and their issue numbers, and skips malformed and mistyped issues |
| `Restart.RestartRecovers` | src/store.cpp:229-269 | writing every task to an issue and hydrating from the issues, in any order, restores the tasks, an exact index and the issue numbers, given that for these tasks parsing undoes dumping, dumps hold no closing fence, and ids hold no opening fence |
| `Restart.SurvivalPossible` | src/store.cpp:66-94 | for any tasks there are a dump and a parse that meet this |
| `Protocol.DelegateAllKeeps` | src/orchestrator.cpp:439-461 | delegating unblocked children keeps the invariant and safety and only moves tasks forward |
| `Protocol.SubmitKeeps` | src/orchestrator.cpp:16-47 | storing a plan and dispatching its root keeps the invariant and safety |
| `Protocol.EpicKeeps` | src/orchestrator.cpp:274-330 | so does registering an epic |
| `Protocol.SplitKeeps` | src/orchestrator.cpp:332-388 | so does splitting a task: the remainders wait for the original and for each other |
| `HandlerEffects.CompletionEffect` | src/orchestrator.cpp:103-174 | an open task is Completed and stamped; exactly the waiting children whose blockers are then all Completed are delegated and dispatched; nothing else changes |
| `HandlerEffects.StartEffect` | src/orchestrator.cpp:200-237 | an open task is InProgress; its lead is the agent, or agent@host, if an agent is named; nothing else changes |
| `HandlerEffects.FailureEffect` | src/orchestrator.cpp:239-272 | an open task is Failed and stamped; nothing else changes |
| `HandlerEffects.EscalationEffect` | src/orchestrator.cpp:70-101 | an InProgress task is Escalated with one more record of its id, the reason, the time and its layer; nothing else changes |
| `HandlerEffects.SubmitEffect` | src/orchestrator.cpp:16-47 | the plan is stored as planned, its root Delegated and dispatched; nothing else changes |
| `HandlerEffects.SplitEffect` | src/orchestrator.cpp:332-388 | one waiting sibling for each subtask before the first that cannot be read, blocked by the original, the one before and its own blockers; the original lists them if there is none such; nothing else changes |
| `HandlerEffects.RemaindersRunInOrder` | src/orchestrator.cpp:332-388 | in every run with well-behaved workers a remainder leaves Pending only after the original and the remainder before it are Completed |
| `ProtocolRuns.CompletionKeeps` | src/orchestrator.cpp:103-174 | a completion report keeps the invariant, and safety if the task was dispatched |
| `ProtocolRuns.StepKeeps` | src/orchestrator.cpp:16-388 | every handler keeps the invariant and only moves tasks forward; reports on dispatched tasks keep safety |
| `ProtocolRuns.RunKeepsInv` | src/orchestrator.cpp:16-461 | in every run nothing is dispatched twice, stamps are set exactly in terminal states, and every child lists its lister as a blocker |
| `ProtocolRuns.RunAdvances` | src/orchestrator.cpp:16-461 | along every run no task returns to Pending, and terminal tasks keep state and stamp |
| `ProtocolRuns.RunIsSafe` | src/orchestrator.cpp:16-461 | if workers report only on dispatched tasks, every task that left Pending has all blockers stored and Completed |
| `ProtocolRuns.StrayReportSafeIff` | src/orchestrator.cpp:103-272 | on a task that still waits, a start or failure report keeps safety if and only if the task is not blocked, and a completion report if and only if no other task blocks it |
| `ProtocolRuns.StepSafeIff` | src/orchestrator.cpp:16-388 | in a safe state, a step keeps safety if and only if it is not a report on a waiting task that is still blocked |
| `ProtocolRuns.RunSafeIff` | src/orchestrator.cpp:16-461 | all states of a run are safe if and only if none of its steps is such a report |
| `ProtocolRuns.StrayRun` | src/orchestrator.cpp:16-174 | submitting any plan with more than one task and then reporting its second task complete is a run that breaks safety |
| `Deadlocks.UnsafeRunExists` | src/orchestrator.cpp:16-174 | such a run exists for a concrete brief |
| `Deadlocks.WaitingNotCompleted` | src/orchestrator.cpp:16-388 | no step takes a waiting task to Completed if reports are on dispatched tasks |
| `Deadlocks.TrappedForever` | src/orchestrator.cpp:16-461 | waiting tasks that each wait for another one among them do so for the rest of the run |
| `Deadlocks.CircleNeverRuns` | src/orchestrator.cpp:16-461 | the tasks on a cycle of a submitted plan stay Pending and are never dispatched |
| `Deadlocks.CyclicBriefNeverFinishes` | src/orchestrator.cpp:16-461 | a submitted brief whose implementation edges run in a circle always has a task that is still Pending |
| `Deadlocks.MutualRun` | src/orchestrator.cpp:16-47 | there is a run that submits such a brief |
| `ChainedTasks.ChainInPlan` | src/planning_breakdown.cpp:88-148 | a chained task is blocked by its sibling, the sibling by their parent, and only the parent lists the task as a child |
| `ChainedTasks.ListsGrowWithNewTasks` | src/orchestrator.cpp:16-388 | no step puts a stored task on another child list |
| `ChainedTasks.FirstCompletionKeeps` | src/orchestrator.cpp:103-174 | the first completion of the parent leaves the chained task Pending |
| `ChainedTasks.ChainedNeedsSecondReport` | src/orchestrator.cpp:16-461 | a chained task of a submitted plan stays Pending and undispatched unless the completion of its parent is reported again once the parent is Completed |
| `ChainedTasks.SecondReportDispatches` | src/orchestrator.cpp:439-461 | such a report dispatches a waiting child whose blockers are all Completed |
| `ChainedTasks.ChainRun` | src/orchestrator.cpp:16-47 | there is a run that submits a brief with a chained task |
| `ProtocolRuns.CompletionTwice` | src/orchestrator.cpp:103-174 | handling a completion twice in a row is handling it once |
| `ProtocolRuns.CompletionOfFailed` | src/orchestrator.cpp:103-174 | a completion report for a Failed task changes and delegates nothing |
| `Orchestration.Orchestrator.WalkToDelegated` | src/orchestrator.cpp:140-148 | the events walk a Pending or Decomposing task of any layer to Delegated and leave other tasks alone |
| `Orchestration.Orchestrator.WalkToCompleted` | src/orchestrator.cpp:137-152 | walks a task from any non-terminal state to Completed, stamping it, and leaves terminal tasks alone |
| `Orchestration.Orchestrator.WalkToStarted` | src/orchestrator.cpp:211-220 | walks a task from any non-terminal state to InProgress and leaves terminal tasks alone |
| `Orchestration.Orchestrator.WalkToFailed` | src/orchestrator.cpp:250-261 | walks a task from any non-terminal state to Failed, stamping it, and leaves terminal tasks alone |
| `Orchestration.Orchestrator.DelegateTask` | src/orchestrator.cpp:49-68 | delegates and dispatches a stored Pending or Decomposing task and changes nothing otherwise |
| `Orchestration.Orchestrator.IsClear` | src/orchestrator.cpp:451-458 | true exactly if every blocker is stored and Completed |
| `Orchestration.Orchestrator.DelegateUnblockedChildren` | src/orchestrator.cpp:439-461 | the loop performs the delegation step of the protocol for each child in turn |
| `Orchestration.Orchestrator.OnMyrmidonCompletion` | src/orchestrator.cpp:103-174 | performs the completion step |
| `Orchestration.Orchestrator.OnMyrmidonStarted` | src/orchestrator.cpp:200-237 | performs the start step |
| `Orchestration.Orchestrator.OnMyrmidonFailed` | src/orchestrator.cpp:239-272 | performs the failure step |
| `Orchestration.Orchestrator.EscalateTask` | src/orchestrator.cpp:70-101 | performs the escalation step: only an InProgress task escalates, and the record is kept |
| `Orchestration.Orchestrator.SubmitBrief` | src/orchestrator.cpp:16-47 | performs the submission step with the plan of the brief, or changes nothing if planning fails |
| `Orchestration.Orchestrator.RegisterEpic` | src/orchestrator.cpp:274-330 | performs the epic step: without repo, key or issue nothing; otherwise a root task with the subject and description of the epic is stored Decomposing and dispatched |
| `Orchestration.Orchestrator.ReadSubtask` | src/orchestrator.cpp:345-374 | the subtask a JSON value describes, or the error: no title, or a field of the wrong type |
| `Orchestration.SubtaskMeans` | src/orchestrator.cpp:345-374 | a subtask can be read if and only if it has a title and no field of the wrong type; each of its parts by field name |
| `Orchestration.Orchestrator.SplitTask` | src/orchestrator.cpp:332-388 | performs the split step, stopping at the first subtask that cannot be read, and returns the new ids or the error |
| `InboundSync.SyncedStore.ApplyGithubEvent` | src/store.cpp:340-386 | the labelled collection and the answer are those of the event; other collections stay, and unknown labels change nothing |
| `InboundSync.EventMeans` | src/store.cpp:340-386 | in plain terms: closing and reopening mark and stamp a stored entity, an edit is written unless the stored timestamp is alphabetically at least as late, everything else stays; malformed issues are ignored, mistyped ids, numbers and stored timestamps throw |
| `InboundSync.ListingTells` | src/store.cpp:401-404 | the edits of a listing are exactly what its issues say at the times they carry |
| `Text.LessIffPrecedes` | src/store.cpp:377-378 | the string comparison is alphabetical order: at the first difference the smaller character, or the end, comes first |
| `JsonValues.IntOfMeans` | src/store.cpp:348 | in range, integers convert to themselves, fractions are cut off and booleans count as 0 and 1 |
| `InboundSync.SyncedStore.ReconcileLabel` | src/store.cpp:401-404 | one pass folds the listed issues into their collection and counts those applied, unless an issue throws when its turn comes; then the pass ends there |
| `InboundSync.SyncedStore.Reconcile` | src/store.cpp:388-407 | goes through exactly if no issue throws; then the four collections after all passes and the number of edits applied, otherwise what was done before |
| `InboundSync.NewestWins` | src/store.cpp:374-385 | after any order and repetition of timestamped edits an entity is what its edit with the alphabetically last timestamp wrote, or unchanged if the stored timestamp is at least as late or not a string |
| `InboundSync.NewestWinsIff` | src/store.cpp:374-385 | unless the stored timestamp is at least as late, that edit wins if and only if the stored timestamp is absent or a string |
| `InboundSync.NumericStampBlocks` | src/store.cpp:374-385 | an entity stored with a number for a timestamp is not changed by any timestamped edit |
| `InboundSync.DeliveriesConverge` | src/store.cpp:374-385 | two deliveries of the same set of edits leave the same collection |
| `InboundSync.RunsThroughIff` | src/store.cpp:401-404 | a pass over timestamped issues throws exactly if an issue is mistyped or an edited entity's stored timestamp is not a string |
| `InboundSync.SecondPass` | src/store.cpp:401-404 | a second pass over the same issues of a label does not throw and applies no edit |
| `InboundSync.SecondReconcileAppliesNothing` | src/store.cpp:388-407 | if a reconciliation of timestamped listings went through, a second one goes through, counts no edit and leaves all four collections as they are |
| `IssueBody.ReadBack` | src/store.cpp:66-94 | reading an issue body back gives the text up to its first closing fence |
| `IssueBody.RecoveredIff` | src/store.cpp:66-94 | so it gives the whole text if and only if the text holds no closing fence |
| `IssueBody.FenceInTypeHidesText` | src/store.cpp:66-94 | an opening fence in the entity type makes what is read back independent of the entity |
| `IssueBody.BodyFormat` | src/store.cpp:66-73 | the text of an issue body |
| `IssueBody.TruncateTitle` | src/store.cpp:922-933 | the loop takes up to 80 sequences from the front of the title |
| `IssueBody.TruncatedIsPrefix` | src/store.cpp:922-933 | for any bytes the result is the front of the title |
| `IssueBody.TruncationKeepsCodePoints` | src/store.cpp:922-933 | a title in UTF-8 (section 3 of RFC 3629) is cut to the encoding of its first code points |
| `TaskJson.LayerText` | src/hmas_types.cpp:7-19 | the layer's name reads back as the layer |
| `TaskJson.StateText` | src/hmas_types.cpp:21-39 | the state's name reads back as the state |
| `TaskJson.RecordsRoundTrip` | src/hmas_types.cpp:60-65 | escalation records read back as written |
| `TaskJson.TaskFromJson` | src/hmas_types.cpp:147-177 | the reading loops compute the declarative reading of a task, failing on fields of the wrong type |
| `TaskJson.TaskRoundTrip` | src/hmas_types.cpp:67-90 | a task with a 32-bit issue number reads back as written |
| `TaskJson.TaskOnTheWire` | src/hmas_types.cpp:67-90 | the field names of the texts and numbers of a task |
| `TaskJson.TaskListsOnTheWire` | src/hmas_types.cpp:60-90 | the field names and elements of its lists and of escalation records |
| `TaskJson.AbsentFields` | src/hmas_types.cpp:114-177 | the defaults of absent fields |
| `TaskJson.ReadLists` | src/hmas_types.cpp:124-130 | collects the non-empty lists of an object, failing on an element that is not a string |
| `TaskJson.ReadNested` | src/hmas_types.cpp:132-142 | collects the non-empty objects of such lists |
| `TaskJson.BriefFromJson` | src/hmas_types.cpp:114-145 | the reading loops compute the declarative reading of a brief |
| `TaskJson.BriefRoundTrip` | src/hmas_types.cpp:92-145 | a brief reads back as written, without its empty lists |
| `RestoredPlans.RestoredBriefSamePlan` | src/planning_breakdown.cpp:80-120 | a brief without its empty lists has the same plans |
| `WorkStealing.VictimIsModular` | src/concurrency/work_stealing_scheduler.cpp:194-212 | victims are visited in order modulo the number of workers |
| `WorkStealing.InitialInv` | src/concurrency/work_stealing_scheduler.cpp:22-43 | a new scheduler satisfies the invariant |
| `WorkStealing.AcceptKeepsInv` | src/concurrency/work_stealing_scheduler.cpp:70-110 | a submission keeps it |
| `WorkStealing.WorkKeepsInv` | src/concurrency/work_stealing_scheduler.cpp:253-326 | every step of a worker keeps it |
| `WorkStealing.StepKeepsInv` | src/concurrency/work_stealing_scheduler.cpp:70-326 | every step keeps: submitted = queued + held + executed + dropped, item by item, and an exited worker's queue holds only items accepted after its exit |
| `WorkStealing.RunKeepsInv` | src/concurrency/work_stealing_scheduler.cpp:70-326 | so it holds in every state of every interleaving |
| `WorkStealing.LeftoversAccounted` | src/concurrency/work_stealing_scheduler.cpp:112-138 | when all workers have exited, what was not run or dropped was accepted after its queue's worker had exited |
| `WorkStealing.AcceptedInTimeRuns` | src/concurrency/work_stealing_scheduler.cpp:298-320 | every copy of a valid item accepted before that has run |
| `WorkStealing.InTimeRunsEverything` | src/concurrency/work_stealing_scheduler.cpp:112-138 | if no item is submitted to an exited worker, all queues end empty and every valid item ran exactly as often as submitted |
| `WorkStealing.StartKeepsInv` | src/concurrency/work_stealing_scheduler.cpp:51-68 | starting again on the old queues keeps the invariant |
| `WorkStealing.NothingRunsAfterExit` | src/concurrency/work_stealing_scheduler.cpp:51-138 | once all workers have exited nothing runs until the scheduler is started again |
| `WorkStealing.StartRunsLeftovers` | src/concurrency/work_stealing_scheduler.cpp:51-138 | whenever all workers have exited after a restart, every valid item submitted before it has run |
| `WorkStealing.ShutdownRunsEverything` | src/concurrency/work_stealing_scheduler.cpp:112-138 | in particular if nothing is submitted after the shutdown request |
| `WorkStealing.LateSubmissionCanBeLost` | src/concurrency/work_stealing_scheduler.cpp:80-94 | there is a run in which an item submitted after the request is left behind when all workers have exited |
| `WorkStealing.NeverStuck` | src/concurrency/work_stealing_scheduler.cpp:253-326 | a worker that has not exited has a step |
| `WorkStealing.LookAt` | src/concurrency/work_stealing_scheduler.cpp:194-213 | a look at a queue takes one of its items if it has any, and otherwise goes on to the next queue |
| `WorkStealing.WorkersMakeProgress` | src/concurrency/work_stealing_scheduler.cpp:215-285 | a worker at the top of its loop, not shut down and left alone, has run or dropped an item after two steps more than there are workers, if any queue holds one |
| `WorkStealing.EmptyHanded` | src/concurrency/work_stealing_scheduler.cpp:194-213 | a worker gets through a scan only if each queue was empty when it looked at it, whatever the others do |
| `WorkStealing.SubmissionLands` | src/concurrency/work_stealing_scheduler.cpp:70-110 | a submission adds one copy to the next queue round-robin, or to the named one; a named one out of range adds nothing |
| `WorkStealing.ShutdownTerminates` | src/concurrency/work_stealing_scheduler.cpp:112-138 | after the request the workers take a bounded number of steps |
| `PeerRace.StepKeepsInv` | src/peer_discovery.cpp:231-262 | every worker step keeps claims exclusive, claimed indices covered, and the winner unique |
| `PeerRace.RunKeepsInv` | src/peer_discovery.cpp:213-266 | so they hold in every interleaving; there are as many workers as configured, but at least 1 and at most 32 and no more than peers |
| `PeerRace.ProbedOnceWrittenOnce` | src/peer_discovery.cpp:231-262 | no peer is probed twice and the winner is stored at most once |
| `PeerRace.OutcomeAnswered` | src/peer_discovery.cpp:245-283 | the result is empty or nats://, the address of a matched peer that answered, and the port |
| `PeerRace.EmptyIffUnanswered` | src/peer_discovery.cpp:231-283 | in every joined run the result is empty if and only if no probe was answered |
| `PeerRace.NothingFoundIff` | src/peer_discovery.cpp:231-283 | joined without a zero budget, the result is empty if and only if every matched peer was probed and none answered |
| `PeerRace.AnsweringPeerFound` | src/peer_discovery.cpp:231-283 | so one answering peer is enough |
| `PeerRace.FoundEndsSearch` | src/peer_discovery.cpp:231-262 | once a peer is found every worker makes at most one more probe |
| `PeerRace.ZeroBudgetStops` | src/peer_discovery.cpp:236-242 | a worker that sees a zero budget takes no further step |
| `PeerRace.RaceTerminates` | src/peer_discovery.cpp:231-279 | every run ends within 5 steps a peer and 2 a worker, and only when all workers are done |
| `RateLimiter.Limiter.EvictStale` | src/rate_limiter.cpp:16-25 | exactly the buckets seen within the eviction period stay |
| `RateLimiter.Limiter.Allow` | src/rate_limiter.cpp:27-50 | the answer and the new buckets and counter of a request |
| `RateLimiter.Limiter.RetryAfterSeconds` | src/rate_limiter.cpp:52-70 | the wait, or never for a zero rate |
| `RateLimiter.EvictionInvisible` | src/rate_limiter.cpp:10-50 | if 300 times the rate is at least the burst, all answers equal those of a limiter that never evicts |
| `RateLimiter.EvictionShows` | src/rate_limiter.cpp:16-50 | otherwise there is a run of requests with a different answer |
| `RateLimiter.EvictionInvisibleIff` | src/rate_limiter.cpp:10-50 | eviction is invisible in every run if and only if 300 times the rate is at least the burst |
| `RateLimiter.WindowBound` | src/rate_limiter.cpp:10-50 | then a client is granted at most burst + rate * (t - s) requests in any window [s, t] of any run |
| `RateLimiter.BurstAtOnce` | src/rate_limiter.cpp:27-50 | of n requests at one moment a new client is granted n, but no more than the burst rounded down |
| `RateLimiter.IdleForgotten` | src/rate_limiter.cpp:16-40 | within one hundred requests a client unseen for more than 300 seconds all that time is forgotten |
| `RateLimiter.RecentKept` | src/rate_limiter.cpp:16-40 | a client seen within 300 seconds is kept as it is, and any client until the hundredth request |
| `RateLimiter.WaitIsExact` | src/rate_limiter.cpp:52-70 | a request d seconds later is granted if and only if d is at least the announced wait |
| `DeadLetters.DeadLetterQueue.Push` | src/dead_letter_queue.cpp:13-23 | the queue holds the last min(capacity, n) of the n entries pushed since it was emptied, in order |
| `DeadLetters.NewestPush` | src/dead_letter_queue.cpp:13-23 | an entry goes to the end and pushes out the oldest one exactly if the queue is full |
| `DeadLetters.DeadLetterQueue.Drain` | src/dead_letter_queue.cpp:25-31 | returns them and empties the queue |
| `DeadLetters.DeadLetterQueue.Clear` | src/dead_letter_queue.cpp:33-36 | empties the queue |
| `Breakers.CircuitBreaker.AllowAttempt` | src/circuit_breaker.cpp:24-42 | admits if and only if the breaker is not open or the probe interval has passed, and then turns an open breaker half-open |
| `Breakers.CircuitBreaker.RecordSuccess` | src/circuit_breaker.cpp:44-51 | closes and resets the count |
| `Breakers.CircuitBreaker.RecordFailure` | src/circuit_breaker.cpp:53-65 | counts, and opens from half-open or at the threshold |
| `Publisher.NatsClient.Attempt` | src/nats_client.cpp:199-227 | the first acknowledgement, non-retryable error or third attempt decides, everything before it being a retryable error |
| `Publisher.NatsClient.Publish` | src/nats_client.cpp:190-231 | acknowledged, or dead-lettered once; which of the two, with how many attempts, and the breaker afterwards, in terms of its fields before, the time and the statuses; without a connection dropped |
| `Publisher.NatsClient.PublishLog` | src/nats_client.cpp:235-286 | the same, and dead-lettered also without a connection |
| `Publisher.PublishMeans` | src/nats_client.cpp:190-286 | the specification of a publish meets that contract |
| `Publisher.ProbeRecovers` | src/circuit_breaker.cpp:24-51 | with an open breaker, a publish an interval after opening whose first attempt is acknowledged is delivered and closes it with no failures |
| `Publisher.OutageProbes` | src/nats_client.cpp:190-286 | in an outage a publish is attempted if and only if it comes at least an interval after the last opening |
| `Publisher.AcknowledgedOrDead` | src/nats_client.cpp:190-286 | over any run, acknowledgements and dead letters add up to the publishes, each letter with 0 to 3 attempts |
| `Publisher.BreakerBetweenCalls` | src/circuit_breaker.cpp:24-65 | between calls the breaker is never half-open, and closed if and only if fewer than threshold failures followed the last success |
| `Publisher.ProbesAreSpaced` | src/circuit_breaker.cpp:24-65 | in an outage every publish that reaches the broker waits one more probe interval |
| `Publisher.OutageBound` | src/nats_client.cpp:190-286 | within t of opening, an unbroken outage leaves at most t / interval letters with an attempt |

## Left out

- HTTP routes, authentication, metrics, logging, configuration and the Python REST client: plumbing without state of its own.
- Webhook signatures, the command whitelist and the error sanitizer: filters over foreign cryptography and regular expressions.
- GitHub, NATS, socket and `tailscale` calls: their outcomes are parameters. JSON text is a datatype; that parsing undoes dumping, and that a dump escapes line breaks inside strings, belongs to the JSON library; the restart theorem assumes it of the tasks it is about.
- Overlapping orchestrator handlers, overlapping publishes and interleaved `advance_dag` calls: reads and writes of one handler are separate critical sections in the code, so nothing is claimed about them.
- Eventual dispatch of every task: it depends on workers repeating completion reports, so safety, the exact links and what keeps a task waiting are proved instead.
- Publications other than dispatches (task state, audit events, the notice to the parent layer on escalation) carry no state back into the orchestrator and are not counted as dispatches.
- Completion reports for ids that are not HMAS tasks mark plain tasks as completed; that collection is not part of the model.
- Items submitted to a scheduler before its first start; the model begins with the workers launched.
- Memory orders, condition variables, CPU affinity and coroutine handles of the scheduler; queues are multisets, so first-in-first-out order within a queue is not modelled.
- Agent mailboxes, lead agents and their coordination counters.
- The sleep between publish attempts and the 32-bit wrap-around of the failure count after 2^31 failures.
- A dead-letter queue of capacity 0: removing from the empty deque is undefined in the original, so capacity is positive.
- Conversion of a JSON number outside the range of int: doubles there are undefined in the original and wrap in the model.
- Doubles are reals: rounding of token counts is not modelled, and clock readings start at 0.
- InboundSync.DeliveriesConverge: does not cover closing, reopening and untimed events, which bypass the timestamp comparison.
- PeerRace.StepKeepsInv: hostname filtering and the condition-variable wait of the main thread are not steps; the workers' joined state is what is returned.
- TaskJson.BriefFromJson: objects are read in arbitrary key order, which does not affect the result.
