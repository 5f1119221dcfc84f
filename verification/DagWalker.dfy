/** The DAG walker: readiness, assignment of ready tasks to free agents, and progress. */
module DagWalker {
  import opened Common
  import opened DependencyGraph
  import CycleSearch

  class Task {
    const id: string
    const title: string
    const dependencies: seq<string>
    var status: string
    var assignedAgentId: Option<string>

    constructor (id: string, title: string, status: string, dependencies: seq<string>)
      ensures this.id == id && this.title == title && this.dependencies == dependencies
      ensures this.status == status && assignedAgentId == None
    {
      this.id, this.title, this.dependencies := id, title, dependencies;
      this.status, assignedAgentId := status, None;
    }
  }

  class Agent {
    const id: string
    var status: string
    var sessionStatus: string
    var currentTaskId: Option<string>

    constructor (id: string)
      ensures this.id == id && status == "active" && sessionStatus == "online" && currentTaskId == None
    {
      this.id, status, sessionStatus, currentTaskId := id, "active", "online", None;
    }

    predicate Available()
      reads this
    {
      status == "active" && sessionStatus == "online" && currentTaskId == None
    }
  }

  /** The value of a task at one moment. */
  datatype TaskRecord = TaskRecord(id: string, status: string, dependencies: seq<string>, agent: Option<string>)

  function Snapshot(t: Task): TaskRecord
    reads t
  {
    TaskRecord(t.id, t.status, t.dependencies, t.assignedAgentId)
  }

  function Snapshots(ts: seq<Task>): (rs: seq<TaskRecord>)
    reads ts
    ensures |rs| == |ts|
    ensures forall i :: 0 <= i < |ts| ==> rs[i] == Snapshot(ts[i])
  {
    if ts == [] then [] else Snapshots(ts[..|ts| - 1]) + [Snapshot(ts[|ts| - 1])]
  }

  // ---------------------------------------------------------------- readiness

  predicate Terminal(status: string) {
    status == "completed" || status == "failed" || status == "error" || status == "cancelled"
  }

  ghost predicate FinishedId(rs: seq<TaskRecord>, id: string) {
    exists k :: 0 <= k < |rs| && rs[k].id == id && Terminal(rs[k].status)
  }

  function CompletedIds(rs: seq<TaskRecord>): (ids: set<string>)
    ensures forall id :: id in ids <==> FinishedId(rs, id)
  {
    set k | 0 <= k < |rs| && Terminal(rs[k].status) :: rs[k].id
  }

  predicate IsReady(r: TaskRecord, completed: set<string>) {
    && r.status == "pending"
    && r.agent == None
    && forall k :: 0 <= k < |r.dependencies| ==> r.dependencies[k] in completed
  }

  /** Positions below n of ready tasks, in list order. */
  function ReadyIndices(rs: seq<TaskRecord>, n: nat): (ix: seq<nat>)
    requires n <= |rs|
    ensures |ix| <= n
    ensures forall k :: 0 <= k < |ix| ==> ix[k] < n && IsReady(rs[ix[k]], CompletedIds(rs))
    ensures forall k, l :: 0 <= k < l < |ix| ==> ix[k] < ix[l]
    ensures forall i :: 0 <= i < n && IsReady(rs[i], CompletedIds(rs)) ==> i in ix
  {
    if n == 0 then []
    else ReadyIndices(rs, n - 1) + if IsReady(rs[n - 1], CompletedIds(rs)) then [n - 1] else []
  }

  /** How many tasks before position i are ready. */
  function Rank(rs: seq<TaskRecord>, i: nat): nat
    requires i <= |rs|
  {
    |ReadyIndices(rs, i)|
  }

  /** Ready tasks take agents in list order; nothing else changes. */
  function Assigned(rs: seq<TaskRecord>, agentIds: seq<string>): (out: seq<TaskRecord>)
    ensures |out| == |rs|
  {
    seq(|rs|, i requires 0 <= i < |rs| =>
      if IsReady(rs[i], CompletedIds(rs)) && Rank(rs, i) < |agentIds|
      then rs[i].(agent := Some(agentIds[Rank(rs, i)]))
      else rs[i])
  }

  lemma {:induction false} ReadyPrefix(rs: seq<TaskRecord>, m: nat, n: nat)
    requires m <= n <= |rs|
    ensures ReadyIndices(rs, m) <= ReadyIndices(rs, n)
  {
    if m < n {
      ReadyPrefix(rs, m, n - 1);
    }
  }

  /** The k-th ready position has rank k. */
  lemma RankOfReady(rs: seq<TaskRecord>, k: nat)
    requires k < |ReadyIndices(rs, |rs|)|
    ensures ReadyIndices(rs, |rs|)[k] < |rs| && Rank(rs, ReadyIndices(rs, |rs|)[k]) == k
  {
    var all := ReadyIndices(rs, |rs|);
    var i := all[k];
    ReadyPrefix(rs, i, |rs|);
    ReadyPrefix(rs, i + 1, |rs|);
    var below := ReadyIndices(rs, i);
    assert ReadyIndices(rs, i + 1) == below + [i];
    assert all[|below|] == i;
  }

  lemma ReadyHasIndex(rs: seq<TaskRecord>, i: nat)
    requires i < |rs| && IsReady(rs[i], CompletedIds(rs))
    ensures Rank(rs, i) < |ReadyIndices(rs, |rs|)| && ReadyIndices(rs, |rs|)[Rank(rs, i)] == i
  {
    var all := ReadyIndices(rs, |rs|);
    var k :| 0 <= k < |all| && all[k] == i;
    RankOfReady(rs, k);
  }

  // --------------------------------------------------------- the task graph

  /** Later tasks with the same id replace earlier ones, as in the dictionary of the source. */
  function Adjacency(rs: seq<TaskRecord>): (g: Graph)
    ensures forall id :: id in g <==> exists k :: 0 <= k < |rs| && rs[k].id == id
    ensures forall id :: id in g ==> exists k :: 0 <= k < |rs| && rs[k].id == id && g[id] == rs[k].dependencies
  {
    if rs == [] then map[]
    else
      var last := rs[|rs| - 1];
      var g := Adjacency(rs[..|rs| - 1])[last.id := last.dependencies];
      assert forall k :: 0 <= k < |rs| - 1 ==> rs[..|rs| - 1][k] == rs[k];
      g
  }

  ghost predicate KnownDependency(rs: seq<TaskRecord>, d: string) {
    exists k :: 0 <= k < |rs| && rs[k].id == d
  }

  ghost predicate AllKnown(rs: seq<TaskRecord>) {
    forall i, c :: 0 <= i < |rs| && 0 <= c < |rs[i].dependencies| ==> KnownDependency(rs, rs[i].dependencies[c])
  }

  datatype WalkError =
    | UnknownDependency(dependency: string, task: string)
    | CycleDetected(cycle: seq<string>)

  /** The first task, in list order, with an unknown dependency, and its first such dependency. */
  ghost predicate FirstUnknown(rs: seq<TaskRecord>, dependency: string, task: string) {
    exists i, c :: 0 <= i < |rs| && 0 <= c < |rs[i].dependencies| && rs[i].id == task
      && rs[i].dependencies[c] == dependency && !KnownDependency(rs, dependency)
      && (forall c' :: 0 <= c' < c ==> KnownDependency(rs, rs[i].dependencies[c']))
      && (forall i', c' :: 0 <= i' < i && 0 <= c' < |rs[i'].dependencies| ==>
            KnownDependency(rs, rs[i'].dependencies[c']))
  }

  /**
   The result of the cycle search: an unknown dependency is reported first; otherwise the list
   is empty exactly when the dependency graph is acyclic, and is a simple cycle if not.
   */
  method FindCyclePath(rs: seq<TaskRecord>) returns (r: Result<seq<string>, WalkError>)
    ensures r.Err? <==> !AllKnown(rs)
    ensures r.Err? ==> r.error.UnknownDependency? && FirstUnknown(rs, r.error.dependency, r.error.task)
    ensures r.Ok? ==> (r.value == [] <==> Acyclic(Adjacency(rs)))
    ensures r.Ok? && r.value != [] ==> IsSimpleCycle(Adjacency(rs), r.value)
  {
    hide Acyclic, IsSimpleCycle;
    var taskIds := set k | 0 <= k < |rs| :: rs[k].id;
    var i := 0;
    while i < |rs|
      invariant 0 <= i <= |rs|
      invariant forall i', c :: 0 <= i' < i && 0 <= c < |rs[i'].dependencies| ==>
        KnownDependency(rs, rs[i'].dependencies[c])
    {
      var c := 0;
      while c < |rs[i].dependencies|
        invariant 0 <= c <= |rs[i].dependencies|
        invariant forall c' :: 0 <= c' < c ==> KnownDependency(rs, rs[i].dependencies[c'])
      {
        if rs[i].dependencies[c] !in taskIds {
          assert !KnownDependency(rs, rs[i].dependencies[c]);
          return Err(UnknownDependency(rs[i].dependencies[c], rs[i].id));
        }
        c := c + 1;
      }
      i := i + 1;
    }
    var g := Adjacency(rs);
    KnownMeansClosed(rs);
    var cycle := CycleSearch.FindCycle(g);
    r := Ok(cycle);
  }

  lemma KnownMeansClosed(rs: seq<TaskRecord>)
    requires AllKnown(rs)
    ensures Closed(Adjacency(rs))
  {
    var g := Adjacency(rs);
    forall n, c | n in g && 0 <= c < |g[n]| ensures g[n][c] in g {
      var k :| 0 <= k < |rs| && rs[k].id == n && g[n] == rs[k].dependencies;
      assert KnownDependency(rs, rs[k].dependencies[c]);
    }
  }

  // ----------------------------------------------------------- assignment

  /** Positions below n of available agents, in list order. */
  function AvailableIndices(agents: seq<Agent>, n: nat): (ix: seq<nat>)
    requires n <= |agents|
    reads agents
    ensures forall k :: 0 <= k < |ix| ==> ix[k] < n && agents[ix[k]].Available()
    ensures forall k, l :: 0 <= k < l < |ix| ==> ix[k] < ix[l]
    ensures forall i :: 0 <= i < n && agents[i].Available() ==> i in ix
  {
    if n == 0 then []
    else AvailableIndices(agents, n - 1) + if agents[n - 1].Available() then [n - 1] else []
  }

  /** The available agents, each as often as it is listed, in list order. */
  function AvailableAgents(agents: seq<Agent>): (out: seq<Agent>)
    reads agents
    ensures
      var ix := AvailableIndices(agents, |agents|);
      |out| == |ix| && forall k :: 0 <= k < |out| ==> out[k] == agents[ix[k]]
  {
    var ix := AvailableIndices(agents, |agents|);
    seq(|ix|, k requires 0 <= k < |ix| => agents[ix[k]])
  }

  ghost predicate DistinctAgents(agents: seq<Agent>) {
    forall i, j :: 0 <= i < j < |agents| ==> agents[i] != agents[j]
  }

  ghost predicate DistinctTasks(tasks: seq<Task>) {
    forall i, j :: 0 <= i < j < |tasks| ==> tasks[i] != tasks[j]
  }

  lemma AvailableDistinct(agents: seq<Agent>)
    requires DistinctAgents(agents)
    ensures DistinctAgents(AvailableAgents(agents))
    ensures forall k :: 0 <= k < |AvailableAgents(agents)| ==> AvailableAgents(agents)[k] in agents
  {
    hide AvailableIndices;
    var ix, out := AvailableIndices(agents, |agents|), AvailableAgents(agents);
    forall i, j | 0 <= i < j < |out| ensures out[i] != out[j] {
      assert ix[i] < ix[j];
    }
  }

  function AgentIds(agents: seq<Agent>): (ids: seq<string>)
    ensures |ids| == |agents| && forall i :: 0 <= i < |agents| ==> ids[i] == agents[i].id
  {
    seq(|agents|, i requires 0 <= i < |agents| => agents[i].id)
  }

  /** The assignment loop: pairs ready tasks with free agents until either runs out. */
  method AssignPairs(ready: seq<Task>, free: seq<Agent>) returns (pairs: seq<(Task, Agent)>)
    requires DistinctTasks(ready) && DistinctAgents(free)
    modifies ready`assignedAgentId, free`currentTaskId
    ensures |pairs| == Min(|ready|, |free|)
    ensures forall k :: 0 <= k < |pairs| ==> pairs[k] == (ready[k], free[k])
    ensures forall k :: 0 <= k < |pairs| ==> ready[k].assignedAgentId == Some(free[k].id)
    ensures forall k :: 0 <= k < |pairs| ==> free[k].currentTaskId == Some(ready[k].id)
    ensures forall k :: |pairs| <= k < |ready| ==> ready[k].assignedAgentId == old(ready[k].assignedAgentId)
    ensures forall k :: |pairs| <= k < |free| ==> free[k].currentTaskId == old(free[k].currentTaskId)
  {
    pairs := [];
    var k := 0;
    while k < |ready| && k < |free|
      invariant 0 <= k <= |ready| && k <= |free|
      invariant |pairs| == k && forall j :: 0 <= j < k ==> pairs[j] == (ready[j], free[j])
      invariant forall j :: 0 <= j < k ==> ready[j].assignedAgentId == Some(free[j].id)
      invariant forall j :: 0 <= j < k ==> free[j].currentTaskId == Some(ready[j].id)
      invariant forall j :: k <= j < |ready| ==> ready[j].assignedAgentId == old(ready[j].assignedAgentId)
      invariant forall j :: k <= j < |free| ==> free[j].currentTaskId == old(free[j].currentTaskId)
    {
      var task, agent := ready[k], free[k];
      agent.currentTaskId := Some(task.id);
      task.assignedAgentId := Some(agent.id);
      pairs := pairs + [(task, agent)];
      k := k + 1;
    }
  }

  lemma PairsDistinct(ready: seq<Task>, free: seq<Agent>, pairs: seq<(Task, Agent)>)
    requires DistinctTasks(ready) && DistinctAgents(free) && |pairs| <= |ready| && |pairs| <= |free|
    requires forall k :: 0 <= k < |pairs| ==> pairs[k] == (ready[k], free[k])
    ensures forall i, j :: 0 <= i < j < |pairs| ==> pairs[i].0 != pairs[j].0 && pairs[i].1 != pairs[j].1
  {
  }

  /** The tasks at some increasing positions. */
  function At(tasks: seq<Task>, positions: seq<nat>): (out: seq<Task>)
    requires forall k :: 0 <= k < |positions| ==> positions[k] < |tasks|
    ensures |out| == |positions| && forall k :: 0 <= k < |out| ==> out[k] == tasks[positions[k]]
  {
    seq(|positions|, k requires 0 <= k < |positions| => tasks[positions[k]])
  }

  lemma AtDistinct(tasks: seq<Task>, positions: seq<nat>)
    requires DistinctTasks(tasks)
    requires forall k :: 0 <= k < |positions| ==> positions[k] < |tasks|
    requires forall k, l :: 0 <= k < l < |positions| ==> positions[k] < positions[l]
    ensures DistinctTasks(At(tasks, positions))
    ensures forall i :: 0 <= i < |tasks| && tasks[i] in At(tasks, positions) ==> i in positions
  {
  }

  /**
   The pairs of one round: the k-th ready task with the k-th free agent, as far as both last,
   no task and no agent twice.
   */
  ghost predicate Pairing(before: seq<TaskRecord>, tasks: seq<Task>, free: seq<Agent>, pairs: seq<(Task, Agent)>) {
    var ready := ReadyIndices(before, |before|);
    && |tasks| == |before|
    && |pairs| == Min(|ready|, |free|)
    && (forall k :: 0 <= k < |pairs| ==> pairs[k] == (tasks[ready[k]], free[k]))
    && (forall i, j :: 0 <= i < j < |pairs| ==> pairs[i].0 != pairs[j].0 && pairs[i].1 != pairs[j].1)
  }

  // ------------------------------------------------- what a round must look like

  /** Pending, unassigned, and every dependency names a task that has ended. */
  ghost predicate MayStart(tasks: seq<Task>, i: int)
    requires 0 <= i < |tasks|
    reads tasks
  {
    && tasks[i].status == "pending"
    && tasks[i].assignedAgentId == None
    && forall d :: d in tasks[i].dependencies ==>
         exists j :: 0 <= j < |tasks| && HasEnded(tasks[j], d)
  }

  ghost predicate HasEnded(t: Task, id: string)
    reads t
  {
    t.id == id && (t.status == "completed" || t.status == "failed" || t.status == "error" || t.status == "cancelled")
  }

  ghost predicate MayWork(a: Agent)
    reads a
  {
    a.status == "active" && a.sessionStatus == "online" && a.currentTaskId == None
  }

  /** Positions of the tasks that may start, for a state captured beforehand. */
  ghost function Startable(tasks: seq<Task>): set<int>
    reads tasks
  {
    set i | 0 <= i < |tasks| && MayStart(tasks, i)
  }

  ghost function Workable(agents: seq<Agent>): set<Agent>
    reads agents
  {
    set a | a in agents && MayWork(a)
  }

  ghost predicate Paired(pairs: seq<(Task, Agent)>, t: Task) {
    exists k :: 0 <= k < |pairs| && pairs[k].0 == t
  }

  ghost predicate Busy(pairs: seq<(Task, Agent)>, a: Agent) {
    exists k :: 0 <= k < |pairs| && pairs[k].1 == a
  }

  lemma StartableIsReady(tasks: seq<Task>, i: nat)
    requires i < |tasks|
    ensures MayStart(tasks, i) <==> IsReady(Snapshots(tasks)[i], CompletedIds(Snapshots(tasks)))
  {
    hide CompletedIds, Snapshots;
    var rs := Snapshots(tasks);
    var t := tasks[i];
    assert rs[i] == Snapshot(t);
    forall d ensures d in CompletedIds(rs) <==> exists j :: 0 <= j < |tasks| && HasEnded(tasks[j], d) {
      FinishedMeans(tasks, d);
    }
    hide HasEnded, FinishedId;
    if IsReady(rs[i], CompletedIds(rs)) {
      forall d | d in t.dependencies ensures exists j :: 0 <= j < |tasks| && HasEnded(tasks[j], d) {
        var k :| 0 <= k < |t.dependencies| && t.dependencies[k] == d;
        assert rs[i].dependencies[k] in CompletedIds(rs);
      }
    }
    if MayStart(tasks, i) {
      forall k | 0 <= k < |rs[i].dependencies| ensures rs[i].dependencies[k] in CompletedIds(rs) {
        assert t.dependencies[k] in t.dependencies;
      }
    }
  }

  lemma FinishedMeans(tasks: seq<Task>, d: string)
    ensures FinishedId(Snapshots(tasks), d) <==> exists j :: 0 <= j < |tasks| && HasEnded(tasks[j], d)
  {
    hide Snapshots;
    var rs := Snapshots(tasks);
    assert forall j :: 0 <= j < |tasks| ==> rs[j] == Snapshot(tasks[j]);
    if j :| 0 <= j < |tasks| && HasEnded(tasks[j], d) {
      assert rs[j].id == d && Terminal(rs[j].status);
    }
    if FinishedId(rs, d) {
      var k :| 0 <= k < |rs| && rs[k].id == d && Terminal(rs[k].status);
      assert HasEnded(tasks[k], d);
    }
  }

  lemma AllStartable(tasks: seq<Task>)
    ensures
      var rs := Snapshots(tasks);
      forall i :: i in Startable(tasks) <==> 0 <= i < |tasks| && IsReady(rs[i], CompletedIds(rs))
  {
    hide IsReady, CompletedIds, Snapshots, MayStart;
    forall i | 0 <= i < |tasks| ensures MayStart(tasks, i) <==> IsReady(Snapshots(tasks)[i], CompletedIds(Snapshots(tasks))) {
      StartableIsReady(tasks, i);
    }
  }

  lemma AvailableIsWorkable(agents: seq<Agent>)
    ensures forall k :: 0 <= k < |AvailableAgents(agents)| ==> AvailableAgents(agents)[k] in Workable(agents)
    ensures forall a :: a in Workable(agents) ==>
      exists k :: 0 <= k < |AvailableAgents(agents)| && AvailableAgents(agents)[k] == a
  {
    hide AvailableIndices;
    var ix, out := AvailableIndices(agents, |agents|), AvailableAgents(agents);
    forall a | a in Workable(agents) ensures exists k :: 0 <= k < |out| && out[k] == a {
      var i :| 0 <= i < |agents| && agents[i] == a;
      assert i in ix;
      var k :| 0 <= k < |ix| && ix[k] == i;
      assert out[k] == a;
    }
  }

  /** Only startable tasks are assigned, and earlier ones before later ones. */
  ghost predicate FairRound(tasks: seq<Task>, pairs: seq<(Task, Agent)>, start: set<int>) {
    && (forall i :: i in start ==> 0 <= i < |tasks|)
    && (forall k :: 0 <= k < |pairs| ==> exists i :: i in start && pairs[k].0 == tasks[i])
    && forall i, j :: i in start && j in start && Paired(pairs, tasks[j]) && !Paired(pairs, tasks[i]) ==> j < i
  }

  /** Startable tasks only, in list order, to agents that may work; none is passed over while one of those is idle. */
  ghost predicate RoundContract(tasks: seq<Task>, pairs: seq<(Task, Agent)>, start: set<int>, work: set<Agent>) {
    && FairRound(tasks, pairs, start)
    && (forall k :: 0 <= k < |pairs| ==> pairs[k].1 in work)
    && (forall k, l :: 0 <= k < l < |pairs| ==> pairs[k].0 != pairs[l].0 && pairs[k].1 != pairs[l].1)
    && forall i, a :: i in start && a in work && 0 <= i < |tasks| ==> Paired(pairs, tasks[i]) || Busy(pairs, a)
  }

  /** The agents a round works with: the fetched ones if there are any. */
  function Offered(fetched: Option<seq<Agent>>, cached: seq<Agent>): seq<Agent> {
    if fetched.Some? then fetched.value else cached
  }

  /** Pairing the startable positions in order is fair. */
  lemma InOrderIsFair(tasks: seq<Task>, ready: seq<nat>, pairs: seq<(Task, Agent)>, start: set<int>)
    requires DistinctTasks(tasks) && |pairs| <= |ready|
    requires forall i :: i in start ==> 0 <= i < |tasks| && i in ready
    requires forall k :: 0 <= k < |ready| ==> ready[k] in start
    requires forall k, l :: 0 <= k < l < |ready| ==> ready[k] < ready[l]
    requires forall k :: 0 <= k < |pairs| ==> pairs[k].0 == tasks[ready[k]]
    ensures FairRound(tasks, pairs, start)
    ensures forall i :: i in start && |pairs| == |ready| ==> Paired(pairs, tasks[i])
  {
    forall i | i in start ensures Paired(pairs, tasks[i]) || exists k :: |pairs| <= k < |ready| && ready[k] == i {
      var k :| 0 <= k < |ready| && ready[k] == i;
      if k < |pairs| {
        assert pairs[k].0 == tasks[i];
      }
    }
    forall k | 0 <= k < |pairs| ensures exists i :: i in start && pairs[k].0 == tasks[i] {
      assert ready[k] in start && pairs[k].0 == tasks[ready[k]];
    }
    forall i, j | i in start && j in start && Paired(pairs, tasks[j]) && !Paired(pairs, tasks[i]) ensures j < i {
      var k :| |pairs| <= k < |ready| && ready[k] == i;
      var l :| 0 <= l < |pairs| && pairs[l].0 == tasks[j];
      SamePosition(tasks, ready[l], j);
    }
  }

  lemma SamePosition(tasks: seq<Task>, i: nat, j: nat)
    requires DistinctTasks(tasks) && i < |tasks| && j < |tasks| && tasks[i] == tasks[j]
    ensures i == j
  {
  }

  lemma RoundIsFair(before: seq<TaskRecord>, tasks: seq<Task>, free: seq<Agent>, pairs: seq<(Task, Agent)>,
                    start: set<int>, work: set<Agent>)
    requires Pairing(before, tasks, free, pairs) && DistinctTasks(tasks)
    requires forall i :: i in start <==> 0 <= i < |tasks| && IsReady(before[i], CompletedIds(before))
    requires forall k :: 0 <= k < |free| ==> free[k] in work
    requires forall a :: a in work ==> exists k :: 0 <= k < |free| && free[k] == a
    ensures RoundContract(tasks, pairs, start, work)
  {
    hide IsReady, CompletedIds, ReadyIndices, DistinctTasks, FairRound;
    var ready := ReadyIndices(before, |before|);
    InOrderIsFair(tasks, ready, pairs, start);
    forall i, a | i in start && a in work ensures Paired(pairs, tasks[i]) || Busy(pairs, a) {
      var k :| 0 <= k < |free| && free[k] == a;
      if k < |pairs| {
        assert pairs[k].1 == a;
      }
    }
  }

  class Walker {
    var tasks: seq<Task>
    var agents: seq<Agent>

    constructor (tasks: seq<Task>, agents: seq<Agent>)
      ensures this.tasks == tasks && this.agents == agents
    {
      this.tasks, this.agents := tasks, agents;
    }

    /** The assignment half of a round, on the agents at hand. */
    method AssignReady() returns (pairs: seq<(Task, Agent)>)
      requires DistinctTasks(tasks) && DistinctAgents(agents)
      modifies tasks`assignedAgentId, agents`currentTaskId
      ensures Pairing(old(Snapshots(tasks)), tasks, old(AvailableAgents(agents)), pairs)
      ensures Snapshots(tasks) == Assigned(old(Snapshots(tasks)), AgentIds(old(AvailableAgents(agents))))
      ensures forall k :: 0 <= k < |pairs| ==> pairs[k].1.currentTaskId == Some(pairs[k].0.id)
      ensures forall a :: a in agents && (forall k :: 0 <= k < |pairs| ==> pairs[k].1 != a) ==>
        a.currentTaskId == old(a.currentTaskId)
      ensures RoundContract(tasks, pairs, old(Startable(tasks)), old(Workable(agents)))
      ensures forall k :: 0 <= k < |pairs| ==> pairs[k].0.assignedAgentId == Some(pairs[k].1.id)
      ensures forall i :: 0 <= i < |tasks| && !Paired(pairs, tasks[i]) ==>
        tasks[i].assignedAgentId == old(tasks[i].assignedAgentId)
    {
      hide IsReady, CompletedIds, ReadyIndices, Rank, Assigned, Snapshots, AvailableAgents, AvailableIndices, DistinctAgents, DistinctTasks,
        Startable, Workable, RoundContract;
      var free := AvailableAgents(agents);
      AvailableDistinct(agents);
      AvailableIsWorkable(agents);
      AllStartable(tasks);
      ghost var start, work := Startable(tasks), Workable(agents);
      ghost var before := Snapshots(tasks);
      assert forall i :: 0 <= i < |free| ==> free[i] in agents;
      pairs := AssignTo(free);
      RoundIsFair(before, tasks, free, pairs, start, work);
      forall a | a in agents && (forall k :: 0 <= k < |pairs| ==> pairs[k].1 != a)
        ensures a.currentTaskId == old(a.currentTaskId)
      {
        if j :| 0 <= j < |free| && free[j] == a {
          assert j >= |pairs|;
        }
      }
    }

    method AssignTo(free: seq<Agent>) returns (pairs: seq<(Task, Agent)>)
      requires DistinctTasks(tasks) && DistinctAgents(free)
      modifies tasks`assignedAgentId, free`currentTaskId
      ensures Pairing(old(Snapshots(tasks)), tasks, free, pairs)
      ensures Snapshots(tasks) == Assigned(old(Snapshots(tasks)), AgentIds(free))
      ensures forall k :: 0 <= k < |pairs| ==> pairs[k].1.currentTaskId == Some(pairs[k].0.id)
      ensures forall k :: |pairs| <= k < |free| ==> free[k].currentTaskId == old(free[k].currentTaskId)
      ensures forall k :: 0 <= k < |pairs| ==> pairs[k].0.assignedAgentId == Some(pairs[k].1.id)
      ensures forall i :: 0 <= i < |tasks| && !Paired(pairs, tasks[i]) ==>
        tasks[i].assignedAgentId == old(tasks[i].assignedAgentId)
    {
      hide IsReady, CompletedIds, ReadyIndices, Rank, Assigned, Snapshots, DistinctAgents, DistinctTasks;
      ghost var before := Snapshots(tasks);
      var positions := ReadyIndices(Snapshots(tasks), |tasks|);
      var ready := At(tasks, positions);
      AtDistinct(tasks, positions);
      pairs := AssignPairs(ready, free);
      ghost var after := Snapshots(tasks);
      forall i | 0 <= i < |before| && i !in positions[..|pairs|] ensures after[i] == before[i] {
        if k :| 0 <= k < |positions| && positions[k] == i {
          assert k >= |pairs| && ready[k] == tasks[i];
        }
      }
      forall j | 0 <= j < |pairs| ensures after[positions[j]] == before[positions[j]].(agent := Some(AgentIds(free)[j])) {
        assert ready[j] == tasks[positions[j]];
      }
      AssignmentMatches(before, positions, AgentIds(free), |pairs|, after);
      PairsDistinct(ready, free, pairs);
    }

    /**
     One round of assignment.  `fetched` is what the client's agent listing returned, None when
     there is no client, the call failed or it returned nothing.  The first min(ready, available)
     ready tasks go to the first available agents, pairwise; nothing else changes.
     */
    method AdvanceDag(fetched: Option<seq<Agent>>)
      returns (r: Result<seq<(Task, Agent)>, WalkError>)
      requires DistinctTasks(tasks) && DistinctAgents(agents)
      requires fetched.Some? ==> DistinctAgents(fetched.value)
      modifies this`agents
      modifies tasks`assignedAgentId, (set a | a in agents || (fetched.Some? && a in fetched.value))`currentTaskId
      ensures r.Ok? <==> old(AllKnown(Snapshots(tasks)) && Acyclic(Adjacency(Snapshots(tasks))))
      ensures r.Err? && r.error.UnknownDependency? ==> old(FirstUnknown(Snapshots(tasks), r.error.dependency, r.error.task))
      ensures r.Err? && r.error.CycleDetected? ==> old(IsSimpleCycle(Adjacency(Snapshots(tasks)), r.error.cycle))
      ensures r.Err? ==> agents == old(agents) && Snapshots(tasks) == old(Snapshots(tasks))
      ensures r.Err? ==> forall a :: a in agents ==> a.currentTaskId == old(a.currentTaskId)
      ensures r.Ok? ==> agents == if fetched.Some? then fetched.value else old(agents)
      ensures r.Ok? ==> Pairing(old(Snapshots(tasks)), tasks, old(AvailableAgents(Offered(fetched, agents))), r.value)
      ensures r.Ok? ==>
        Snapshots(tasks) == Assigned(old(Snapshots(tasks)),
                                     AgentIds(old(AvailableAgents(Offered(fetched, agents)))))
      ensures r.Ok? ==> forall k :: 0 <= k < |r.value| ==> r.value[k].1.currentTaskId == Some(r.value[k].0.id)
      ensures r.Ok? ==> forall a :: a in agents && (forall k :: 0 <= k < |r.value| ==> r.value[k].1 != a) ==>
        a.currentTaskId == old(a.currentTaskId)
      ensures r.Ok? ==>
        RoundContract(tasks, r.value, old(Startable(tasks)), old(Workable(Offered(fetched, agents))))
      ensures r.Ok? ==> forall k :: 0 <= k < |r.value| ==> r.value[k].0.assignedAgentId == Some(r.value[k].1.id)
      ensures r.Ok? ==> forall i :: 0 <= i < |tasks| && !Paired(r.value, tasks[i]) ==>
        tasks[i].assignedAgentId == old(tasks[i].assignedAgentId)
    {
      hide Assigned, Acyclic, AllKnown, Snapshots, AvailableAgents, Adjacency, Pairing, Startable, Workable, RoundContract;
      hide DistinctAgents, DistinctTasks, FirstUnknown, IsSimpleCycle;
      var path := FindCyclePath(Snapshots(tasks));
      if path.Err? {
        return Err(path.error);
      }
      if path.value != [] {
        return Err(CycleDetected(path.value));
      }
      if fetched.Some? {
        agents := fetched.value;
      }
      var pairs := AssignReady();
      r := Ok(pairs);
    }
  }

  lemma AssignmentMatches(before: seq<TaskRecord>, ready: seq<nat>, ids: seq<string>, n: nat, after: seq<TaskRecord>)
    requires ready == ReadyIndices(before, |before|) && n == Min(|ready|, |ids|)
    requires |after| == |before|
    requires forall j :: 0 <= j < n ==> after[ready[j]] == before[ready[j]].(agent := Some(ids[j]))
    requires forall i :: 0 <= i < |before| && i !in ready[..n] ==> after[i] == before[i]
    ensures after == Assigned(before, ids)
  {
    hide IsReady, CompletedIds, ReadyIndices, Rank;
    forall i | 0 <= i < |before| ensures after[i] == Assigned(before, ids)[i] {
      if IsReady(before[i], CompletedIds(before)) {
        ReadyHasIndex(before, i);
        forall j | 0 <= j < n && ready[j] == i ensures j == Rank(before, i) {
          RankOfReady(before, j);
        }
      }
    }
  }
}
