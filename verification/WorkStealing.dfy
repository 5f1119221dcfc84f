/**
 The work-stealing scheduler as a transition system: one bag of work items per worker, and per
 worker a program counter that follows workerLoop, tryStealWithBackoff and tryStealOnce.
 A dequeue fails only on an empty bag.  Steps of different workers and submissions interleave freely.
 */
module WorkStealing {
  import opened Common

  const MAX_WORKER_THREADS := 256
  const YIELD_ITERATIONS := 1000
  const SIZE_T_RANGE := 0x1_0000_0000_0000_0000

  /** A function or coroutine; a null one is not valid and is never executed. */
  datatype Item = Item(name: string, valid: bool)

  datatype Pc =
    | LoopTop                                  // about to test the shutdown flag
    | Scan(offset: nat, iterations: nat)       // in tryStealOnce, about to look at the queue `offset` away
    | Holding(item: Item, draining: bool)      // took an item, about to execute or drop it
    | Draining                                 // after the main loop, about to pop the own queue
    | Exited

  datatype State = State(
    queues: seq<multiset<Item>>,
    workers: seq<Pc>,
    next: nat,
    shutdown: bool,
    submitted: multiset<Item>,        // every item accepted into a queue
    late: seq<multiset<Item>>,        // per queue, the items accepted since its worker exited
    executed: multiset<Item>,
    dropped: multiset<Item>)

  datatype Step =
    | Submit(item: Item)
    | SubmitTo(index: nat, item: Item)
    | RequestShutdown
    | Start                           // start() again, once shutdown() has joined all workers
    | Work(worker: nat, taken: Item)  // `taken` is the item a dequeue in this step returns

  /** The constructor: at least one worker, at most MAX_WORKER_THREADS. */
  function Initial(requested: nat): Option<State> {
    if requested > MAX_WORKER_THREADS then None
    else
      var n := if requested == 0 then 1 else requested;
      Some(State(seq(n, _ => multiset{}), seq(n, _ => LoopTop), 0, false,
                 multiset{}, seq(n, _ => multiset{}), multiset{}, multiset{}))
  }

  predicate Shaped(s: State) {
    && 0 < |s.workers| == |s.queues| == |s.late|
    && forall w :: 0 <= w < |s.workers| && s.workers[w].Scan? ==> s.workers[w].offset <= |s.workers|
  }

  // ------------------------------------------------------------------ steps

  /** Round-robin neighbour: every queue is met exactly once as k runs over 0..n. */
  function Victim(w: nat, k: nat, n: nat): (v: nat)
    requires w < n && k < n
    ensures v < n
  {
    if w + k < n then w + k else w + k - n
  }

  /** The victim order of the source is addition modulo the number of workers. */
  lemma VictimIsModular(w: nat, k: nat, n: nat)
    requires w < n && k < n
    ensures Victim(w, k, n) == (w + k) % n
  {
    if w + k >= n {
      assert w + k == n + (w + k - n);
      ModuloOnce(w + k - n, n);
    }
  }

  lemma ModuloOnce(r: nat, n: nat)
    requires r < n
    ensures (n + r) % n == r
  {
    assert n + r == 1 * n + r;
  }

  function Accept(s: State, index: nat, item: Item): State
    requires Shaped(s) && index < |s.queues|
  {
    s.(queues := s.queues[index := s.queues[index] + multiset{item}],
       submitted := s.submitted + multiset{item},
       late := if s.workers[index].Exited? then s.late[index := s.late[index] + multiset{item}] else s.late)
  }

  /** The queue a worker dequeues from in its next step, if that step is a dequeue. */
  function Source(s: State, w: nat): Option<nat>
    requires Shaped(s) && w < |s.workers|
  {
    match s.workers[w]
    case Scan(k, _) => if k < |s.workers| then Some(Victim(w, k, |s.workers|)) else None
    case Draining => Some(w)
    case _ => None
  }

  predicate CanWork(s: State, w: nat, taken: Item) {
    && Shaped(s)
    && w < |s.workers|
    && !s.workers[w].Exited?
    && (Source(s, w).Some? && s.queues[Source(s, w).value] != multiset{} ==> taken in s.queues[Source(s, w).value])
  }

  function Worked(s: State, w: nat, taken: Item): State
    requires CanWork(s, w, taken)
  {
    match s.workers[w]
    case LoopTop =>
      s.(workers := s.workers[w := if s.shutdown then Draining else Scan(0, 0)])
    case Scan(k, it) =>
      if k == |s.workers| then
        s.(workers := s.workers[w :=
          if s.shutdown then LoopTop else Scan(0, if it < YIELD_ITERATIONS then it + 1 else it)])
      else
        var victim := Victim(w, k, |s.workers|);
        if s.queues[victim] == multiset{} then s.(workers := s.workers[w := Scan(k + 1, it)])
        else s.(queues := s.queues[victim := s.queues[victim] - multiset{taken}],
                workers := s.workers[w := Holding(taken, false)])
    case Holding(item, draining) =>
      var t := s.(workers := s.workers[w := if draining then Draining else LoopTop]);
      if item.valid then t.(executed := s.executed + multiset{item})
      else t.(dropped := s.dropped + multiset{item})
    case Draining =>
      if s.queues[w] == multiset{} then s.(workers := s.workers[w := Exited])
      else s.(queues := s.queues[w := s.queues[w] - multiset{taken}],
              workers := s.workers[w := Holding(taken, true)])
    case Exited => s
  }

  predicate AllExited(s: State) {
    forall w :: 0 <= w < |s.workers| ==> s.workers[w].Exited?
  }

  /** New workers on the old queues; a scheduler that is still running ignores the call. */
  function Started(s: State): State {
    s.(workers := seq(|s.workers|, _ => LoopTop), shutdown := false, late := seq(|s.late|, _ => multiset{}))
  }

  predicate Enabled(s: State, step: Step) {
    && Shaped(s)
    && (step.Work? ==> CanWork(s, step.worker, step.taken))
  }

  function Apply(s: State, step: Step): State
    requires Enabled(s, step)
  {
    match step
    case Submit(item) =>
      var t := Accept(s, s.next % |s.workers|, item);
      t.(next := (s.next + 1) % SIZE_T_RANGE)
    case SubmitTo(index, item) => if index >= |s.workers| then s else Accept(s, index, item)
    case RequestShutdown => s.(shutdown := true)
    case Start => if AllExited(s) then Started(s) else s
    case Work(w, taken) => Worked(s, w, taken)
  }

  // ----------------------------------------------------------- conservation

  /** How many copies of x are queued, over all workers. */
  ghost function Queued(bags: seq<multiset<Item>>, x: Item): nat {
    if bags == [] then 0 else Queued(bags[..|bags| - 1], x) + bags[|bags| - 1][x]
  }

  ghost function HeldBy(pc: Pc, x: Item): nat {
    if pc.Holding? && pc.item == x then 1 else 0
  }

  /** How many workers hold x. */
  ghost function Held(workers: seq<Pc>, x: Item): nat {
    if workers == [] then 0 else Held(workers[..|workers| - 1], x) + HeldBy(workers[|workers| - 1], x)
  }

  lemma {:induction false} QueuedUpdate(bags: seq<multiset<Item>>, i: nat, bag: multiset<Item>, x: Item)
    requires i < |bags|
    ensures Queued(bags[i := bag], x) == Queued(bags, x) - bags[i][x] + bag[x]
  {
    var m := |bags| - 1;
    if i == m {
      assert bags[i := bag][..m] == bags[..m];
    } else {
      assert bags[i := bag][..m] == bags[..m][i := bag];
      QueuedUpdate(bags[..m], i, bag, x);
    }
  }

  lemma {:induction false} HeldUpdate(workers: seq<Pc>, i: nat, pc: Pc, x: Item)
    requires i < |workers|
    ensures Held(workers[i := pc], x) == Held(workers, x) - HeldBy(workers[i], x) + HeldBy(pc, x)
  {
    var m := |workers| - 1;
    if i == m {
      assert workers[i := pc][..m] == workers[..m];
    } else {
      assert workers[i := pc][..m] == workers[..m][i := pc];
      HeldUpdate(workers[..m], i, pc, x);
    }
  }

  /** Every submitted copy of x is queued, held, executed or dropped: no copy is lost or doubled. */
  ghost predicate Balanced(s: State, x: Item) {
    && s.submitted[x] == Queued(s.queues, x) + Held(s.workers, x) + s.executed[x] + s.dropped[x]
    && (x.valid ==> s.dropped[x] == 0)
    && (!x.valid ==> s.executed[x] == 0)
  }

  ghost predicate Conserved(s: State) {
    forall x: Item :: Balanced(s, x)
  }

  /** Only workers that saw the shutdown request leave the main loop. */
  ghost predicate LeavesOnShutdown(s: State) {
    forall w :: 0 <= w < |s.workers| ==>
      (s.workers[w].Draining? || s.workers[w].Exited? || (s.workers[w].Holding? && s.workers[w].draining) ==> s.shutdown)
  }

  /** What remains in the queue of a worker that has exited arrived after it had. */
  ghost predicate LeftoversAreLate(s: State)
    requires Shaped(s)
  {
    forall w :: 0 <= w < |s.workers| && s.workers[w].Exited? ==> s.queues[w] <= s.late[w]
  }

  ghost predicate Inv(s: State) {
    Shaped(s) && Conserved(s) && LeavesOnShutdown(s) && LeftoversAreLate(s)
  }

  lemma {:induction false} NothingYet(s: State, x: Item)
    requires forall w :: 0 <= w < |s.queues| ==> s.queues[w] == multiset{}
    requires forall w :: 0 <= w < |s.workers| ==> !s.workers[w].Holding?
    ensures Queued(s.queues, x) == 0 && Held(s.workers, x) == 0
    decreases |s.queues| + |s.workers|
  {
    if s.queues != [] {
      NothingYet(s.(queues := s.queues[..|s.queues| - 1]), x);
    } else if s.workers != [] {
      NothingYet(s.(workers := s.workers[..|s.workers| - 1]), x);
    }
  }

  lemma InitialInv(requested: nat)
    requires Initial(requested).Some?
    ensures Inv(Initial(requested).value)
  {
    var s := Initial(requested).value;
    forall x: Item ensures Balanced(s, x) {
      NothingYet(s, x);
    }
  }

  lemma AcceptBalances(s: State, index: nat, item: Item, x: Item)
    requires Shaped(s) && index < |s.queues| && Balanced(s, x)
    ensures Balanced(Accept(s, index, item), x)
  {
    QueuedUpdate(s.queues, index, s.queues[index] + multiset{item}, x);
  }

  lemma AcceptKeepsInv(s: State, index: nat, item: Item)
    requires Inv(s) && index < |s.queues|
    ensures Inv(Accept(s, index, item))
  {
    forall x: Item ensures Balanced(Accept(s, index, item), x) {
      AcceptBalances(s, index, item, x);
    }
  }

  /** How a worker step changes the queues and the worker itself. */
  lemma WorkedShape(s: State, w: nat, taken: Item)
    requires CanWork(s, w, taken)
    ensures
      var t := Worked(s, w, taken);
      && Shaped(t)
      && t.workers == s.workers[w := t.workers[w]]
      && (Source(s, w).Some? ==> t.queues == s.queues[Source(s, w).value := t.queues[Source(s, w).value]])
      && (Source(s, w).None? ==> t.queues == s.queues)
  {
    var t := Worked(s, w, taken);
    assert |t.workers| == |s.workers| && |t.queues| == |s.queues| && t.late == s.late;
    assert t.workers == s.workers[w := t.workers[w]];
    assert t.workers[w].Scan? ==> t.workers[w].offset <= |s.workers|;
    if Source(s, w).Some? {
      var q := Source(s, w).value;
      if s.queues[q] == multiset{} {
        assert t.queues == s.queues;
      } else {
        assert t.queues == s.queues[q := s.queues[q] - multiset{taken}];
      }
    }
  }

  /** A step that takes an item moves one copy of it from the queue into the worker's hand. */
  lemma TakeBalances(s: State, w: nat, q: nat, taken: Item, draining: bool, x: Item)
    requires Shaped(s) && w < |s.workers| && q < |s.queues| && taken in s.queues[q]
    requires !s.workers[w].Holding? && Balanced(s, x)
    ensures Balanced(s.(queues := s.queues[q := s.queues[q] - multiset{taken}],
                        workers := s.workers[w := Holding(taken, draining)]), x)
  {
    HeldUpdate(s.workers, w, Holding(taken, draining), x);
    QueuedUpdate(s.queues, q, s.queues[q] - multiset{taken}, x);
  }

  /** A step that moves no item leaves every count alone. */
  lemma MoveBalances(s: State, w: nat, pc: Pc, x: Item)
    requires w < |s.workers| && !s.workers[w].Holding? && !pc.Holding? && Balanced(s, x)
    ensures Balanced(s.(workers := s.workers[w := pc]), x)
  {
    HeldUpdate(s.workers, w, pc, x);
  }

  lemma ReleaseBalances(s: State, w: nat, taken: Item, x: Item)
    requires CanWork(s, w, taken) && s.workers[w].Holding? && Balanced(s, x)
    ensures Balanced(Worked(s, w, taken), x)
  {
    HeldUpdate(s.workers, w, Worked(s, w, taken).workers[w], x);
  }

  lemma WorkBalances(s: State, w: nat, taken: Item, x: Item)
    requires CanWork(s, w, taken) && Balanced(s, x)
    ensures Balanced(Worked(s, w, taken), x)
  {
    hide Balanced;
    var t := Worked(s, w, taken);
    if s.workers[w].Holding? {
      ReleaseBalances(s, w, taken, x);
    } else if t.workers[w].Holding? {
      TakeBalances(s, w, Source(s, w).value, taken, t.workers[w].draining, x);
    } else {
      MoveBalances(s, w, t.workers[w], x);
    }
  }

  lemma WorkKeepsFlags(s: State, w: nat, taken: Item)
    requires CanWork(s, w, taken) && LeavesOnShutdown(s)
    ensures Shaped(Worked(s, w, taken)) && LeavesOnShutdown(Worked(s, w, taken))
  {
    var t := Worked(s, w, taken);
    WorkedShape(s, w, taken);
    assert t.shutdown == s.shutdown;
  }

  lemma WorkKeepsLeftovers(s: State, w: nat, taken: Item)
    requires CanWork(s, w, taken) && LeftoversAreLate(s)
    ensures Shaped(Worked(s, w, taken)) && LeftoversAreLate(Worked(s, w, taken))
  {
    var t := Worked(s, w, taken);
    WorkedShape(s, w, taken);
    assert t.late == s.late;
    assert t.workers[w].Exited? ==> t.queues[w] == multiset{};
    assert Source(s, w).Some? ==> t.queues[Source(s, w).value] <= s.queues[Source(s, w).value];
    hide Worked, CanWork, Source;
  }

  lemma WorkKeepsInv(s: State, w: nat, taken: Item)
    requires Inv(s) && CanWork(s, w, taken)
    ensures Inv(Worked(s, w, taken))
  {
    hide Balanced, Worked;
    WorkKeepsFlags(s, w, taken);
    WorkKeepsLeftovers(s, w, taken);
    forall x: Item ensures Balanced(Worked(s, w, taken), x) {
      WorkBalances(s, w, taken, x);
    }
  }

  lemma StepKeepsInv(s: State, step: Step)
    requires Inv(s) && Enabled(s, step)
    ensures Inv(Apply(s, step))
  {
    hide Worked, Accept;
    match step
    case Submit(item) =>
      AcceptKeepsInv(s, s.next % |s.workers|, item);
      CounterKeepsInv(Accept(s, s.next % |s.workers|, item), (s.next + 1) % SIZE_T_RANGE);
    case SubmitTo(index, item) => if index < |s.workers| { AcceptKeepsInv(s, index, item); }
    case RequestShutdown => FlagKeepsInv(s);
    case Start => if AllExited(s) { StartKeepsInv(s); }
    case Work(w, taken) => WorkKeepsInv(s, w, taken);
  }

  lemma CounterKeepsInv(s: State, next: nat)
    requires Inv(s)
    ensures Inv(s.(next := next))
  {
    forall x: Item ensures Balanced(s.(next := next), x) { assert Balanced(s, x); }
  }

  lemma StartKeepsInv(s: State)
    requires Inv(s) && AllExited(s)
    ensures Inv(Started(s))
  {
    forall x: Item ensures Balanced(Started(s), x) {
      assert Balanced(s, x);
      NoneHeld(s.workers, x);
      NoneHeld(Started(s).workers, x);
    }
  }

  lemma FlagKeepsInv(s: State)
    requires Inv(s)
    ensures Inv(s.(shutdown := true))
  {
    forall x: Item ensures Balanced(s.(shutdown := true), x) { assert Balanced(s, x); }
  }

  // ------------------------------------------------------------------- runs

  ghost predicate Follows(s: State, step: Step, t: State) {
    Enabled(s, step) && t == Apply(s, step)
  }

  /** An interleaving: any number of enabled steps from a fresh scheduler. */
  ghost predicate IsRun(states: seq<State>, steps: seq<Step>) {
    && |states| == |steps| + 1
    && (exists requested: nat :: Initial(requested) == Some(states[0]))
    && forall k {:trigger steps[k]} :: 0 <= k < |steps| ==> Follows(states[k], steps[k], states[k + 1])
  }

  /** Over every interleaving, items are conserved and exited workers leave only late items. */
  lemma {:induction false} RunKeepsInv(states: seq<State>, steps: seq<Step>, k: nat)
    requires IsRun(states, steps) && k < |states|
    ensures Inv(states[k])
  {
    hide Inv, Enabled, Apply, Initial;
    if k == 0 {
      var requested: nat :| Initial(requested) == Some(states[0]);
      InitialInv(requested);
    } else {
      var step := steps[k - 1];
      RunKeepsInv(states, steps, k - 1);
      StepKeepsInv(states[k - 1], step);
    }
  }

  /** No submission step is taken once the shutdown flag is set. */
  ghost predicate NothingLate(states: seq<State>, steps: seq<Step>)
    requires |states| == |steps| + 1
  {
    forall k {:trigger steps[k]} :: 0 <= k < |steps| && states[k].shutdown ==> !steps[k].Submit? && !steps[k].SubmitTo?
  }

  /** The queue a submission goes to, if the step is one and its index is valid. */
  function Target(s: State, step: Step): Option<nat>
    requires Shaped(s)
  {
    match step
    case Submit(_) => Some(s.next % |s.workers|)
    case SubmitTo(index, _) => if index < |s.workers| then Some(index) else None
    case _ => None
  }

  ghost predicate InTime(s: State, step: Step)
    requires Shaped(s)
  {
    Target(s, step).Some? ==> !s.workers[Target(s, step).value].Exited?
  }

  /** No item is submitted to the queue of a worker that has exited. */
  ghost predicate AllInTime(states: seq<State>, steps: seq<Step>)
    requires |states| == |steps| + 1
  {
    forall k {:trigger steps[k]} :: 0 <= k < |steps| ==> Shaped(states[k]) && InTime(states[k], steps[k])
  }

  ghost predicate NoLateItems(s: State) {
    forall w :: 0 <= w < |s.late| ==> s.late[w] == multiset{}
  }

  lemma StepKeepsNoLateItems(s: State, step: Step)
    requires Enabled(s, step) && NoLateItems(s) && InTime(s, step)
    ensures NoLateItems(Apply(s, step))
  {
  }

  lemma {:induction false} InTimeStaysEmpty(states: seq<State>, steps: seq<Step>, k: nat)
    requires IsRun(states, steps) && AllInTime(states, steps) && k < |states|
    ensures NoLateItems(states[k])
  {
    hide Enabled, Apply, InTime;
    if k > 0 {
      var step := steps[k - 1];
      InTimeStaysEmpty(states, steps, k - 1);
      StepKeepsNoLateItems(states[k - 1], step);
    }
  }

  lemma {:induction false} NoneHeld(workers: seq<Pc>, x: Item)
    requires forall w :: 0 <= w < |workers| ==> !workers[w].Holding?
    ensures Held(workers, x) == 0
  {
    if workers != [] {
      NoneHeld(workers[..|workers| - 1], x);
    }
  }

  lemma {:induction false} QueuedMonotone(a: seq<multiset<Item>>, b: seq<multiset<Item>>, x: Item)
    requires |a| == |b| && forall w :: 0 <= w < |a| ==> a[w] <= b[w]
    ensures Queued(a, x) <= Queued(b, x)
  {
    if a != [] {
      QueuedMonotone(a[..|a| - 1], b[..|b| - 1], x);
    }
  }

  /**
   When every worker has exited, each submitted item was executed, dropped as invalid, or is
   left in a queue; and what is left arrived there after the queue's own worker had exited.
   */
  lemma LeftoversAccounted(s: State, x: Item)
    requires Inv(s) && AllExited(s)
    ensures s.submitted[x] == Queued(s.queues, x) + s.executed[x] + s.dropped[x]
    ensures Queued(s.queues, x) <= Queued(s.late, x)
  {
    assert Balanced(s, x);
    NoneHeld(s.workers, x);
    QueuedMonotone(s.queues, s.late, x);
  }

  /** So every copy of a valid item accepted before the exit of its queue's worker has run. */
  lemma AcceptedInTimeRuns(states: seq<State>, steps: seq<Step>, x: Item)
    requires IsRun(states, steps) && AllExited(states[|steps|]) && x.valid
    ensures
      var s := states[|steps|];
      s.submitted[x] - Queued(s.late, x) <= s.executed[x] <= s.submitted[x]
  {
    RunKeepsInv(states, steps, |steps|);
    assert Balanced(states[|steps|], x);
    LeftoversAccounted(states[|steps|], x);
  }

  lemma {:induction false} NoneQueued(bags: seq<multiset<Item>>, x: Item)
    requires forall w :: 0 <= w < |bags| ==> bags[w] == multiset{}
    ensures Queued(bags, x) == 0
  {
    if bags != [] {
      NoneQueued(bags[..|bags| - 1], x);
    }
  }

  /**
   If no item is submitted to a worker that has exited, then once all workers have exited every
   queue is empty, every valid item ran exactly as often as it was submitted, and no other ran.
   */
  lemma InTimeRunsEverything(states: seq<State>, steps: seq<Step>)
    requires IsRun(states, steps) && AllInTime(states, steps)
    requires AllExited(states[|steps|])
    ensures
      var s := states[|steps|];
      && (forall w :: 0 <= w < |s.queues| ==> s.queues[w] == multiset{})
      && (forall x: Item :: s.executed[x] == if x.valid then s.submitted[x] else 0)
  {
    var s := states[|steps|];
    RunKeepsInv(states, steps, |steps|);
    InTimeStaysEmpty(states, steps, |steps|);
    forall w | 0 <= w < |s.queues| ensures s.queues[w] == multiset{} {
      assert s.queues[w] <= s.late[w];
    }
    forall x: Item ensures s.executed[x] == if x.valid then s.submitted[x] else 0 {
      LeftoversAccounted(s, x);
      NoneQueued(s.late, x);
      assert Balanced(s, x);
    }
  }

  /** In particular if nothing is submitted after the shutdown request. */
  lemma ShutdownRunsEverything(states: seq<State>, steps: seq<Step>)
    requires IsRun(states, steps) && NothingLate(states, steps)
    requires AllExited(states[|steps|])
    ensures
      var s := states[|steps|];
      && (forall w :: 0 <= w < |s.queues| ==> s.queues[w] == multiset{})
      && (forall x: Item :: s.executed[x] == if x.valid then s.submitted[x] else 0)
  {
    hide Apply, Conserved, LeftoversAreLate;
    forall k | 0 <= k < |steps| ensures Shaped(states[k]) && InTime(states[k], steps[k]) {
      RunKeepsInv(states, steps, k);
    }
    InTimeRunsEverything(states, steps);
  }

  lemma ExitedStayExited(s: State, step: Step)
    requires Enabled(s, step) && AllExited(s) && !step.Start?
    ensures AllExited(Apply(s, step)) && Apply(s, step).executed == s.executed
  {
  }

  /** Once all workers have exited nothing runs until the scheduler is started again. */
  lemma {:induction false} NothingRunsAfterExit(states: seq<State>, steps: seq<Step>, k: nat, l: nat)
    requires IsRun(states, steps) && k <= l < |states| && AllExited(states[k])
    requires forall i :: k <= i < l ==> !steps[i].Start?
    ensures AllExited(states[l]) && states[l].executed == states[k].executed
  {
    hide Enabled, Apply, AllExited;
    if k < l {
      var step := steps[l - 1];
      NothingRunsAfterExit(states, steps, k, l - 1);
      ExitedStayExited(states[l - 1], step);
    }
  }

  /** The step launches new workers. */
  predicate Starts(s: State, step: Step) {
    step.Start? && AllExited(s)
  }

  lemma {:induction false} SubmittedGrows(states: seq<State>, steps: seq<Step>, k: nat, l: nat, x: Item)
    requires IsRun(states, steps) && k <= l < |states|
    ensures states[k].submitted[x] <= states[l].submitted[x]
  {
    hide Enabled, Apply;
    if k < l {
      var step := steps[l - 1];
      SubmittedGrows(states, steps, k, l - 1, x);
      StepKeepsSubmitted(states[l - 1], step, x);
    }
  }

  lemma StepKeepsSubmitted(s: State, step: Step, x: Item)
    requires Enabled(s, step)
    ensures s.submitted[x] <= Apply(s, step).submitted[x]
  {
  }

  lemma StartForgetsLate(s: State, step: Step)
    requires Enabled(s, step) && Starts(s, step)
    ensures Apply(s, step).submitted == s.submitted && NoLateItems(Apply(s, step))
  {
  }

  lemma StepKeepsLateFresh(s: State, step: Step, x: Item)
    requires Enabled(s, step) && !Starts(s, step)
    ensures Queued(Apply(s, step).late, x) + s.submitted[x] <= Queued(s.late, x) + Apply(s, step).submitted[x]
  {
    var target := Target(s, step);
    if target.Some? && s.workers[target.value].Exited? {
      var item := step.item;
      QueuedUpdate(s.late, target.value, s.late[target.value] + multiset{item}, x);
    } else {
      assert Apply(s, step).late == s.late;
    }
  }

  /** Items recorded as late since a start were all submitted since then. */
  lemma {:induction false} LateIsRecent(states: seq<State>, steps: seq<Step>, k: nat, l: nat, x: Item)
    requires IsRun(states, steps) && k < l < |states| && Starts(states[k], steps[k])
    requires forall i {:trigger steps[i]} :: k < i < l ==> !Starts(states[i], steps[i])
    ensures Queued(states[l].late, x) + states[k].submitted[x] <= states[l].submitted[x]
  {
    hide Enabled, Apply, Starts, NoLateItems;
    var step := steps[l - 1];
    if k + 1 == l {
      StartForgetsLate(states[k], step);
      NoLateQueued(states[l], x);
    } else {
      LateIsRecent(states, steps, k, l - 1, x);
      StepKeepsLateFresh(states[l - 1], step, x);
    }
  }

  lemma NoLateQueued(s: State, x: Item)
    requires NoLateItems(s)
    ensures Queued(s.late, x) == 0
  {
    NoneQueued(s.late, x);
  }

  /** Starting again makes up for it: whenever all workers have exited later on, everything left over has run. */
  lemma {:induction false} StartRunsLeftovers(states: seq<State>, steps: seq<Step>, k: nat, x: Item)
    requires IsRun(states, steps) && k < |steps| && Starts(states[k], steps[k]) && x.valid
    requires AllExited(states[|steps|])
    ensures states[k].submitted[x] <= states[|steps|].executed[x]
    decreases |steps| - k
  {
    hide Starts, Apply, Enabled;
    if i :| k < i < |steps| && Starts(states[i], steps[i]) {
      SubmittedGrows(states, steps, k, i, x);
      StartRunsLeftovers(states, steps, i, x);
    } else {
      AcceptedInTimeRuns(states, steps, x);
      LateIsRecent(states, steps, k, |steps|, x);
    }
  }

  /** A submission after the shutdown request can be left behind: its worker may have exited already. */
  lemma LateSubmissionCanBeLost(x: Item)
    ensures exists states: seq<State>, steps: seq<Step> ::
      && IsRun(states, steps)
      && AllExited(states[|steps|])
      && states[|steps|].submitted == multiset{x}
      && states[|steps|].executed == multiset{}
  {
    var e: multiset<Item> := multiset{};
    var s0 := State([e], [LoopTop], 0, false, e, [e], e, e);
    var s1 := s0.(shutdown := true);
    var s2 := s1.(workers := [Draining]);
    var s3 := s1.(workers := [Exited]);
    var s4 := s3.(queues := [multiset{x}], submitted := multiset{x}, late := [multiset{x}]);
    assert Initial(1) == Some(s0) by {
      assert seq(1, _ => e) == [e] && seq(1, _ => LoopTop) == [LoopTop];
    }
    assert Follows(s0, RequestShutdown, s1);
    assert Follows(s1, Work(0, x), s2);
    assert Follows(s2, Work(0, x), s3);
    assert Follows(s3, SubmitTo(0, x), s4) by {
      assert e + multiset{x} == multiset{x};
    }
    hide Follows, Initial;
    assert IsRun([s0, s1, s2, s3, s4], [RequestShutdown, Work(0, x), Work(0, x), SubmitTo(0, x)]);
  }

  // ---------------------------------------------------------------- progress

  /** Items that have left the scheduler, run or dropped. */
  ghost function Finished(s: State): nat {
    |s.executed| + |s.dropped|
  }

  /** Steps of one worker only. */
  ghost predicate Solo(states: seq<State>, steps: seq<Step>, w: nat) {
    && |states| == |steps| + 1
    && forall k {:trigger steps[k]} :: 0 <= k < |steps| ==>
         steps[k].Work? && steps[k].worker == w && Follows(states[k], steps[k], states[k + 1])
  }

  lemma WorkFinishesMore(s: State, w: nat, taken: Item)
    requires CanWork(s, w, taken)
    ensures Finished(Worked(s, w, taken)) >= Finished(s)
    ensures s.workers[w].Holding? ==> Finished(Worked(s, w, taken)) == Finished(s) + 1
    ensures Worked(s, w, taken).shutdown == s.shutdown && Shaped(Worked(s, w, taken))
  {
    WorkedShape(s, w, taken);
  }

  lemma {:induction false} SoloKeepsFinished(states: seq<State>, steps: seq<Step>, w: nat)
    requires Solo(states, steps, w)
    ensures Finished(states[|steps|]) >= Finished(states[0])
  {
    hide Worked, CanWork, Finished;
    if steps != [] {
      var step := steps[0];
      WorkFinishesMore(states[0], w, step.taken);
      SoloKeepsFinished(states[1..], steps[1..], w);
    }
  }

  /** A worker that holds an item gets rid of it in its next step. */
  lemma HolderFinishes(states: seq<State>, steps: seq<Step>, w: nat)
    requires Solo(states, steps, w) && |steps| >= 1 && w < |states[0].workers| && states[0].workers[w].Holding?
    ensures Finished(states[|steps|]) > Finished(states[0])
  {
    hide Worked, Finished;
    var step := steps[0];
    WorkFinishesMore(states[0], w, step.taken);
    SoloKeepsFinished(states[1..], steps[1..], w);
  }

  /** What a look at the queue `k` places away does. */
  lemma LookAt(s: State, w: nat, taken: Item)
    requires CanWork(s, w, taken) && s.workers[w].Scan? && s.workers[w].offset < |s.workers|
    ensures
      var t, k := Worked(s, w, taken), s.workers[w].offset;
      var q := Victim(w, k, |s.workers|);
      && |t.workers| == |s.workers| && |t.queues| == |s.queues|
      && (s.queues[q] != multiset{} ==>
            && t.workers[w].Holding? && t.workers[w].item in s.queues[q]
            && t.queues[q] == s.queues[q] - multiset{t.workers[w].item})
      && (s.queues[q] == multiset{} ==> t.workers[w] == Scan(k + 1, s.workers[w].iterations) && t.queues == s.queues)
  {
  }

  lemma {:induction false} ScanFinishes(states: seq<State>, steps: seq<Step>, w: nat, d: nat)
    requires Solo(states, steps, w) && Shaped(states[0]) && w < |states[0].workers| && states[0].workers[w].Scan?
    requires states[0].workers[w].offset <= d < |states[0].workers|
    requires states[0].queues[Victim(w, d, |states[0].workers|)] != multiset{}
    requires |steps| >= d - states[0].workers[w].offset + 2
    ensures Finished(states[|steps|]) > Finished(states[0])
    decreases |steps|
  {
    hide Worked, Finished;
    var s, step := states[0], steps[0];
    LookAt(s, w, step.taken);
    WorkFinishesMore(s, w, step.taken);
    var k := s.workers[w].offset;
    if s.queues[Victim(w, k, |s.workers|)] != multiset{} {
      HolderFinishes(states[1..], steps[1..], w);
    } else {
      ScanFinishes(states[1..], steps[1..], w, d);
    }
  }

  /** Every queue is some number of places away. */
  lemma VictimCovers(w: nat, q: nat, n: nat) returns (k: nat)
    requires w < n && q < n
    ensures k < n && Victim(w, k, n) == q
  {
    k := if q >= w then q - w else q + n - w;
  }

  /**
   Items run: a worker at the top of its loop, left alone, has run or dropped an item after two
   steps more than there are workers, if any queue holds one.
   */
  lemma WorkersMakeProgress(states: seq<State>, steps: seq<Step>, w: nat, q: nat)
    requires Solo(states, steps, w) && Shaped(states[0]) && !states[0].shutdown
    requires w < |states[0].workers| && states[0].workers[w] == LoopTop
    requires q < |states[0].queues| && states[0].queues[q] != multiset{}
    requires |steps| >= |states[0].workers| + 2
    ensures Finished(states[|steps|]) > Finished(states[0])
  {
    var s, step := states[0], steps[0];
    var d := VictimCovers(w, q, |s.workers|);
    assert states[1] == s.(workers := s.workers[w := Scan(0, 0)]);
    hide Worked, CanWork, Finished;
    ScanFinishes(states[1..], steps[1..], w, d);
    SameFinished(s, states[1]);
  }

  lemma SameFinished(s: State, t: State)
    requires t.executed == s.executed && t.dropped == s.dropped
    ensures Finished(t) == Finished(s)
  {
  }

  /** At step m of the run worker w looked at the queue k places away and found it empty. */
  ghost predicate FoundEmpty(states: seq<State>, steps: seq<Step>, m: nat, w: nat, k: nat) {
    && m < |steps| < |states| && Shaped(states[m])
    && steps[m].Work? && steps[m].worker == w
    && k < |states[m].workers| && w < |states[m].workers|
    && states[m].queues[Victim(w, k, |states[m].workers|)] == multiset{}
  }

  /** A worker that has come k places far in a scan found each of those queues empty since the scan began. */
  lemma {:induction false} EmptyHanded(states: seq<State>, steps: seq<Step>, i: nat, j: nat, w: nat, k: nat)
    requires IsRun(states, steps) && i <= j < |states| && w < |states[i].workers|
    requires forall m :: i <= m <= j ==> w < |states[m].workers| && states[m].workers[w].Scan?
    requires states[i].workers[w].offset == 0 && k < states[j].workers[w].offset
    ensures exists m :: i <= m < j && FoundEmpty(states, steps, m, w, k)
  {
    hide Enabled, Apply, Initial;
    if i < j {
      var step := steps[j - 1];
      ScanStep(states[j - 1], step, w);
      if k < states[j - 1].workers[w].offset {
        EmptyHanded(states, steps, i, j - 1, w, k);
        var m :| i <= m < j - 1 && FoundEmpty(states, steps, m, w, k);
      } else {
        assert FoundEmpty(states, steps, j - 1, w, k);
      }
    }
  }

  /** A worker that stays in its scan moved on past an empty queue, began again, or did not move. */
  lemma ScanStep(s: State, step: Step, w: nat)
    requires Enabled(s, step) && w < |s.workers| && s.workers[w].Scan?
    requires w < |Apply(s, step).workers| && Apply(s, step).workers[w].Scan?
    ensures Shaped(s)
    ensures
      var k, l := s.workers[w].offset, Apply(s, step).workers[w].offset;
      || l == k
      || l == 0
      || (l == k + 1 && step.Work? && step.worker == w && k < |s.workers|
          && s.queues[Victim(w, k, |s.workers|)] == multiset{})
  {
  }

  /** A submission adds one copy to one queue, the next one round-robin or the one that was named. */
  lemma SubmissionLands(s: State, item: Item, index: nat)
    requires Shaped(s)
    ensures
      var t, q := Apply(s, Submit(item)), s.next % |s.workers|;
      && t.queues == s.queues[q := s.queues[q] + multiset{item}]
      && t.next == (s.next + 1) % 0x1_0000_0000_0000_0000
      && t.workers == s.workers && t.executed == s.executed && t.dropped == s.dropped
    ensures index < |s.workers| ==>
      Apply(s, SubmitTo(index, item)).queues == s.queues[index := s.queues[index] + multiset{item}]
    ensures index >= |s.workers| ==> Apply(s, SubmitTo(index, item)) == s
  {
  }

  // -------------------------------------------------------- shutdown returns

  function PcRank(pc: Pc, n: nat): nat {
    match pc
    case Exited => 0
    case Draining => 1
    case LoopTop => 2
    case Holding(_, draining) => if draining then 2 else 3
    case Scan(k, _) => if k <= n then 4 + (n - k) else 4
  }

  ghost function Ranks(workers: seq<Pc>, n: nat): nat {
    if workers == [] then 0 else Ranks(workers[..|workers| - 1], n) + PcRank(workers[|workers| - 1], n)
  }

  lemma {:induction false} RanksUpdate(workers: seq<Pc>, n: nat, i: nat, pc: Pc)
    requires i < |workers|
    ensures Ranks(workers[i := pc], n) + PcRank(workers[i], n) == Ranks(workers, n) + PcRank(pc, n)
  {
    var m := |workers| - 1;
    if i == m {
      assert workers[i := pc][..m] == workers[..m];
    } else {
      assert workers[i := pc][..m] == workers[..m][i := pc];
      RanksUpdate(workers[..m], n, i, pc);
    }
  }

  ghost function QueueSizes(bags: seq<multiset<Item>>): nat {
    if bags == [] then 0 else QueueSizes(bags[..|bags| - 1]) + |bags[|bags| - 1]|
  }

  lemma {:induction false} QueueSizesUpdate(bags: seq<multiset<Item>>, i: nat, bag: multiset<Item>)
    requires i < |bags|
    ensures QueueSizes(bags[i := bag]) == QueueSizes(bags) - |bags[i]| + |bag|
  {
    var m := |bags| - 1;
    if i == m {
      assert bags[i := bag][..m] == bags[..m];
    } else {
      assert bags[i := bag][..m] == bags[..m][i := bag];
      QueueSizesUpdate(bags[..m], i, bag);
    }
  }

  /** An upper bound on the worker steps still possible after the shutdown request. */
  ghost function StepsLeft(s: State): nat
    requires Shaped(s)
  {
    Ranks(s.workers, |s.workers|) + 2 * QueueSizes(s.queues)
  }

  /** After the shutdown request every step of a worker uses up some of the bound. */
  lemma WorkUsesUpSteps(s: State, w: nat, taken: Item)
    requires s.shutdown && CanWork(s, w, taken)
    ensures Shaped(Worked(s, w, taken)) && StepsLeft(Worked(s, w, taken)) < StepsLeft(s)
  {
    var t := Worked(s, w, taken);
    WorkedShape(s, w, taken);
    RanksUpdate(s.workers, |s.workers|, w, t.workers[w]);
    if Source(s, w).Some? {
      var q := Source(s, w).value;
      QueueSizesUpdate(s.queues, q, t.queues[q]);
    }
  }

  /** A worker that has not exited always has a step to take. */
  lemma NeverStuck(s: State, w: nat)
    requires Shaped(s) && w < |s.workers| && !s.workers[w].Exited?
    ensures exists taken :: CanWork(s, w, taken)
  {
    if Source(s, w).Some? && s.queues[Source(s, w).value] != multiset{} {
      var taken :| taken in s.queues[Source(s, w).value];
      assert CanWork(s, w, taken);
    } else {
      assert CanWork(s, w, Item("", true));
    }
  }

  /**
   Joining the workers returns: once shutdown is requested, any continuation by worker steps
   alone has at most StepsLeft steps.
   */
  lemma {:induction false} ShutdownTerminates(states: seq<State>, steps: seq<Step>)
    requires |states| == |steps| + 1 && Shaped(states[0]) && states[0].shutdown
    requires forall k {:trigger steps[k]} :: 0 <= k < |steps| ==>
      steps[k].Work? && Follows(states[k], steps[k], states[k + 1])
    ensures |steps| <= StepsLeft(states[0])
  {
    hide Worked, CanWork, StepsLeft;
    if steps != [] {
      var step := steps[0];
      WorkUsesUpSteps(states[0], step.worker, step.taken);
      FlagStays(states[0], step);
      ShutdownTerminates(states[1..], steps[1..]);
    }
  }

  lemma FlagStays(s: State, step: Step)
    requires Enabled(s, step) && s.shutdown && !step.Start?
    ensures Apply(s, step).shutdown
  {
  }
}
