/**
 The parallel search for a NATS peer: workers claim indices of the matched peers, probe them, and
 race on one compare-and-swap.  A transition system over all interleavings; the answer of every
 probe and the remaining time budget at every check are arbitrary.
 */
module PeerRace {
  import opened Common
  import opened Text

  /** Where a worker is in its loop; the index is the one it has claimed. */
  datatype Pc = AtLoop | Claiming | Claimed(i: nat) | Probing(i: nat) | Answered(i: nat) | Writing(i: nat) | Done

  datatype Probe = Probe(i: nat, answered: bool)

  datatype State = State(
    pcs: seq<Pc>,
    nextIdx: nat,
    found: bool,
    writes: seq<nat>,           // indices whose URL was stored as the winner, in order
    probes: seq<Probe>,         // probes made, in order
    ranOut: bool)               // some worker saw a zero budget

  datatype Step =
    | CheckFound(w: nat)
    | Claim(w: nat)
    | CheckBudget(w: nat, left: nat)
    | Finish(w: nat, answered: bool)
    | Swap(w: nat)
    | Write(w: nat)

  function Clamp(x: nat): nat {
    if x < 1 then 1 else if x > 32 then 32 else x
  }

  /** n matched peers, at least one, and the configured number of workers. */
  function Start(n: nat, maxWorkers: nat): State {
    State(seq(Min(n, Clamp(maxWorkers)), _ => AtLoop), 0, false, [], [], false)
  }

  predicate Enabled(s: State, step: Step) {
    && step.w < |s.pcs|
    && match step
       case CheckFound(w) => s.pcs[w].AtLoop?
       case Claim(w) => s.pcs[w].Claiming?
       case CheckBudget(w, _) => s.pcs[w].Claimed?
       case Finish(w, _) => s.pcs[w].Probing?
       case Swap(w) => s.pcs[w].Answered?
       case Write(w) => s.pcs[w].Writing?
  }

  function At(s: State, w: nat, pc: Pc): State
    requires w < |s.pcs|
  {
    s.(pcs := s.pcs[w := pc])
  }

  function Next(n: nat, s: State, step: Step): State
    requires Enabled(s, step)
  {
    match step
    case CheckFound(w) => At(s, w, if s.found then Done else Claiming)
    case Claim(w) => At(s, w, if s.nextIdx >= n then Done else Claimed(s.nextIdx)).(nextIdx := s.nextIdx + 1)
    case CheckBudget(w, left) =>
      if left == 0 then At(s, w, Done).(ranOut := true) else At(s, w, Probing(s.pcs[w].i))
    case Finish(w, answered) =>
      At(s, w, if answered then Answered(s.pcs[w].i) else AtLoop).(probes := s.probes + [Probe(s.pcs[w].i, answered)])
    case Swap(w) => if s.found then At(s, w, Done) else At(s, w, Writing(s.pcs[w].i)).(found := true)
    case Write(w) => At(s, w, Done).(writes := s.writes + [s.pcs[w].i])
  }

  // --------------------------------------------------------------- invariant

  /** Worker w has claimed i and not probed it yet. */
  ghost predicate Holds(s: State, w: nat, i: nat) {
    w < |s.pcs| && (s.pcs[w] == Claimed(i) || s.pcs[w] == Probing(i))
  }

  ghost predicate Probed(s: State, i: nat) {
    exists k :: 0 <= k < |s.probes| && s.probes[k].i == i
  }

  ghost predicate Confirmed(s: State, i: nat) {
    Probe(i, true) in s.probes
  }

  /** Every index is claimed by one worker and probed once. */
  ghost predicate Exclusive(n: nat, s: State) {
    && (forall w: nat, i: nat :: Holds(s, w, i) ==> i < n && i < s.nextIdx && !Probed(s, i))
    && (forall w: nat, v: nat, i: nat :: Holds(s, w, i) && Holds(s, v, i) ==> w == v)
    && (forall k :: 0 <= k < |s.probes| ==> s.probes[k].i < n && s.probes[k].i < s.nextIdx)
    && (forall k, l :: 0 <= k < l < |s.probes| ==> s.probes[k].i != s.probes[l].i)
  }

  /** No claimed index is forgotten, unless time ran out. */
  ghost predicate Covered(n: nat, s: State) {
    s.ranOut || forall i: nat :: i < n && i < s.nextIdx ==> Probed(s, i) || exists w: nat :: Holds(s, w, i)
  }

  /** The swap has one winner, who writes once, and only for a peer that answered. */
  ghost predicate OneWinner(s: State) {
    && |s.writes| <= 1
    && (forall k :: 0 <= k < |s.writes| ==> Confirmed(s, s.writes[k]))
    && (forall w :: 0 <= w < |s.pcs| && (s.pcs[w].Answered? || s.pcs[w].Writing?) ==> Confirmed(s, s.pcs[w].i))
    && (forall w :: 0 <= w < |s.pcs| && s.pcs[w].Writing? ==> s.found && s.writes == [])
    && (forall w, v :: 0 <= w < |s.pcs| && 0 <= v < |s.pcs| && s.pcs[w].Writing? && s.pcs[v].Writing? ==> w == v)
    && (s.writes != [] ==> s.found)
  }

  /** An answer is not lost: it wins, or it is on its way to the swap. */
  ghost predicate AnswersCount(s: State) {
    && (s.found && s.writes == [] ==> exists w :: 0 <= w < |s.pcs| && s.pcs[w].Writing?)
    && (!s.found ==> forall i: nat :: Confirmed(s, i) ==> exists w :: 0 <= w < |s.pcs| && s.pcs[w] == Answered(i))
  }

  /** Workers stop for a reason. */
  ghost predicate StopsHonestly(n: nat, s: State) {
    (exists w :: 0 <= w < |s.pcs| && s.pcs[w].Done?) ==> s.found || s.nextIdx >= n || s.ranOut
  }

  ghost predicate Inv(n: nat, s: State) {
    Exclusive(n, s) && Covered(n, s) && OneWinner(s) && AnswersCount(s) && StopsHonestly(n, s)
  }

  lemma ExclusiveKept(n: nat, s: State, step: Step)
    requires Enabled(s, step) && Exclusive(n, s)
    ensures Exclusive(n, Next(n, s, step))
  {
    var t := Next(n, s, step);
    assert forall i: nat :: Probed(t, i) <==> Probed(s, i) || (step.Finish? && i == s.pcs[step.w].i) by {
      forall i: nat ensures Probed(t, i) <==> Probed(s, i) || (step.Finish? && i == s.pcs[step.w].i) {
        ProbedNext(n, s, step, i);
      }
    }
    assert forall v: nat, i: nat :: v != step.w ==> (Holds(t, v, i) <==> Holds(s, v, i));
    if step.Finish? {
      assert Holds(s, step.w, s.pcs[step.w].i);
    }
    forall w: nat, i: nat | Holds(t, w, i) ensures i < n && i < t.nextIdx && !Probed(t, i) {
      if step.Claim? && w == step.w {
        assert i == s.nextIdx;
      } else {
        assert Holds(s, w, i);
      }
    }
    forall w: nat, v: nat, i: nat | Holds(t, w, i) && Holds(t, v, i) ensures w == v {
      if step.Claim? && (w == step.w || v == step.w) {
        assert i == s.nextIdx;
      } else {
        assert Holds(s, w, i) && Holds(s, v, i);
      }
    }
  }

  lemma ProbedNext(n: nat, s: State, step: Step, i: nat)
    requires Enabled(s, step)
    ensures Probed(Next(n, s, step), i) <==> Probed(s, i) || (step.Finish? && i == s.pcs[step.w].i)
  {
    var t := Next(n, s, step);
    if step.Finish? {
      assert t.probes[|s.probes|].i == s.pcs[step.w].i;
      if Probed(s, i) {
        var k :| 0 <= k < |s.probes| && s.probes[k].i == i;
        assert t.probes[k].i == i;
      }
    }
  }

  lemma CoveredKept(n: nat, s: State, step: Step)
    requires Enabled(s, step) && Covered(n, s)
    ensures Covered(n, Next(n, s, step))
  {
    var t := Next(n, s, step);
    if !t.ranOut {
      forall i: nat | i < n && i < t.nextIdx ensures Probed(t, i) || exists w: nat :: Holds(t, w, i) {
        ProbedNext(n, s, step, i);
        if i == s.nextIdx {
          assert Holds(t, step.w, i);
        } else if !Probed(s, i) {
          var w: nat :| Holds(s, w, i);
          assert w == step.w || Holds(t, w, i);
          assert w == step.w ==> Holds(t, w, i) || (step.Finish? && i == s.pcs[w].i);
        }
      }
    }
  }

  lemma OneWinnerKept(n: nat, s: State, step: Step)
    requires Enabled(s, step) && OneWinner(s)
    ensures OneWinner(Next(n, s, step))
  {
    var t := Next(n, s, step);
    assert forall i: nat :: Confirmed(s, i) ==> Confirmed(t, i);
    if step.Finish? && step.answered {
      assert Confirmed(t, s.pcs[step.w].i);
    }
  }

  lemma AnswersCountKept(n: nat, s: State, step: Step)
    requires Enabled(s, step) && AnswersCount(s)
    ensures AnswersCount(Next(n, s, step))
  {
    var t := Next(n, s, step);
    if t.found && t.writes == [] {
      if s.found {
        var w :| 0 <= w < |s.pcs| && s.pcs[w].Writing?;
        assert t.pcs[w].Writing?;
      } else {
        assert t.pcs[step.w].Writing?;
      }
    }
    if !t.found {
      forall i: nat | Confirmed(t, i) ensures exists w :: 0 <= w < |t.pcs| && t.pcs[w] == Answered(i) {
        if Confirmed(s, i) {
          var w :| 0 <= w < |s.pcs| && s.pcs[w] == Answered(i);
          assert t.pcs[w] == Answered(i);
        } else {
          assert t.pcs[step.w] == Answered(i);
        }
      }
    }
  }

  lemma StopsHonestlyKept(n: nat, s: State, step: Step)
    requires Enabled(s, step) && StopsHonestly(n, s) && OneWinner(s)
    ensures StopsHonestly(n, Next(n, s, step))
  {
    var t := Next(n, s, step);
    if v :| 0 <= v < |t.pcs| && t.pcs[v].Done? {
      assert v == step.w || s.pcs[v].Done?;
    }
  }

  lemma StepKeepsInv(n: nat, s: State, step: Step)
    requires Enabled(s, step) && Inv(n, s)
    ensures Inv(n, Next(n, s, step))
  {
    hide Exclusive, Covered, OneWinner, AnswersCount, StopsHonestly, Next;
    ExclusiveKept(n, s, step);
    CoveredKept(n, s, step);
    OneWinnerKept(n, s, step);
    AnswersCountKept(n, s, step);
    StopsHonestlyKept(n, s, step);
  }

  // -------------------------------------------------------------------- runs

  /** The state after some steps, if each of them was enabled. */
  ghost function After(n: nat, s: State, steps: seq<Step>): Option<State> {
    if steps == [] then Some(s)
    else
      var t := After(n, s, steps[..|steps| - 1]);
      if t.Some? && Enabled(t.value, steps[|steps| - 1]) then Some(Next(n, t.value, steps[|steps| - 1])) else None
  }

  lemma StartInv(n: nat, maxWorkers: nat)
    ensures Inv(n, Start(n, maxWorkers))
  {
    var s := Start(n, maxWorkers);
    assert forall w :: 0 <= w < |s.pcs| ==> s.pcs[w].AtLoop?;
  }

  lemma {:induction false} RunKeepsInv(n: nat, maxWorkers: nat, steps: seq<Step>)
    requires After(n, Start(n, maxWorkers), steps).Some?
    ensures
      var t := After(n, Start(n, maxWorkers), steps).value;
      && Inv(n, t) && |t.pcs| == Min(n, Clamp(maxWorkers))
      && |t.pcs| <= n && |t.pcs| <= 32 && (n > 0 ==> |t.pcs| >= 1)
      && (1 <= maxWorkers <= 32 && maxWorkers <= n ==> |t.pcs| == maxWorkers)
      && (n <= maxWorkers && n <= 32 ==> |t.pcs| == n)
      && (maxWorkers >= 32 && n >= 32 ==> |t.pcs| == 32)
  {
    hide Inv, Next;
    StartInv(n, maxWorkers);
    if steps != [] {
      var before := steps[..|steps| - 1];
      RunKeepsInv(n, maxWorkers, before);
      var s := After(n, Start(n, maxWorkers), before).value;
      StepKeepsInv(n, s, steps[|steps| - 1]);
      StepKeepsWorkers(n, s, steps[|steps| - 1]);
    }
  }

  lemma StepKeepsWorkers(n: nat, s: State, step: Step)
    requires Enabled(s, step)
    ensures |Next(n, s, step).pcs| == |s.pcs|
  {
  }

  // ------------------------------------------------------------- the outcome

  /** All workers have been joined. */
  ghost predicate Joined(s: State) {
    forall w :: 0 <= w < |s.pcs| ==> s.pcs[w].Done?
  }

  function Url(ip: string, port: int): string {
    "nats://" + ip + ":" + IntText(port)
  }

  /** What is returned: the winner's URL, or nothing. */
  function Outcome(ips: seq<string>, port: int, s: State): string {
    if s.writes == [] || s.writes[|s.writes| - 1] >= |ips| then ""
    else Url(ips[s.writes[|s.writes| - 1]], port)
  }

  /** In every run no peer is probed twice and the winner is stored at most once. */
  lemma ProbedOnceWrittenOnce(n: nat, maxWorkers: nat, steps: seq<Step>)
    requires After(n, Start(n, maxWorkers), steps).Some?
    ensures
      var t := After(n, Start(n, maxWorkers), steps).value;
      && (forall k, l :: 0 <= k < l < |t.probes| ==> t.probes[k].i != t.probes[l].i)
      && (forall k :: 0 <= k < |t.probes| ==> t.probes[k].i < n)
      && |t.writes| <= 1
  {
    RunKeepsInv(n, maxWorkers, steps);
  }

  /** The outcome is a matched peer that answered, or nothing. */
  lemma OutcomeAnswered(ips: seq<string>, port: int, maxWorkers: nat, steps: seq<Step>)
    requires After(|ips|, Start(|ips|, maxWorkers), steps).Some?
    ensures
      var t := After(|ips|, Start(|ips|, maxWorkers), steps).value;
      Outcome(ips, port, t) == "" ||
      exists i :: 0 <= i < |ips| && Confirmed(t, i) && Outcome(ips, port, t) == "nats://" + ips[i] + ":" + IntText(port)
  {
    RunKeepsInv(|ips|, maxWorkers, steps);
    var t := After(|ips|, Start(|ips|, maxWorkers), steps).value;
    if t.writes != [] {
      assert Confirmed(t, t.writes[0]);
    }
  }

  /** In every joined run the outcome is empty if and only if no probe was answered. */
  lemma EmptyIffUnanswered(ips: seq<string>, port: int, maxWorkers: nat, steps: seq<Step>)
    requires After(|ips|, Start(|ips|, maxWorkers), steps).Some?
    requires Joined(After(|ips|, Start(|ips|, maxWorkers), steps).value)
    ensures
      var t := After(|ips|, Start(|ips|, maxWorkers), steps).value;
      Outcome(ips, port, t) == "" <==> forall i: nat :: !Confirmed(t, i)
  {
    RunKeepsInv(|ips|, maxWorkers, steps);
    hide After, Start;
    var t := After(|ips|, Start(|ips|, maxWorkers), steps).value;
    if t.writes == [] {
      assert !t.found;
    } else {
      assert Confirmed(t, t.writes[0]);
    }
  }

  /** Joined without a zero budget, nothing was found exactly when every matched peer was probed and none answered. */
  lemma NothingFoundIff(ips: seq<string>, port: int, maxWorkers: nat, steps: seq<Step>)
    requires ips != [] && After(|ips|, Start(|ips|, maxWorkers), steps).Some?
    requires Joined(After(|ips|, Start(|ips|, maxWorkers), steps).value)
    requires !After(|ips|, Start(|ips|, maxWorkers), steps).value.ranOut
    ensures
      var t := After(|ips|, Start(|ips|, maxWorkers), steps).value;
      Outcome(ips, port, t) == "" <==> forall i: nat :: i < |ips| ==> Probe(i, false) in t.probes
  {
    RunKeepsInv(|ips|, maxWorkers, steps);
    hide After, Start, Inv;
    var t := After(|ips|, Start(|ips|, maxWorkers), steps).value;
    JoinedInv(|ips|, t);
    if t.writes == [] {
      assert !t.found;
      assert forall i: nat :: !Confirmed(t, i);
      forall i: nat | i < |ips| ensures Probe(i, false) in t.probes {
        assert Probed(t, i);
        var k :| 0 <= k < |t.probes| && t.probes[k].i == i;
        assert t.probes[k].answered ==> Confirmed(t, i);
        assert t.probes[k] == Probe(i, false);
      }
    } else {
      var i := t.writes[0];
      var k :| 0 <= k < |t.probes| && t.probes[k] == Probe(i, true);
      assert Probe(i, false) !in t.probes;
    }
  }

  lemma JoinedInv(n: nat, t: State)
    requires Inv(n, t) && Joined(t) && !t.ranOut && n > 0 && |t.pcs| > 0
    ensures t.writes == [] ==> !t.found && t.nextIdx >= n && forall i: nat :: !Confirmed(t, i)
    ensures !t.found ==> forall i: nat :: i < n ==> Probed(t, i)
    ensures |t.writes| <= 1 && (t.writes != [] ==> t.writes[0] < n && Confirmed(t, t.writes[0]))
    ensures forall k, l :: 0 <= k < l < |t.probes| ==> t.probes[k].i != t.probes[l].i
  {
    assert t.pcs[0].Done?;
    if t.writes != [] {
      assert Confirmed(t, t.writes[0]);
    }
  }

  /** So one peer that answers whenever it is probed is enough. */
  lemma AnsweringPeerFound(ips: seq<string>, port: int, maxWorkers: nat, steps: seq<Step>, j: nat)
    requires ips != [] && After(|ips|, Start(|ips|, maxWorkers), steps).Some?
    requires Joined(After(|ips|, Start(|ips|, maxWorkers), steps).value)
    requires !After(|ips|, Start(|ips|, maxWorkers), steps).value.ranOut
    requires j < |ips| && Probe(j, false) !in After(|ips|, Start(|ips|, maxWorkers), steps).value.probes
    ensures Outcome(ips, port, After(|ips|, Start(|ips|, maxWorkers), steps).value) != ""
  {
    NothingFoundIff(ips, port, maxWorkers, steps);
  }

  // ---------------------------------------------------------------- stopping

  /** Workers that may still make a probe without looking at `found` again. */
  function InFlight(pcs: seq<Pc>): nat {
    if pcs == [] then 0
    else
      var last := pcs[|pcs| - 1];
      InFlight(pcs[..|pcs| - 1]) + if last.Claiming? || last.Claimed? || last.Probing? then 1 else 0
  }

  lemma {:induction false} InFlightUpdate(pcs: seq<Pc>, w: nat, pc: Pc)
    requires w < |pcs|
    ensures InFlight(pcs[w := pc]) + InFlight([pcs[w]]) == InFlight(pcs) + InFlight([pc])
    ensures InFlight(pcs) <= |pcs|
  {
    var n := |pcs| - 1;
    if w == n {
      assert pcs[w := pc][..n] == pcs[..n];
      if n > 0 {
        InFlightUpdate(pcs[..n], 0, pc);
      }
    } else {
      InFlightUpdate(pcs[..n], w, pc);
      assert pcs[w := pc][..n] == pcs[..n][w := pc];
    }
  }

  lemma FoundStep(n: nat, s: State, step: Step)
    requires Enabled(s, step) && s.found
    ensures
      var t := Next(n, s, step);
      t.found && |t.pcs| == |s.pcs| && |t.probes| + InFlight(t.pcs) <= |s.probes| + InFlight(s.pcs)
  {
    InFlightUpdate(s.pcs, step.w, Next(n, s, step).pcs[step.w]);
    assert forall pc :: InFlight([pc]) == if pc.Claiming? || pc.Claimed? || pc.Probing? then 1 else 0;
    hide InFlight;
  }

  lemma {:induction false} FoundRun(n: nat, s: State, steps: seq<Step>)
    requires After(n, s, steps).Some? && s.found
    ensures
      var t := After(n, s, steps).value;
      t.found && |t.probes| + InFlight(t.pcs) <= |s.probes| + InFlight(s.pcs)
  {
    hide InFlight, Next;
    if steps != [] {
      var before := steps[..|steps| - 1];
      FoundRun(n, s, before);
      FoundStep(n, After(n, s, before).value, steps[|steps| - 1]);
    }
  }

  /** Once a peer is found every worker makes at most one more probe. */
  lemma FoundEndsSearch(n: nat, s: State, steps: seq<Step>)
    requires After(n, s, steps).Some? && s.found
    ensures |After(n, s, steps).value.probes| <= |s.probes| + |s.pcs|
  {
    FoundRun(n, s, steps);
    if s.pcs != [] {
      InFlightUpdate(s.pcs, 0, Done);
    }
  }

  /** A worker that sees a zero budget takes no further step, so it makes no further probe. */
  lemma {:induction false} ZeroBudgetStops(n: nat, s: State, w: nat, steps: seq<Step>)
    requires Enabled(s, CheckBudget(w, 0)) && After(n, Next(n, s, CheckBudget(w, 0)), steps).Some?
    ensures
      var t := After(n, Next(n, s, CheckBudget(w, 0)), steps).value;
      w < |t.pcs| && t.pcs[w].Done? && t.ranOut
    ensures forall k :: 0 <= k < |steps| ==> steps[k].w != w
  {
    if steps != [] {
      var before := steps[..|steps| - 1];
      ZeroBudgetStops(n, s, w, before);
      assert forall k :: 0 <= k < |before| ==> steps[k] == before[k];
    }
  }

  // ------------------------------------------------------------- termination

  function Rank(pc: Pc): nat {
    match pc
    case AtLoop => 2
    case Claiming => 1
    case Claimed(_) => 5
    case Probing(_) => 4
    case Answered(_) => 2
    case Writing(_) => 1
    case Done => 0
  }

  function Ranks(pcs: seq<Pc>): nat {
    if pcs == [] then 0 else Ranks(pcs[..|pcs| - 1]) + Rank(pcs[|pcs| - 1])
  }

  function Left(n: nat, s: State): nat {
    5 * (if s.nextIdx < n then n - s.nextIdx else 0) + Ranks(s.pcs)
  }

  lemma {:induction false} RanksUpdate(pcs: seq<Pc>, w: nat, pc: Pc)
    requires w < |pcs|
    ensures Ranks(pcs[w := pc]) + Rank(pcs[w]) == Ranks(pcs) + Rank(pc)
  {
    var n := |pcs| - 1;
    if w == n {
      assert pcs[w := pc][..n] == pcs[..n];
    } else {
      RanksUpdate(pcs[..n], w, pc);
      assert pcs[w := pc][..n] == pcs[..n][w := pc];
    }
  }

  lemma {:induction false} RanksAtStart(k: nat)
    ensures Ranks(seq(k, _ => AtLoop)) == 2 * k
  {
    if k > 0 {
      RanksAtStart(k - 1);
      assert seq(k, _ => AtLoop)[..k - 1] == seq(k - 1, _ => AtLoop);
    }
  }

  lemma StepUsesRank(n: nat, s: State, step: Step)
    requires Enabled(s, step)
    ensures Left(n, Next(n, s, step)) < Left(n, s)
  {
    hide Ranks;
    RanksUpdate(s.pcs, step.w, Next(n, s, step).pcs[step.w]);
  }

  lemma {:induction false} RunUsesRank(n: nat, s: State, steps: seq<Step>)
    requires After(n, s, steps).Some?
    ensures |steps| + Left(n, After(n, s, steps).value) <= Left(n, s)
  {
    hide Left, Next;
    if steps != [] {
      var before := steps[..|steps| - 1];
      RunUsesRank(n, s, before);
      StepUsesRank(n, After(n, s, before).value, steps[|steps| - 1]);
    }
  }

  lemma UnfinishedMoves(s: State, w: nat)
    requires w < |s.pcs| && !s.pcs[w].Done?
    ensures exists step :: Enabled(s, step)
  {
    match s.pcs[w]
    case AtLoop => assert Enabled(s, CheckFound(w));
    case Claiming => assert Enabled(s, Claim(w));
    case Claimed(_) => assert Enabled(s, CheckBudget(w, 0));
    case Probing(_) => assert Enabled(s, Finish(w, false));
    case Answered(_) => assert Enabled(s, Swap(w));
    case Writing(_) => assert Enabled(s, Write(w));
  }

  /** Every run ends within 5 steps a peer and 2 a worker, and can only end when all workers are done. */
  lemma RaceTerminates(n: nat, maxWorkers: nat, steps: seq<Step>)
    requires After(n, Start(n, maxWorkers), steps).Some?
    ensures |steps| <= 5 * n + 2 * Min(n, Clamp(maxWorkers))
    ensures
      var t := After(n, Start(n, maxWorkers), steps).value;
      !Joined(t) ==> exists step :: Enabled(t, step)
  {
    RunUsesRank(n, Start(n, maxWorkers), steps);
    RanksAtStart(Min(n, Clamp(maxWorkers)));
    var t := After(n, Start(n, maxWorkers), steps).value;
    if w :| 0 <= w < |t.pcs| && !t.pcs[w].Done? {
      UnfinishedMoves(t, w);
    }
  }
}
