/**
 Publishing with retries behind the breaker, failures going to the dead-letter queue.  The status
 of every attempt and every clock reading are parameters; publishes do not overlap.
 */
module Publisher {
  import opened Common
  import opened DeadLetters
  import opened Breakers

  /** How one attempt ends; infrastructure errors are worth a retry. */
  datatype Status = Acknowledged | InfraError | OtherError

  const MAX_RETRIES: nat := 3

  datatype Delivery = Delivery(acknowledged: bool, attempts: nat)

  /** One message, what the broker would answer to each attempt, and the clock when it is needed. */
  datatype Call = Call(subject: string, payload: string, level: string, service: string,
                       statuses: seq<Status>, now: int, failedAt: int, pushedAt: int)

  ghost predicate WellTimed(call: Call) {
    |call.statuses| == MAX_RETRIES && call.now <= call.failedAt <= call.pushedAt
  }

  /** Attempt k is the one that decides: everything before it was worth a retry. */
  ghost predicate Decides(statuses: seq<Status>, d: Delivery) {
    && 1 <= d.attempts <= |statuses|
    && (forall k :: 0 <= k < d.attempts - 1 ==> statuses[k].InfraError?)
    && (d.acknowledged <==> statuses[d.attempts - 1].Acknowledged?)
    && (statuses[d.attempts - 1].InfraError? ==> d.attempts == |statuses|)
  }

  lemma DecidedOnce(statuses: seq<Status>, d: Delivery, e: Delivery)
    requires Decides(statuses, d) && Decides(statuses, e)
    ensures d == e
  {
  }

  /** The number of leading attempts worth a retry. */
  function Retries(statuses: seq<Status>, k: nat): (n: nat)
    requires k <= |statuses|
    ensures k <= n <= |statuses|
    ensures forall i :: k <= i < n ==> statuses[i].InfraError?
    ensures n < |statuses| ==> !statuses[n].InfraError?
    decreases |statuses| - k
  {
    if k < |statuses| && statuses[k].InfraError? then Retries(statuses, k + 1) else k
  }

  function Delivered(statuses: seq<Status>): (d: Delivery)
    requires statuses != []
    ensures Decides(statuses, d)
  {
    var n := Retries(statuses, 0);
    if n == |statuses| then Delivery(false, n) else Delivery(statuses[n].Acknowledged?, n + 1)
  }

  /** The attempt that decides is the n-th: retryable errors before it, and then an end. */
  ghost predicate EndsAt(statuses: seq<Status>, n: nat) {
    && 1 <= n <= 3 && |statuses| == 3
    && (forall k :: 0 <= k < n - 1 ==> statuses[k] == InfraError)
    && (n == 3 || statuses[n - 1] != InfraError)
  }

  /** While open and within the probe interval nothing is attempted. */
  ghost predicate TooEarly(c: Settings, b: Breaker, call: Call) {
    b.state == Open && call.now - b.openSince < c.probeInterval
  }

  /**
   What one publish on a connected client does to the breaker (from b to d), to the list of
   letters it leaves behind, and what it answers.
   */
  ghost predicate PublishContract(c: Settings, b: Breaker, d: Breaker, call: Call, letters: seq<Entry>, ok: bool) {
    && (TooEarly(c, b, call) ==>
          && !ok && d == b
          && letters == [Entry(call.subject, call.payload, 0, call.pushedAt, call.level, call.service)])
    && (!TooEarly(c, b, call) ==> forall n: nat :: EndsAt(call.statuses, n) ==>
          && (ok <==> call.statuses[n - 1] == Acknowledged)
          && (ok ==> letters == [] && d == Breaker(Closed, 0, b.openSince))
          && (!ok ==> letters == [Entry(call.subject, call.payload, n, call.pushedAt, call.level, call.service)])
          && (!ok && b.state == Closed && b.failures + 1 < c.threshold ==> d == Breaker(Closed, b.failures + 1, b.openSince))
          && (!ok && (b.state != Closed || b.failures + 1 >= c.threshold) ==> d == Breaker(Open, b.failures + 1, call.failedAt)))
  }

  lemma DeliveredEnds(statuses: seq<Status>, n: nat)
    requires EndsAt(statuses, n)
    ensures Delivered(statuses) == Delivery(statuses[n - 1] == Acknowledged, n)
  {
    hide Retries;
    DecidedOnce(statuses, Delivery(statuses[n - 1] == Acknowledged, n), Delivered(statuses));
  }

  /** Some attempt decides. */
  lemma SomeAttemptEnds(statuses: seq<Status>) returns (n: nat)
    requires |statuses| == 3
    ensures EndsAt(statuses, n)
  {
    n := if statuses[0] != InfraError then 1 else if statuses[1] != InfraError then 2 else 3;
  }

  lemma PublishMeans(c: Settings, b: Breaker, call: Call)
    requires WellTimed(call)
    ensures PublishContract(c, b, Next(c, b, call), call, Dead(c, b, call), Dead(c, b, call) == [])
  {
    hide Delivered;
    forall n: nat | EndsAt(call.statuses, n)
      ensures Delivered(call.statuses) == Delivery(call.statuses[n - 1] == Acknowledged, n)
    {
      DeliveredEnds(call.statuses, n);
    }
  }

  /** An open breaker probes again: a publish one interval after opening that is acknowledged closes it. */
  lemma ProbeRecovers(c: Settings, b: Breaker, call: Call)
    requires WellTimed(call) && b.state == Open && call.now - b.openSince >= c.probeInterval
    requires call.statuses[0] == Acknowledged
    ensures Next(c, b, call) == Breaker(Closed, 0, b.openSince) && Dead(c, b, call) == []
  {
    hide Next, Dead;
    PublishMeans(c, b, call);
    assert EndsAt(call.statuses, 1);
  }

  class NatsClient {
    const breaker: CircuitBreaker
    const dlq: DeadLetterQueue
    var connected: bool

    ghost predicate Valid()
      reads this, dlq
    {
      dlq.Valid()
    }

    constructor (settings: Settings, capacity: nat)
      requires capacity > 0
      ensures Valid() && fresh(breaker) && fresh(dlq)
      ensures breaker.Value() == Breaker(Closed, 0, 0) && breaker.settings == settings && dlq.pushed == []
    {
      breaker := new CircuitBreaker(settings);
      dlq := new DeadLetterQueue(capacity);
      connected := false;
    }

    /** The retry loop: stops at the first acknowledgement, non-retryable error, or the last attempt. */
    method Attempt(statuses: seq<Status>) returns (acknowledged: bool, attempts: nat)
      requires |statuses| == MAX_RETRIES
      ensures Delivery(acknowledged, attempts) == Delivered(statuses)
    {
      var attempt := 1;
      while attempt <= MAX_RETRIES
        invariant 1 <= attempt <= MAX_RETRIES
        invariant forall k :: 0 <= k < attempt - 1 ==> statuses[k].InfraError?
        decreases MAX_RETRIES - attempt
      {
        var s := statuses[attempt - 1];
        if s.Acknowledged? {
          DecidedOnce(statuses, Delivery(true, attempt), Delivered(statuses));
          return true, attempt;
        }
        if !s.InfraError? || attempt == MAX_RETRIES {
          DecidedOnce(statuses, Delivery(false, attempt), Delivered(statuses));
          return false, attempt;
        }
        attempt := attempt + 1;
      }
    }

    method Publish(call: Call) returns (ok: bool)
      requires Valid() && WellTimed(call) && call.level == call.service == ""
      modifies breaker, dlq
      ensures Valid()
      ensures !connected ==> !ok && breaker.Value() == old(breaker.Value()) && dlq.pushed == old(dlq.pushed)
      ensures connected ==>
        && breaker.Value() == Next(breaker.settings, old(breaker.Value()), call)
        && dlq.pushed == old(dlq.pushed) + Dead(breaker.settings, old(breaker.Value()), call)
        && (ok <==> Dead(breaker.settings, old(breaker.Value()), call) == [])
      ensures connected ==>
        && old(dlq.pushed) <= dlq.pushed
        && PublishContract(breaker.settings, old(Breaker(breaker.state, breaker.failureCount, breaker.openSince)),
                           Breaker(breaker.state, breaker.failureCount, breaker.openSince),
                           call, dlq.pushed[|old(dlq.pushed)|..], ok)
    {
      if !connected {
        return false;
      }
      PublishMeans(breaker.settings, breaker.Value(), call);
      hide PublishContract, Next, Dead;
      ok := Guarded(call);
      assert dlq.pushed[|old(dlq.pushed)|..] == Dead(breaker.settings, old(breaker.Value()), call);
    }

    /** Log messages are dead-lettered even without a connection. */
    method PublishLog(call: Call)
      requires Valid() && WellTimed(call)
      modifies breaker, dlq
      ensures Valid()
      ensures !connected ==> breaker.Value() == old(breaker.Value())
      ensures !connected ==>
        dlq.pushed == old(dlq.pushed) + [Entry(call.subject, call.payload, 0, call.pushedAt, call.level, call.service)]
      ensures connected ==>
        && breaker.Value() == Next(breaker.settings, old(breaker.Value()), call)
        && dlq.pushed == old(dlq.pushed) + Dead(breaker.settings, old(breaker.Value()), call)
        && PublishContract(breaker.settings, old(Breaker(breaker.state, breaker.failureCount, breaker.openSince)),
                           Breaker(breaker.state, breaker.failureCount, breaker.openSince),
                           call, dlq.pushed[|old(dlq.pushed)|..], dlq.pushed == old(dlq.pushed))
    {
      if !connected {
        dlq.Push(Letter(call, 0));
        return;
      }
      PublishMeans(breaker.settings, breaker.Value(), call);
      hide PublishContract, Next, Dead;
      var ok := Guarded(call);
      assert dlq.pushed[|old(dlq.pushed)|..] == Dead(breaker.settings, old(breaker.Value()), call);
    }

    /** What both do when connected: ask the breaker, try, report, dead-letter. */
    method Guarded(call: Call) returns (ok: bool)
      requires Valid() && WellTimed(call)
      modifies breaker, dlq
      ensures Valid()
      ensures breaker.Value() == Next(breaker.settings, old(breaker.Value()), call)
      ensures dlq.pushed == old(dlq.pushed) + Dead(breaker.settings, old(breaker.Value()), call)
      ensures ok <==> Dead(breaker.settings, old(breaker.Value()), call) == []
    {
      var allowed := breaker.AllowAttempt(call.now);
      if !allowed {
        dlq.Push(Letter(call, 0));
        return false;
      }
      var acknowledged, attempts := Attempt(call.statuses);
      if acknowledged {
        breaker.RecordSuccess();
        return true;
      }
      breaker.RecordFailure(call.failedAt);
      dlq.Push(Letter(call, attempts));
      return false;
    }
  }

  // ------------------------------------------------------- publishes as steps

  function Letter(call: Call, attempts: nat): Entry {
    Entry(call.subject, call.payload, attempts, call.pushedAt, call.level, call.service)
  }

  predicate Reaches(c: Settings, b: Breaker, call: Call) {
    Admits(c, b, call.now)
  }

  ghost function Next(c: Settings, b: Breaker, call: Call): Breaker
    requires WellTimed(call)
  {
    if !Reaches(c, b, call) then b
    else if Delivered(call.statuses).acknowledged then Succeeded(Asked(c, b, call.now))
    else Failed(c, Asked(c, b, call.now), call.failedAt)
  }

  /** The letter a publish leaves behind, if it is not acknowledged. */
  ghost function Dead(c: Settings, b: Breaker, call: Call): (letters: seq<Entry>)
    requires WellTimed(call)
    ensures letters == [] <==> Reaches(c, b, call) && Delivered(call.statuses).acknowledged
    ensures letters != [] ==> exists n :: 0 <= n <= MAX_RETRIES && letters == [Letter(call, n)]
  {
    if !Reaches(c, b, call) then [Letter(call, 0)]
    else if Delivered(call.statuses).acknowledged then []
    else [Letter(call, Delivered(call.statuses).attempts)]
  }

  // -------------------------------------------------------------------- runs

  ghost predicate AllWellTimed(calls: seq<Call>) {
    forall i :: 0 <= i < |calls| ==> WellTimed(calls[i])
  }

  ghost function Run(c: Settings, b: Breaker, calls: seq<Call>): Breaker
    requires AllWellTimed(calls)
  {
    if calls == [] then b
    else
      var n := |calls| - 1;
      Next(c, Run(c, b, calls[..n]), calls[n])
  }

  ghost function Letters(c: Settings, b: Breaker, calls: seq<Call>): seq<Entry>
    requires AllWellTimed(calls)
  {
    if calls == [] then []
    else
      var n := |calls| - 1;
      Letters(c, b, calls[..n]) + Dead(c, Run(c, b, calls[..n]), calls[n])
  }

  ghost function Acks(c: Settings, b: Breaker, calls: seq<Call>): nat
    requires AllWellTimed(calls)
  {
    if calls == [] then 0
    else
      var n := |calls| - 1;
      Acks(c, b, calls[..n]) + if Dead(c, Run(c, b, calls[..n]), calls[n]) == [] then 1 else 0
  }

  ghost function ReachedBroker(c: Settings, b: Breaker, calls: seq<Call>): nat
    requires AllWellTimed(calls)
  {
    if calls == [] then 0
    else
      var n := |calls| - 1;
      ReachedBroker(c, b, calls[..n]) + if Reaches(c, Run(c, b, calls[..n]), calls[n]) then 1 else 0
  }

  /** Publishes that were attempted and failed since the last acknowledged one. */
  ghost function FailuresSince(c: Settings, b: Breaker, calls: seq<Call>): nat
    requires AllWellTimed(calls)
  {
    if calls == [] then 0
    else
      var n := |calls| - 1;
      var letters := Dead(c, Run(c, b, calls[..n]), calls[n]);
      if letters == [] then 0
      else FailuresSince(c, b, calls[..n]) + if letters[0].attempts >= 1 then 1 else 0
  }

  const FRESH := Breaker(Closed, 0, 0)

  /** Every publish is acknowledged or dead-lettered once: the two kinds add up to all publishes. */
  lemma {:induction false} AcknowledgedOrDead(c: Settings, b: Breaker, calls: seq<Call>)
    requires AllWellTimed(calls)
    ensures Acks(c, b, calls) + |Letters(c, b, calls)| == |calls|
    ensures forall k :: 0 <= k < |Letters(c, b, calls)| ==> 0 <= Letters(c, b, calls)[k].attempts <= MAX_RETRIES
  {
    if calls != [] {
      AcknowledgedOrDead(c, b, calls[..|calls| - 1]);
    }
  }

  /** Between calls the breaker is never half-open, counts the failures since the last success, and is open at the threshold. */
  lemma {:induction false} BreakerBetweenCalls(c: Settings, calls: seq<Call>)
    requires c.threshold >= 1 && AllWellTimed(calls)
    ensures
      var b := Run(c, FRESH, calls);
      && !b.state.HalfOpen?
      && b.failures == FailuresSince(c, FRESH, calls)
      && (b.state.Closed? <==> FailuresSince(c, FRESH, calls) < c.threshold)
  {
    if calls != [] {
      BreakerBetweenCalls(c, calls[..|calls| - 1]);
    }
  }

  // ------------------------------------------------------------------ outages

  /** No attempt is acknowledged. */
  ghost predicate Outage(calls: seq<Call>) {
    && AllWellTimed(calls)
    && forall i :: 0 <= i < |calls| ==> !Delivered(calls[i].statuses).acknowledged
  }

  lemma ProbeInOutage(c: Settings, b: Breaker, call: Call)
    requires WellTimed(call) && b.state.Open? && !Delivered(call.statuses).acknowledged
    ensures Next(c, b, call).state.Open?
    ensures Reaches(c, b, call) ==>
      call.now - b.openSince >= c.probeInterval && Next(c, b, call).openSince >= call.now
    ensures !Reaches(c, b, call) ==> Next(c, b, call) == b
  {
  }

  /** After opening, every publish that reaches the broker waits for one more probe interval. */
  lemma {:induction false} ProbesAreSpaced(c: Settings, b: Breaker, calls: seq<Call>, end: int)
    requires Outage(calls) && b.state.Open?
    requires forall i :: 0 <= i < |calls| ==> calls[i].now <= end
    ensures
      var k := ReachedBroker(c, b, calls);
      && Run(c, b, calls).state.Open?
      && Run(c, b, calls).openSince - b.openSince >= k * c.probeInterval
      && (k > 0 ==> k * c.probeInterval <= end - b.openSince)
  {
    hide Next, Reaches, Delivered;
    if calls != [] {
      var n := |calls| - 1;
      ProbesAreSpaced(c, b, calls[..n], end);
      var k := ReachedBroker(c, b, calls[..n]);
      ProbeInOutage(c, Run(c, b, calls[..n]), calls[n]);
      assert (k + 1) * c.probeInterval == k * c.probeInterval + c.probeInterval;
    }
  }

  lemma QuotientBound(k: nat, i: int, t: int)
    requires i > 0 && k * i <= t
    ensures k <= t / i
  {
    var q := t / i;
    assert (q + 1) * i == q * i + i > t;
    assert k >= q + 1 ==> k * i >= (q + 1) * i;
  }

  /** The letter a publish in an outage leaves behind. */
  lemma LetterInOutage(c: Settings, b: Breaker, call: Call)
    requires WellTimed(call) && b.state == Open && !Delivered(call.statuses).acknowledged
    ensures |Dead(c, b, call)| == 1
    ensures Dead(c, b, call)[0].attempts >= 1 <==> call.now - b.openSince >= c.probeInterval
    ensures Reaches(c, b, call) <==> Dead(c, b, call)[0].attempts >= 1
  {
    hide Next, Dead, Delivered, EndsAt;
    PublishMeans(c, b, call);
    var n := SomeAttemptEnds(call.statuses);
    AttemptsCount(call.statuses, n);
    DeliveredEnds(call.statuses, n);
  }

  lemma AttemptsCount(statuses: seq<Status>, n: nat)
    requires EndsAt(statuses, n)
    ensures 1 <= n <= 3 == |statuses|
  {
  }

  /** In an outage a publish is attempted if and only if one probe interval has passed since the last opening. */
  lemma {:induction false} OutageProbes(c: Settings, b: Breaker, calls: seq<Call>, k: nat)
    requires Outage(calls) && b.state == Open && k < |calls|
    ensures |Letters(c, b, calls)| == |calls|
    ensures Letters(c, b, calls)[k].attempts >= 1 <==>
            calls[k].now - Run(c, b, calls[..k]).openSince >= c.probeInterval
  {
    hide Next, Dead, Delivered;
    var n := |calls| - 1;
    ProbesAreSpaced(c, b, calls[..n], LatestNow(calls[..n]));
    LetterInOutage(c, Run(c, b, calls[..n]), calls[n]);
    if n > 0 {
      OutageProbes(c, b, calls[..n], if k < n then k else 0);
      assert k < n ==> calls[..n][..k] == calls[..k];
    }
  }

  ghost function LatestNow(calls: seq<Call>): (t: int)
    ensures forall i :: 0 <= i < |calls| ==> calls[i].now <= t
  {
    if calls == [] then 0
    else
      var before, last := LatestNow(calls[..|calls| - 1]), calls[|calls| - 1].now;
      if before < last then last else before
  }

  /** Letters of publishes that were attempted at least once. */
  ghost function Attempted(letters: seq<Entry>): nat {
    if letters == [] then 0
    else Attempted(letters[..|letters| - 1]) + if letters[|letters| - 1].attempts >= 1 then 1 else 0
  }

  /** In an outage those are the publishes that reached the broker. */
  lemma {:induction false} AttemptedReached(c: Settings, b: Breaker, calls: seq<Call>)
    requires Outage(calls) && b.state == Open
    ensures Attempted(Letters(c, b, calls)) == ReachedBroker(c, b, calls)
  {
    hide Next, Dead, Delivered, Reaches;
    if calls != [] {
      var n := |calls| - 1;
      var before := Letters(c, b, calls[..n]);
      AttemptedReached(c, b, calls[..n]);
      ProbesAreSpaced(c, b, calls[..n], LatestNow(calls[..n]));
      LetterInOutage(c, Run(c, b, calls[..n]), calls[n]);
      assert Letters(c, b, calls)[..|before|] == before;
    }
  }

  /** Within t of opening, an unbroken outage lets at most t / interval publishes reach the broker. */
  lemma OutageBound(c: Settings, b: Breaker, calls: seq<Call>, t: nat)
    requires c.probeInterval > 0 && Outage(calls) && b.state.Open?
    requires forall i :: 0 <= i < |calls| ==> calls[i].now <= b.openSince + t
    ensures Attempted(Letters(c, b, calls)) <= t / c.probeInterval
  {
    hide Run, ReachedBroker, Letters, Attempted;
    AttemptedReached(c, b, calls);
    ProbesAreSpaced(c, b, calls, b.openSince + t);
    if ReachedBroker(c, b, calls) > 0 {
      QuotientBound(ReachedBroker(c, b, calls), c.probeInterval, t);
    }
  }
}
