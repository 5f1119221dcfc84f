/** The circuit breaker that guards publishing. */
module Breakers {
  import opened Common

  datatype BreakerState = Closed | Open | HalfOpen

  datatype Settings = Settings(threshold: int, probeInterval: int)

  datatype Breaker = Breaker(state: BreakerState, failures: nat, openSince: int)

  predicate Admits(c: Settings, b: Breaker, now: int) {
    !b.state.Open? || now - b.openSince >= c.probeInterval
  }

  /** Asking for an attempt turns an open breaker whose interval has passed half-open. */
  function Asked(c: Settings, b: Breaker, now: int): Breaker {
    if b.state.Open? && Admits(c, b, now) then b.(state := HalfOpen) else b
  }

  function Succeeded(b: Breaker): Breaker {
    b.(state := Closed, failures := 0)
  }

  function Failed(c: Settings, b: Breaker, now: int): Breaker {
    if b.state.HalfOpen? || (b.state.Closed? && b.failures + 1 >= c.threshold)
    then Breaker(Open, b.failures + 1, now)
    else b.(failures := b.failures + 1)
  }

  class CircuitBreaker {
    const settings: Settings
    var state: BreakerState
    var failureCount: nat
    var openSince: int

    ghost function Value(): Breaker
      reads this
    {
      Breaker(state, failureCount, openSince)
    }

    constructor (settings: Settings)
      ensures this.settings == settings && Value() == Breaker(Closed, 0, 0)
    {
      this.settings := settings;
      state := Closed;
      failureCount := 0;
      openSince := 0;
    }

    method TransitionToOpen(now: int)
      modifies this`state, this`openSince
      ensures state == Open && openSince == now
    {
      openSince := now;
      state := Open;
    }

    method AllowAttempt(now: int) returns (ok: bool)
      modifies this`state
      ensures ok == Admits(settings, old(Value()), now)
      ensures Value() == Asked(settings, old(Value()), now)
      ensures ok <==> old(state) != Open || now >= old(openSince) + settings.probeInterval
      ensures state == if old(state) == Open && ok then HalfOpen else old(state)
    {
      if state.Closed? {
        return true;
      }
      if state.Open? {
        if now - openSince >= settings.probeInterval {
          state := HalfOpen;
          return true;
        }
        return false;
      }
      return true;
    }

    method RecordSuccess()
      modifies this`state, this`failureCount
      ensures Value() == Succeeded(old(Value())) && state == Closed && failureCount == 0
    {
      failureCount := 0;
      state := Closed;
    }

    method RecordFailure(now: int)
      modifies this`state, this`failureCount, this`openSince
      ensures Value() == Failed(settings, old(Value()), now) && failureCount == old(failureCount) + 1
      ensures
        if old(state) == HalfOpen || (old(state) == Closed && failureCount >= settings.threshold)
        then state == Open && openSince == now
        else state == old(state) && openSince == old(openSince)
    {
      failureCount := failureCount + 1;
      if state.HalfOpen? {
        TransitionToOpen(now);
        return;
      }
      if state.Closed? && failureCount >= settings.threshold {
        TransitionToOpen(now);
      }
    }
  }
}
