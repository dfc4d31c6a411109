/** The breaker and watchdog objects, updated field by field. */
module ResilienceObjects {
  import opened Common
  import R = Resilience

  class VenueCircuitBreaker {
    const failureThreshold: int
    const baseBackoff: real
    const maxBackoff: real
    var consecutiveFailures: nat
    var retryAt: real
    var rateLimited: bool
    var tripped: bool
    var lastFailureKind: Option<R.FailureKind>

    ghost function View(): R.Breaker
      reads this
    {
      R.Breaker(failureThreshold, baseBackoff, maxBackoff, consecutiveFailures, retryAt,
                rateLimited, tripped, lastFailureKind)
    }

    constructor (failureThreshold: int, baseBackoff: real, maxBackoff: real)
      ensures View() == R.Breaker(failureThreshold, baseBackoff, maxBackoff, 0, 0.0, false, false, None)
    {
      this.failureThreshold := failureThreshold;
      this.baseBackoff := baseBackoff;
      this.maxBackoff := maxBackoff;
      consecutiveFailures := 0;
      retryAt := 0.0;
      rateLimited := false;
      tripped := false;
      lastFailureKind := None;
    }

    predicate AllowRequest(now: real)
      reads this
    {
      now >= retryAt
    }

    method RecordFailure(now: real, error: R.VenueError) returns (delay: real)
      modifies this
      ensures View() == R.RecordFailure(old(View()), now, error)
      ensures delay == R.FailureDelay(old(View()), error)
    {
      consecutiveFailures := consecutiveFailures + 1;
      rateLimited := error.rateLimited;
      tripped := rateLimited || consecutiveFailures >= failureThreshold;
      lastFailureKind := Some(if rateLimited then R.RateLimit
                              else if error.timedOut then R.Timeout else R.Transport);
      var exponential := Min(baseBackoff * Pow2(consecutiveFailures - 1), maxBackoff);
      var headerDelay := 0.0;
      if rateLimited && error.retryAfter.Some? {
        headerDelay := Max(error.retryAfter.value, 0.0);
      }
      delay := Min(Max(exponential, headerDelay), maxBackoff);
      retryAt := now + delay;
    }

    method RecordSuccess()
      modifies this
      ensures View() == R.RecordSuccess(old(View()))
    {
      consecutiveFailures := 0;
      retryAt := 0.0;
      rateLimited := false;
      tripped := false;
      lastFailureKind := None;
    }

    // A controller-owned request: `outcome` is how the venue answers if it is started.
    method VenueRequest(now: real, outcome: Option<R.VenueError>) returns (started: bool)
      modifies this
      ensures View() == R.Request(old(View()), R.Call(now, outcome))
      ensures started == R.AllowRequest(old(View()), now)
    {
      if !AllowRequest(now) {
        return false;
      }
      if outcome.Some? {
        var delay := RecordFailure(now, outcome.value);
      } else {
        RecordSuccess();
      }
      return true;
    }
  }

  class QuoteLivenessWatchdog {
    const timeout: real
    const recoveryCooldown: real
    var missingSince: Option<real>
    var lastLiveAt: Option<real>
    var openUntil: real
    var trips: nat
    var expectedSides: set<R.Side>
    var liveSides: set<R.Side>

    ghost function View(): R.Watch
      reads this
    {
      R.Watch(timeout, recoveryCooldown, missingSince, lastLiveAt, openUntil, trips,
              expectedSides, liveSides)
    }

    constructor (timeout: real, recoveryCooldown: real)
      ensures View() == R.NewWatch(timeout, recoveryCooldown)
    {
      this.timeout := timeout;
      this.recoveryCooldown := recoveryCooldown;
      missingSince := None;
      lastLiveAt := None;
      openUntil := 0.0;
      trips := 0;
      expectedSides := {};
      liveSides := {};
    }

    predicate AllowQuotes(now: real)
      reads this
    {
      now >= openUntil
    }

    method Observe(now: real, expected: set<R.Side>, live: set<R.Side>) returns (open: bool)
      modifies this
      ensures (View(), open) == R.Observe(old(View()), now, expected, live)
    {
      expectedSides := expected;
      liveSides := live;
      if expected == {} {
        missingSince := None;
        return false;
      }
      if !AllowQuotes(now) {
        return true;
      }
      if openUntil != 0.0 {
        openUntil := 0.0;
        missingSince := None;
      }
      if expected <= live {
        lastLiveAt := Some(now);
        missingSince := None;
        return false;
      }
      if missingSince.None? {
        missingSince := Some(now);
        return false;
      }
      if now - missingSince.value < timeout {
        return false;
      }
      trips := trips + 1;
      openUntil := now + recoveryCooldown;
      return true;
    }

    method Suspend()
      modifies this
      ensures View() == R.Suspend(old(View()))
    {
      missingSince := None;
      expectedSides := {};
      liveSides := {};
    }

    method Trip(now: real, expected: set<R.Side>, live: set<R.Side>)
      modifies this
      ensures View() == R.Trip(old(View()), now, expected, live)
    {
      expectedSides := expected;
      liveSides := live;
      missingSince := None;
      trips := trips + 1;
      openUntil := Max(openUntil, now + recoveryCooldown);
    }
  }
}
