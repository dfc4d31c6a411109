/**
 The controller's safety primitives: the venue circuit breaker and the quote liveness
 watchdog, as transition functions with their properties over unbounded histories.
 */
module Resilience {
  import opened Common

  datatype Side = Buy | Sell

  // ---- Venue circuit breaker ------------------------------------------------------

  datatype FailureKind = RateLimit | Timeout | Transport

  // What the breaker reads off an exception.
  datatype VenueError = VenueError(rateLimited: bool, timedOut: bool, retryAfter: Option<real>)

  datatype Breaker = Breaker(
    threshold: int, base: real, max: real,
    failures: nat, retryAt: real, rateLimited: bool, tripped: bool, kind: Option<FailureKind>)

  function AllowRequest(b: Breaker, now: real): bool { now >= b.retryAt }

  // The delay after the k-th consecutive failure, before any venue header.
  function Exponential(b: Breaker, k: nat): real
    requires k >= 1
  {
    Min(b.base * Pow2(k - 1), b.max)
  }

  function FailureDelay(b: Breaker, error: VenueError): real {
    var header := if error.rateLimited && error.retryAfter.Some? then Max(error.retryAfter.value, 0.0) else 0.0;
    Min(Max(Exponential(b, b.failures + 1), header), b.max)
  }

  function RecordFailure(b: Breaker, now: real, error: VenueError): Breaker {
    b.(failures := b.failures + 1,
       rateLimited := error.rateLimited,
       tripped := error.rateLimited || b.failures + 1 >= b.threshold,
       kind := Some(if error.rateLimited then RateLimit else if error.timedOut then Timeout else Transport),
       retryAt := now + FailureDelay(b, error))
  }

  function RecordSuccess(b: Breaker): Breaker {
    b.(failures := 0, retryAt := 0.0, rateLimited := false, tripped := false, kind := None)
  }

  /** One controller-owned request: refused while the breaker blocks it, otherwise started
      at `now` and reported back. */
  datatype Call = Call(now: real, failure: Option<VenueError>)

  function Request(b: Breaker, call: Call): Breaker {
    if !AllowRequest(b, call.now) then b
    else if call.failure.Some? then RecordFailure(b, call.now, call.failure.value)
    else RecordSuccess(b)
  }

  // Start times of the failed requests since the last success.
  function Started(b: Breaker, times: seq<real>, call: Call): seq<real> {
    if !AllowRequest(b, call.now) then times
    else if call.failure.Some? then times + [call.now] else []
  }

  function Requests(b: Breaker, calls: seq<Call>): Breaker {
    if calls == [] then b else Request(Requests(b, calls[..|calls| - 1]), calls[|calls| - 1])
  }

  function FailureRun(b: Breaker, calls: seq<Call>): seq<real> {
    if calls == [] then []
    else
      var before := calls[..|calls| - 1];
      Started(Requests(b, before), FailureRun(b, before), calls[|calls| - 1])
  }

  // The least time between the first and the (k + 1)-th request of a failure run.
  function TotalBackoff(b: Breaker, k: nat): real {
    if k == 0 then 0.0 else TotalBackoff(b, k - 1) + Exponential(b, k)
  }

  predicate Fresh(b: Breaker) { b.failures == 0 && !b.tripped && !b.rateLimited && b.kind.None? }

  // The breaker's wait covers the backoff of the whole failure run.
  ghost predicate Waits(b: Breaker, now: Breaker, times: seq<real>) {
    && now.base == b.base && now.max == b.max && now.threshold == b.threshold
    && |times| == now.failures
    && (forall k: nat :: k < |times| ==> times[k] - times[0] >= TotalBackoff(b, k))
    && (times != [] ==> now.retryAt - times[0] >= TotalBackoff(b, |times|))
    && (times != [] ==> now.retryAt - times[|times| - 1] <= b.max)
  }

  lemma DelayBounds(b: Breaker, now: Breaker, error: VenueError)
    requires now.base == b.base && now.max == b.max
    ensures Exponential(b, now.failures + 1) <= FailureDelay(now, error) <= b.max
  {
  }

  lemma FailureWaits(b: Breaker, now: Breaker, times: seq<real>, at: real, error: VenueError)
    requires Waits(b, now, times) && AllowRequest(now, at)
    ensures Waits(b, RecordFailure(now, at, error), times + [at])
  {
    DelayBounds(b, now, error);
    hide Exponential, FailureDelay;
    var all := times + [at];
    assert TotalBackoff(b, |all|) == TotalBackoff(b, |times|) + Exponential(b, |all|);
    assert all[0] == if times == [] then at else times[0];
    forall k: nat | k < |all| ensures all[k] - all[0] >= TotalBackoff(b, k) {
      if k < |times| { assert all[k] == times[k]; }
    }
  }

  /** In any history of calls at any times, the k-th request of an unbroken failure run
      starts at least the summed backoff after its first, the next one must wait the same
      way, and no single wait exceeds the cap. */
  lemma {:induction false} BackoffSpacing(b: Breaker, calls: seq<Call>)
    requires Fresh(b)
    ensures Waits(b, Requests(b, calls), FailureRun(b, calls))
  {
    if calls != [] {
      var before := calls[..|calls| - 1];
      var call := calls[|calls| - 1];
      BackoffSpacing(b, before);
      if AllowRequest(Requests(b, before), call.now) && call.failure.Some? {
        FailureWaits(b, Requests(b, before), FailureRun(b, before), call.now, call.failure.value);
      }
    }
  }

  /** After every call the tripped flag says exactly whether the last failure was a rate
      limit or the run of failures has reached the threshold. */
  lemma {:induction false} TrippedExactly(b: Breaker, calls: seq<Call>)
    requires Fresh(b)
    ensures var now := Requests(b, calls);
            && (now.tripped <==> now.failures > 0 && (now.rateLimited || now.failures >= b.threshold))
            && (now.rateLimited <==> now.kind == Some(RateLimit))
            && (now.failures == 0 <==> now.kind.None?)
            && now.threshold == b.threshold
  {
    if calls != [] {
      TrippedExactly(b, calls[..|calls| - 1]);
    }
  }

  /** Below the cap the backoff is geometric: after k failures the run has lasted at
      least base * (2^k - 1). */
  lemma {:induction false} BackoffIsGeometric(b: Breaker, k: nat)
    requires k >= 1 ==> b.base * Pow2(k - 1) <= b.max
    requires b.base >= 0.0
    ensures TotalBackoff(b, k) == b.base * (Pow2(k) - 1.0)
  {
    if k >= 1 {
      if k >= 2 {
        Pow2Positive(k - 2);
        Doubling(b.base, Pow2(k - 2));
      }
      BackoffIsGeometric(b, k - 1);
      Doubling(b.base, Pow2(k - 1));
    }
  }

  lemma Doubling(base: real, p: real)
    ensures base * (p - 1.0) + base * p == base * (2.0 * p - 1.0)
    ensures base >= 0.0 && p >= 0.0 ==> base * p <= base * (2.0 * p)
  {
    assert base * (2.0 * p) == base * p + base * p;
  }

  lemma {:induction false} Pow2Positive(n: nat)
    ensures Pow2(n) >= 1.0
  {
    if n > 0 { Pow2Positive(n - 1); }
  }

  // The delay a venue asks for; only a rate limit carries one.
  function Asked(error: VenueError): real {
    if error.rateLimited && error.retryAfter.Some? && error.retryAfter.value > 0.0 then error.retryAfter.value else 0.0
  }

  function Doubled(base: real, k: nat): real { base * Pow2(k) }

  /** In any history: after the k-th failure in a row the next request is allowed exactly from
      the failure plus base * 2^(k-1), or plus what the venue asks for if that is longer, but
      never later than the cap; after a success at once. */
  lemma RetriedExactly(b: Breaker, calls: seq<Call>, call: Call, later: real)
    requires Fresh(b) && AllowRequest(Requests(b, calls), call.now)
    ensures var k := |FailureRun(b, calls + [call])|; var after := Requests(b, calls + [call]);
            && (call.failure.None? ==> k == 0 && (later >= 0.0 ==> AllowRequest(after, later)))
            && (call.failure.Some? ==>
                  k >= 1
                  && (AllowRequest(after, later) <==>
                      later >= call.now + Min(Max(Doubled(b.base, k - 1), Asked(call.failure.value)), b.max)))
  {
    hide Waits, FailureDelay, Doubled, Asked;
    RunLength(b, calls);
    var now := Requests(b, calls);
    assert (calls + [call])[..|calls|] == calls;
    if call.failure.Some? { DelayExactly(b, now, call.failure.value, now.failures); }
  }

  lemma RunLength(b: Breaker, calls: seq<Call>)
    requires Fresh(b)
    ensures var now := Requests(b, calls);
            now.base == b.base && now.max == b.max && |FailureRun(b, calls)| == now.failures
  {
    BackoffSpacing(b, calls);
  }

  lemma DelayExactly(b: Breaker, now: Breaker, error: VenueError, k: nat)
    requires now.base == b.base && now.max == b.max && now.failures == k
    ensures FailureDelay(now, error) == Min(Max(Doubled(b.base, k), Asked(error)), b.max)
  {
    assert Exponential(now, k + 1) == Min(Doubled(b.base, k), b.max);
    hide Exponential, Doubled;
  }

  /** A rate-limit header is honoured up to the cap: no request starts earlier. */
  lemma RetryAfterHonoured(b: Breaker, now: real, error: VenueError, later: real)
    requires error.rateLimited && error.retryAfter.Some?
    requires AllowRequest(RecordFailure(b, now, error), later)
    ensures later - now >= Min(error.retryAfter.value, b.max)
  {
  }

  // ---- Quote liveness watchdog ------------------------------------------------------

  datatype Watch = Watch(
    timeout: real, cooldown: real,
    missingSince: Option<real>, lastLiveAt: Option<real>, openUntil: real, trips: nat,
    expected: set<Side>, live: set<Side>)

  predicate AllowQuotes(w: Watch, now: real) { now >= w.openUntil }

  // The watchdog after an observation, and whether it reports the circuit open.
  function Observe(w: Watch, now: real, expected: set<Side>, live: set<Side>): (Watch, bool) {
    var w0 := w.(expected := expected, live := live);
    if expected == {} then (w0.(missingSince := None), false)
    else if !AllowQuotes(w0, now) then (w0, true)
    else
      var w1 := if w0.openUntil != 0.0 then w0.(openUntil := 0.0, missingSince := None) else w0;
      if expected <= live then (w1.(lastLiveAt := Some(now), missingSince := None), false)
      else if w1.missingSince.None? then (w1.(missingSince := Some(now)), false)
      else if now - w1.missingSince.value < w1.timeout then (w1, false)
      else (w1.(trips := w1.trips + 1, openUntil := now + w1.cooldown), true)
  }

  function Suspend(w: Watch): Watch {
    w.(missingSince := None, expected := {}, live := {})
  }

  function Trip(w: Watch, now: real, expected: set<Side>, live: set<Side>): Watch {
    w.(expected := expected, live := live, missingSince := None, trips := w.trips + 1,
       openUntil := Max(w.openUntil, now + w.cooldown))
  }

  function NewWatch(timeout: real, cooldown: real): Watch {
    Watch(timeout, cooldown, None, None, 0.0, 0, {}, {})
  }

  datatype WatchOp =
    | Observed(now: real, expected: set<Side>, live: set<Side>)
    | Suspended
    | Tripped(now: real, expected: set<Side>, live: set<Side>)

  function ApplyOp(w: Watch, op: WatchOp): Watch {
    match op
    case Observed(now, expected, live) => Observe(w, now, expected, live).0
    case Suspended => Suspend(w)
    case Tripped(now, expected, live) => Trip(w, now, expected, live)
  }

  function Watched(w: Watch, ops: seq<WatchOp>): Watch {
    if ops == [] then w else ApplyOp(Watched(w, ops[..|ops| - 1]), ops[|ops| - 1])
  }

  // An observation that misses an expected side.
  predicate Missing(op: WatchOp) { op.Observed? && op.expected != {} && !(op.expected <= op.live) }

  // The observation itself opens the circuit.
  predicate FreshTrip(w: Watch, op: WatchOp) { op.Observed? && ApplyOp(w, op).trips > w.trips }

  // Time does not run backwards.
  ghost predicate Ordered(ops: seq<WatchOp>) {
    forall i, j | 0 <= i < j < |ops| && !ops[i].Suspended? && !ops[j].Suspended? :: ops[i].now <= ops[j].now
  }

  // The clock reads a positive time.
  ghost predicate Positive(ops: seq<WatchOp>) {
    forall i :: 0 <= i < |ops| && !ops[i].Suspended? ==> ops[i].now > 0.0
  }

  ghost predicate StreakFrom(ops: seq<WatchOp>, k: nat, since: real) {
    && k < |ops| && Missing(ops[k]) && ops[k].now == since
    && forall i :: k <= i < |ops| ==> Missing(ops[i])
  }

  // While the circuit is closed, the timer marks an unbroken streak of missing observations.
  lemma {:induction false} MissingSinceIsStreak(w: Watch, ops: seq<WatchOp>)
    requires w == NewWatch(w.timeout, w.cooldown) && w.cooldown >= 0.0
    requires Ordered(ops) && (w.timeout > 0.0 || Positive(ops))
    ensures var u := Watched(w, ops);
            && u.timeout == w.timeout && u.cooldown == w.cooldown && u.openUntil >= 0.0
            && (u.missingSince.Some? ==> u.missingSince.value >= 0.0)
            && (u.missingSince.Some? && u.openUntil == 0.0 ==>
                  exists k: nat :: StreakFrom(ops, k, u.missingSince.value))
  {
    if ops != [] {
      var before := ops[..|ops| - 1];
      var op := ops[|ops| - 1];
      MissingSinceIsStreak(w, before);
      var v := Watched(w, before);
      var u := Watched(w, ops);
      if u.missingSince.Some? && u.openUntil == 0.0 {
        if v.missingSince.Some? && v.openUntil == 0.0 {
          var k: nat :| StreakFrom(before, k, v.missingSince.value);
          assert ops[k] == before[k];
          assert Missing(op);
          assert StreakFrom(ops, k, u.missingSince.value);
        } else {
          assert Missing(op);
          assert StreakFrom(ops, |ops| - 1, op.now);
        }
      }
    }
  }

  /** An observation opens the circuit only after an unbroken streak of observations, all
      missing an expected side and with no suspension or explicit trip between them, that
      spans at least the timeout. */
  lemma TripNeedsStreak(w: Watch, ops: seq<WatchOp>, op: WatchOp)
    requires w == NewWatch(w.timeout, w.cooldown) && w.cooldown >= 0.0
    requires w.timeout > 0.0 || Positive(ops + [op])
    requires Ordered(ops + [op]) && FreshTrip(Watched(w, ops), op)
    ensures exists k: nat, since: real :: StreakFrom(ops + [op], k, since) && op.now - since >= w.timeout
  {
    var all := ops + [op];
    assert forall i :: 0 <= i < |ops| ==> all[i] == ops[i];
    assert all[|ops|] == op;
    MissingSinceIsStreak(w, ops);
    var v := Watched(w, ops);
    var k: nat :| StreakFrom(ops, k, v.missingSince.value);
    assert StreakFrom(all, k, v.missingSince.value);
  }

  /** Conversely, from a closed and idle watchdog, a streak of missing observations trips
      at the first one that is at least the timeout after its start, and not before. */
  lemma {:induction false} StreakTrips(w: Watch, ops: seq<WatchOp>, op: WatchOp)
    requires w.missingSince.None? && w.openUntil == 0.0
    requires ops != [] && Ordered(ops + [op]) && Missing(op) && Missing(ops[0]) && ops[0].now >= 0.0
    requires forall i :: 1 <= i < |ops| ==> Missing(ops[i]) && ops[i].now - ops[0].now < w.timeout
    ensures var v := Watched(w, ops);
            && v.missingSince == Some(ops[0].now) && v.openUntil == 0.0 && v.trips == w.trips
            && v.timeout == w.timeout
            && (FreshTrip(v, op) <==> op.now - ops[0].now >= w.timeout)
  {
    var all := ops + [op];
    assert forall i :: 0 <= i < |ops| ==> all[i] == ops[i];
    assert all[|ops|] == op;
    var before := ops[..|ops| - 1];
    if before != [] {
      assert before + [ops[|ops| - 1]] == ops;
      StreakTrips(w, before, ops[|ops| - 1]);
    } else {
      assert Watched(w, before) == w;
    }
  }

  /** Once the circuit opens, by observation or explicitly, it stays open for the whole
      cooldown whatever happens meanwhile. */
  lemma {:induction false} CooldownHolds(w: Watch, start: real, ops: seq<WatchOp>, now: real)
    requires w.openUntil >= start + w.cooldown
    requires forall i :: 0 <= i < |ops| && !ops[i].Suspended? ==> start <= ops[i].now < start + w.cooldown
    requires now < start + w.cooldown
    ensures Watched(w, ops).cooldown == w.cooldown
    ensures Watched(w, ops).openUntil >= start + w.cooldown
    ensures !AllowQuotes(Watched(w, ops), now)
  {
    if ops != [] {
      CooldownHolds(w, start, ops[..|ops| - 1], now);
    }
  }

  lemma OpensForCooldown(w: Watch, op: WatchOp)
    requires FreshTrip(w, op) || op.Tripped?
    ensures ApplyOp(w, op).openUntil >= op.now + w.cooldown
  {
  }

  /** Quotes are allowed again exactly once the cooldown of an observed trip is over, or of an
      explicit one and whatever it extends; nothing else keeps them away longer, and an
      observation reports the circuit open exactly when it is, or when it trips. */
  lemma AllowedExactly(w: Watch, op: WatchOp, later: real)
    requires w.openUntil >= 0.0 && later >= 0.0 && (op.Observed? ==> op.now <= later)
    ensures var u := ApplyOp(w, op);
            AllowQuotes(u, later) <==>
              if FreshTrip(w, op) then later >= op.now + w.cooldown
              else if op.Tripped? then later >= w.openUntil && later >= op.now + w.cooldown
              else later >= w.openUntil
    ensures op.Observed? ==>
              (Observe(w, op.now, op.expected, op.live).1 <==>
               op.expected != {} && (op.now < w.openUntil || FreshTrip(w, op)))
  {
  }

  // After a trip at `tripped`, until the circuit has closed again no new timer starts
  // before the cooldown has passed.
  ghost predicate Spaced(u: Watch, tripped: real, cooldown: real, clock: real) {
    && u.cooldown == cooldown
    && (u.openUntil != 0.0 ==> u.openUntil >= tripped + cooldown)
    && (u.openUntil == 0.0 ==>
          clock >= tripped + cooldown
          && (u.missingSince.Some? ==> u.missingSince.value >= tripped + cooldown))
  }

  function LastTime(ops: seq<WatchOp>, start: real): real {
    if ops == [] then start
    else if ops[|ops| - 1].Suspended? then LastTime(ops[..|ops| - 1], start)
    else ops[|ops| - 1].now
  }

  lemma {:induction false} LastTimeBound(ops: seq<WatchOp>, start: real, now: real)
    requires start <= now
    requires forall i :: 0 <= i < |ops| && !ops[i].Suspended? ==> ops[i].now <= now
    ensures LastTime(ops, start) <= now
  {
    if ops != [] && ops[|ops| - 1].Suspended? {
      LastTimeBound(ops[..|ops| - 1], start, now);
    }
  }

  lemma {:induction false} SpacedKept(u: Watch, tripped: real, ops: seq<WatchOp>)
    requires tripped > 0.0 && u.cooldown >= 0.0 && u.openUntil == tripped + u.cooldown
    requires Ordered(ops)
    requires forall i :: 0 <= i < |ops| ==> !ops[i].Tripped? && (ops[i].Observed? ==> ops[i].now >= tripped)
    ensures Spaced(Watched(u, ops), tripped, u.cooldown, LastTime(ops, tripped))
    ensures Watched(u, ops).timeout == u.timeout
    ensures LastTime(ops, tripped) >= tripped
  {
    if ops != [] {
      var before := ops[..|ops| - 1];
      var op := ops[|ops| - 1];
      SpacedKept(u, tripped, before);
      if op.Observed? {
        LastTimeBound(before, tripped, op.now);
      }
    }
  }

  lemma OrderedMiddle(first: WatchOp, ops: seq<WatchOp>, second: WatchOp)
    requires Ordered([first] + ops + [second]) && !first.Suspended? && !second.Suspended?
    ensures Ordered(ops) && first.now <= second.now
    ensures forall i :: 0 <= i < |ops| && !ops[i].Suspended? ==> first.now <= ops[i].now <= second.now
  {
    var all := [first] + ops + [second];
    assert all[0] == first && all[|ops| + 1] == second;
    assert forall i :: 0 <= i < |ops| ==> all[i + 1] == ops[i];
  }

  lemma FirstTrip(v: Watch, op: WatchOp)
    requires FreshTrip(v, op) && (v.timeout > 0.0 || op.now > 0.0) && v.cooldown >= 0.0
    requires v.missingSince.Some? ==> v.missingSince.value >= 0.0
    ensures op.now > 0.0
    ensures var u := ApplyOp(v, op);
            u.openUntil == op.now + v.cooldown && u.cooldown == v.cooldown && u.timeout == v.timeout
  {
  }

  lemma SecondTrip(v: Watch, tripped: real, clock: real, op: WatchOp)
    requires Spaced(v, tripped, v.cooldown, clock) && FreshTrip(v, op) && clock <= op.now
    ensures op.now - tripped >= v.cooldown + v.timeout
  {
  }

  /** With a positive timeout or a positive clock, and without explicit trips in between,
      any two trips are at least cooldown plus timeout apart, whatever was observed before
      the first. */
  lemma {:induction false} TripSpacing(
      w: Watch, before: seq<WatchOp>, first: WatchOp, ops: seq<WatchOp>, second: WatchOp)
    requires w == NewWatch(w.timeout, w.cooldown) && w.cooldown >= 0.0
    requires w.timeout > 0.0 || (Positive(before) && !first.Suspended? && first.now > 0.0)
    requires Ordered(before) && Ordered([first] + ops + [second])
    requires FreshTrip(Watched(w, before), first)
    requires forall i :: 0 <= i < |ops| ==> !ops[i].Tripped?
    requires FreshTrip(Watched(ApplyOp(Watched(w, before), first), ops), second)
    ensures second.now - first.now >= w.cooldown + w.timeout
  {
    var v := Watched(w, before);
    var u := ApplyOp(v, first);
    MissingSinceIsStreak(w, before);
    FirstTrip(v, first);
    hide ApplyOp, Watched, Spaced, NewWatch;
    OrderedMiddle(first, ops, second);
    SpacedKept(u, first.now, ops);
    LastTimeBound(ops, first.now, second.now);
    SecondTrip(Watched(u, ops), first.now, LastTime(ops, first.now), second);
  }
}
