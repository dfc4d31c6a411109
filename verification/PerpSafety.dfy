/**
 Whole-run guarantees of the controller: quotes and closes never overlap, a refresh that
 does not finish in time opens the circuit, and no quote is placed while a de-risking
 intent is latched.
 */
module PerpSafety {
  import opened Common
  import opened Resilience
  import opened PerpBridge
  import opened PerpMM
  import PA = PassiveAggressive
  import PASafety = PassiveAggressiveSafety
  import PARuns = PassiveAggressiveRuns
  import PATheorems = PassiveAggressiveTheorems
  import Stop = PortfolioStop

  // ---- What one cycle creates -----------------------------------------------------------

  // At most one of each side, the bid first.
  predicate SpecsPerSide(specs: seq<OrderSpec>) {
    |specs| <= 2 && (|specs| == 2 ==> specs[0].side == Buy && specs[1].side == Sell)
  }

  predicate OneQuotePerSide(configs: seq<ExecutorConfig>) {
    && |configs| <= 2
    && (forall k :: 0 <= k < |configs| ==> configs[k].Maker?)
    && (|configs| == 2 ==> configs[0].side == Buy && configs[1].side == Sell)
  }

  lemma ExecutablePerSide(rules: Rules, specs: seq<OrderSpec>)
    requires SpecsPerSide(specs)
    ensures SpecsPerSide(ExecutableSpecs(rules, specs))
  {
    if |specs| >= 1 {
      var tail := specs[1..];
      assert |tail| == 1 ==> tail[1..] == [] && tail[0] == specs[1];
      assert ExecutableSpecs(rules, []) == [];
      assert ExecutableSpecs(rules, tail) ==
             if |tail| == 1 && Executable(rules, tail[0]) then [tail[0]] else [];
    }
  }

  lemma CreatesPerSide(cfg: Settings, i: Inputs, specs: seq<OrderSpec>)
    requires SpecsPerSide(specs)
    ensures OneQuotePerSide(CreateQuotes(cfg, i, specs))
  {
    if |specs| >= 1 {
      var tail := specs[1..];
      assert |tail| == 1 ==> tail[1..] == [] && tail[0] == specs[1];
      assert CreateQuotes(cfg, i, []) == [];
      if |tail| == 1 {
        var created := CreateQuote(cfg, i, tail[0]);
        assert CreateQuotes(cfg, i, tail) == if created.Some? then [created.value] else [];
      }
    }
  }

  // Quotes are created only when nothing is active, a close only when no quote is.
  ghost predicate SafeCreates(active: seq<Executor>, creates: seq<ExecutorConfig>) {
    || creates == []
    || (active == [] && OneQuotePerSide(creates))
    || (|creates| == 1 && !creates[0].Maker? && forall e :: e in active ==> !IsQuote(e))
  }

  /** A cycle creates quotes only when no executor is active, at most one per side, and a
      close only when no quote is active, and then only one. */
  lemma CycleCreatesSafely(cfg: Settings, c: Ctrl, intent: Option<Intent>, i: Inputs)
    ensures SafeCreates(i.active, Determine(cfg, c, intent, i).creates)
    ensures (exists m :: m in Determine(cfg, c, intent, i).creates && m.Maker?) ==> Quoting(intent)
  {
    hide CreateQuotes, ExecutableSpecs, ToOrderSpecs, MinChild, LiveSides, Trip, Observe, OneQuotePerSide, StopsExcept,
         KeepQuotes, Quotes, Closes, ToExecutionRequest, FailsafeRequest, DataTooOld, SpecSides;
    QuotesOf(i.active);
    SpecsCreateSafely(cfg, i, intent);
  }

  lemma SpecsCreateSafely(cfg: Settings, i: Inputs, intent: Option<Intent>)
    ensures OneQuotePerSide(CreateQuotes(cfg, i, ExecutableSpecs(i.rules, ToOrderSpecs(intent))))
  {
    hide CreateQuotes, ExecutableSpecs;
    ExecutablePerSide(i.rules, ToOrderSpecs(intent));
    CreatesPerSide(cfg, i, ExecutableSpecs(i.rules, ToOrderSpecs(intent)));
  }

  // ---- The system ---------------------------------------------------------------------------

  datatype System = System(client: Client, ctrl: Ctrl, active: seq<Executor>, nextId: int)

  // A step of the run: the client hears positions or intents, the controller runs a cycle,
  // or the executors move on (terminate, receive order ids).
  datatype Move =
    | ClientMove(op: ClientOp)
    | Cycle(inputs: Inputs)
    | ExecutorsMove(active: seq<Executor>)

  function Launch(configs: seq<ExecutorConfig>, nextId: int): seq<Executor> {
    seq(|configs|, k requires 0 <= k < |configs| => Executor(nextId + k, configs[k], false, None))
  }

  function Decide(cfg: Settings, s: System, i: Inputs): Outcome {
    Determine(cfg, s.ctrl, s.client.lastIntent, i)
  }

  function Advance(cfg: Settings, s: System, m: Move): System {
    match m
    case ClientMove(op) => s.(client := ApplyClient(s.client, op))
    case Cycle(i) =>
      var o := Decide(cfg, s, i);
      s.(ctrl := o.ctrl, active := s.active + Launch(o.creates, s.nextId), nextId := s.nextId + |o.creates|)
    case ExecutorsMove(active) => s.(active := active)
  }

  // A cycle sees every executor that has not terminated; executors only disappear or
  // update their order ids, they keep their configuration.
  predicate Possible(s: System, m: Move) {
    match m
    case ClientMove(_) => true
    case Cycle(i) => i.active == s.active
    case ExecutorsMove(active) =>
      && (forall e :: e in active ==> exists was :: was in s.active && was.id == e.id && was.config == e.config)
      && (forall j, k :: 0 <= j < k < |active| ==> active[j].id != active[k].id)
  }

  ghost predicate PossibleRun(cfg: Settings, s: System, ms: seq<Move>) {
    ms == []
    || (PossibleRun(cfg, s, ms[..|ms| - 1]) && Possible(RunSystem(cfg, s, ms[..|ms| - 1]), ms[|ms| - 1]))
  }

  function RunSystem(cfg: Settings, s: System, ms: seq<Move>): System {
    if ms == [] then s else Advance(cfg, RunSystem(cfg, s, ms[..|ms| - 1]), ms[|ms| - 1])
  }

  predicate AtRest(s: System) {
    s.active == [] && !s.ctrl.pending && s.ctrl.cancelStarted.None?
  }

  // ---- Quote/close exclusion --------------------------------------------------------------------

  /** Either only quotes, at most one per side, or only closes. */
  predicate Exclusive(active: seq<Executor>) {
    && ((forall e :: e in active ==> IsQuote(e)) || (forall e :: e in active ==> !IsQuote(e)))
    && (forall a, b | a in active && b in active && IsQuote(a) && IsQuote(b)
                      && a.config.side == b.config.side :: a.id == b.id)
  }

  predicate Identified(s: System) {
    && (forall j, k :: 0 <= j < k < |s.active| ==> s.active[j].id != s.active[k].id)
    && (forall e :: e in s.active ==> e.id < s.nextId)
  }

  lemma LaunchQuotes(creates: seq<ExecutorConfig>, nextId: int)
    requires OneQuotePerSide(creates)
    ensures Exclusive(Launch(creates, nextId))
  {
    var launched := Launch(creates, nextId);
    forall e | e in launched ensures IsQuote(e) {
      var k :| 0 <= k < |launched| && launched[k] == e;
      assert creates[k].Maker?;
    }
    forall a, b | a in launched && b in launched && a.config.side == b.config.side ensures a.id == b.id {
      var j :| 0 <= j < |launched| && launched[j] == a;
      var k :| 0 <= k < |launched| && launched[k] == b;
      assert launched[j].config == creates[j] && launched[k].config == creates[k];
    }
  }

  lemma LaunchIdentified(active: seq<Executor>, creates: seq<ExecutorConfig>, s: System)
    requires Identified(s) && active == s.active
    ensures Identified(s.(active := active + Launch(creates, s.nextId), nextId := s.nextId + |creates|))
  {
    var all := active + Launch(creates, s.nextId);
    forall j, k | 0 <= j < k < |all| ensures all[j].id != all[k].id {
      if j < |active| { assert active[j] in active; }
    }
  }

  lemma CycleExclusive(cfg: Settings, s: System, i: Inputs)
    requires Exclusive(s.active) && Identified(s) && i.active == s.active
    ensures Exclusive(Advance(cfg, s, Cycle(i)).active) && Identified(Advance(cfg, s, Cycle(i)))
  {
    CycleCreatesSafely(cfg, s.ctrl, s.client.lastIntent, i);
    var creates := Decide(cfg, s, i).creates;
    hide Determine;
    LaunchIdentified(s.active, creates, s);
    var launched := Launch(creates, s.nextId);
    if creates == [] {
      assert s.active + launched == s.active;
    } else if s.active == [] && OneQuotePerSide(creates) {
      LaunchQuotes(creates, s.nextId);
      assert s.active + launched == launched;
    } else {
      assert forall e :: e in launched ==> e == launched[0];
    }
  }

  lemma MoveExclusive(s: System, active: seq<Executor>)
    requires Exclusive(s.active) && Identified(s) && Possible(s, ExecutorsMove(active))
    ensures Exclusive(active) && Identified(s.(active := active))
  {
  }

  /** Along every run the active executors are either only quotes, at most one a side, or
      only closes. */
  lemma {:induction false} QuoteCloseExclusion(cfg: Settings, s: System, ms: seq<Move>)
    requires AtRest(s) && PossibleRun(cfg, s, ms)
    ensures Exclusive(RunSystem(cfg, s, ms).active) && Identified(RunSystem(cfg, s, ms))
  {
    if ms != [] {
      var before := ms[..|ms| - 1];
      QuoteCloseExclusion(cfg, s, before);
      match ms[|ms| - 1]
      case ClientMove(_) =>
      case Cycle(i) => CycleExclusive(cfg, RunSystem(cfg, s, before), i);
      case ExecutorsMove(active) => MoveExclusive(RunSystem(cfg, s, before), active);
    }
  }

  // ---- Bounded cancellation -----------------------------------------------------------------------

  ghost predicate CancelTracked(c: Ctrl) { c.pending ==> c.cancelStarted.Some? }

  /** After every cycle a pending refresh has a recorded start, unchanged while it stays
      pending. It is less than the timeout ago, unless the timeout is not positive and the
      refresh began in this very cycle. */
  lemma CycleBoundsCancel(cfg: Settings, c: Ctrl, intent: Option<Intent>, i: Inputs)
    requires CancelTracked(c) && !cfg.shadow
    ensures var o := Determine(cfg, c, intent, i);
            && CancelTracked(o.ctrl)
            && o.ctrl.watch.timeout == c.watch.timeout && o.ctrl.watch.cooldown == c.watch.cooldown
            && (o.ctrl.pending ==>
                  && o.ctrl.cancelStarted == (if c.pending then c.cancelStarted else Some(i.now))
                  && (i.now - o.ctrl.cancelStarted.value < c.watch.timeout <==> c.pending || c.watch.timeout > 0.0))
  {
    hide CreateQuotes, ExecutionConfig, ToExecutionRequest, FailsafeRequest, ExecutableSpecs, ToOrderSpecs,
         KeepQuotes, LiveSides, QuoteSides, SpecSides, StopsExcept;
  }

  /** A cycle that finds a refresh older than the timeout ends it. It opens the circuit for
      the cooldown and publishes the emergency exactly when the refresh is still the
      controller's business: it is quoting, not suspended, and either the book is stale or
      quotes (and no close) are still active. */
  lemma OverdueCancelTrips(cfg: Settings, c: Ctrl, intent: Option<Intent>, i: Inputs)
    requires c.pending && CancelOverdue(c, i.now) && !cfg.shadow
    ensures var o := Determine(cfg, c, intent, i);
            var waiting := Quoting(intent) && !(i.suspended && AllowQuotes(c.watch, i.now))
                           && (DataTooOld(cfg, i) || (Closes(i.active) == [] && i.active != []));
            && !o.ctrl.pending
            && (o.ctrl.watch.trips == c.watch.trips + (if waiting then 1 else 0))
            && (waiting ==> o.emergency && o.creates == [] && o.ctrl.cancelStarted.None?
                            && o.ctrl.watch.openUntil >= i.now + c.watch.cooldown)
  {
    hide CreateQuotes, ExecutionConfig, ToExecutionRequest, FailsafeRequest, ExecutableSpecs, ToOrderSpecs,
         KeepQuotes, LiveSides, QuoteSides, SpecSides, StopsExcept;
  }

  // Cycles whose controller stays pending throughout.
  ghost predicate PendingThroughout(cfg: Settings, s: System, ms: seq<Move>) {
    forall k :: 0 < k <= |ms| && ms[k - 1].Cycle? ==> RunSystem(cfg, s, ms[..k]).ctrl.pending
  }

  /** A refresh never stays pending for the timeout: if it is pending before a run and
      after each of its cycles, every cycle happens before its deadline. */
  lemma {:induction false} PendingIsBounded(cfg: Settings, s: System, ms: seq<Move>)
    requires !cfg.shadow && s.ctrl.pending && s.ctrl.cancelStarted.Some?
    requires PendingThroughout(cfg, s, ms)
    ensures RunSystem(cfg, s, ms).ctrl.pending
    ensures RunSystem(cfg, s, ms).ctrl.cancelStarted == s.ctrl.cancelStarted
    ensures RunSystem(cfg, s, ms).ctrl.watch.timeout == s.ctrl.watch.timeout
    ensures forall k :: 0 <= k < |ms| && ms[k].Cycle? ==>
              ms[k].inputs.now - s.ctrl.cancelStarted.value < s.ctrl.watch.timeout
  {
    if ms != [] {
      var before := ms[..|ms| - 1];
      assert forall k :: 0 <= k <= |before| ==> before[..k] == ms[..k];
      PendingIsBounded(cfg, s, before);
      assert ms[..|ms|] == ms;
      assert forall k :: 0 <= k < |before| ==> before[k] == ms[k];
      var m := ms[|ms| - 1];
      if m.Cycle? {
        CycleBoundsCancel(cfg, RunSystem(cfg, s, before).ctrl,
                          RunSystem(cfg, s, before).client.lastIntent, m.inputs);
      }
    }
  }

  // ---- The latch over the system ------------------------------------------------------------------

  // No quote was created by a cycle from this state.
  predicate CreatesQuote(cfg: Settings, s: System, m: Move) {
    m.Cycle? && exists c :: c in Decide(cfg, s, m.inputs).creates && c.Maker?
  }

  /** From a latched de-risking intent on, over any run at all, no cycle creates a quote
      until some moment at which nothing was outstanding: the target of the intent in force
      was reported reached, or its coin was left out of a report. */
  lemma {:induction false} NoQuoteWhileLatched(cfg: Settings, s: System, ms: seq<Move>, next: Move)
    requires Latched(s.client)
    requires forall k :: 0 <= k <= |ms| ==> !Released(RunSystem(cfg, s, ms[..k]).client)
    ensures Latched(RunSystem(cfg, s, ms).client)
    ensures !CreatesQuote(cfg, RunSystem(cfg, s, ms), next)
    ensures Priority(RunSystem(cfg, s, ms).client.lastIntent.value.urgency)
            >= Priority(s.client.lastIntent.value.urgency)
  {
    assert ms[..|ms|] == ms;
    if ms != [] {
      var before := ms[..|ms| - 1];
      assert forall k :: 0 <= k <= |before| ==> before[..k] == ms[..k];
      NoQuoteWhileLatched(cfg, s, before, next);
      var m := ms[|ms| - 1];
      if m.ClientMove? {
        LatchStep(RunSystem(cfg, s, before).client, m.op);
      }
    }
    var t := RunSystem(cfg, s, ms);
    if next.Cycle? {
      CycleCreatesSafely(cfg, t.ctrl, t.client.lastIntent, next.inputs);
    }
  }

  // Reports include the controller's coin, and intents are sent for it alone.
  predicate MovesConcern(ms: seq<Move>, coin: string) {
    forall k :: 0 <= k < |ms| && ms[k].ClientMove? ==> Concerns(ms[k].op, coin)
  }

  /** The controller reports its one coin in every cycle. Over such runs no cycle creates a
      quote from a latched de-risking intent until the position has been reported within
      1e-12 of the target of the intent in force. */
  lemma {:induction false} NoQuoteUntilReached(cfg: Settings, s: System, ms: seq<Move>, next: Move, coin: string)
    requires Latched(s.client) && s.client.lastIntent.value.coin == coin && MovesConcern(ms, coin)
    requires forall k :: 0 <= k <= |ms| ==> !Reached(RunSystem(cfg, s, ms[..k]).client)
    ensures var c := RunSystem(cfg, s, ms).client;
            && Latched(c) && c.lastIntent.value.coin == coin
            && Priority(c.lastIntent.value.urgency) >= Priority(s.client.lastIntent.value.urgency)
    ensures !CreatesQuote(cfg, RunSystem(cfg, s, ms), next)
  {
    hide Determine;
    assert ms[..|ms|] == ms;
    if ms != [] {
      var before := ms[..|ms| - 1];
      assert forall k :: 0 <= k <= |before| ==> before[..k] == ms[..k];
      assert forall k :: 0 <= k < |before| ==> before[k] == ms[k];
      NoQuoteUntilReached(cfg, s, before, next, coin);
      var m := ms[|ms| - 1];
      if m.ClientMove? {
        ConcernedStep(RunSystem(cfg, s, before).client, m.op, coin);
      }
    }
    var t := RunSystem(cfg, s, ms);
    if next.Cycle? {
      CycleCreatesSafely(cfg, t.ctrl, t.client.lastIntent, next.inputs);
    }
  }

  // ---- Which quotes stay -------------------------------------------------------------------------

  lemma {:induction false} OldestIsOldest(quotes: seq<Executor>, now: real, bound: real)
    requires quotes != [] && forall e :: e in quotes ==> IsQuote(e)
    ensures OldestAge(quotes, now) < bound <==> forall e :: e in quotes ==> now - e.config.timestamp < bound
  {
    if |quotes| > 1 {
      assert forall e :: e in quotes <==> e == quotes[0] || e in quotes[1..];
      OldestIsOldest(quotes[1..], now, bound);
    }
  }

  // No age limit on market data, or data no older than it.
  ghost predicate FreshBook(cfg: Settings, i: Inputs) {
    cfg.maxDataAge.None? || (i.dataAge.Some? && i.dataAge.value <= cfg.maxDataAge.value)
  }

  // The conditions under which a cycle leaves the quotes alone.
  ghost predicate QuotesStay(cfg: Settings, c: Ctrl, intent: Option<Intent>, i: Inputs) {
    var expected := SpecSides(ExecutableSpecs(i.rules, ToOrderSpecs(intent)));
    var live := LiveSides(i.active);
    && Quoting(intent) && !(i.suspended && AllowQuotes(c.watch, i.now)) && FreshBook(cfg, i)
    && Closes(i.active) == [] && !c.pending
    && AllowQuotes(c.watch, i.now) && !Observe(c.watch, i.now, expected, live).1
    && QuoteSides(Quotes(i.active)) == expected && |Quotes(i.active)| == |expected|
    && !i.refreshReason
    && (!(expected <= live)
        || forall e :: e in i.active && IsQuote(e) ==> i.now - e.config.timestamp < cfg.refreshInterval)
  }

  /** A running quote is left alone exactly when the controller quotes on a fresh book with
      the circuit closed, nothing is being cancelled or closed, there is exactly one quote
      per wanted side, no economic reason to refresh, and no quote has reached the refresh
      interval (or some order id is still awaited). In every other cycle it is stopped. */
  lemma QuoteStaysExactly(cfg: Settings, c: Ctrl, intent: Option<Intent>, i: Inputs, e: Executor)
    requires !cfg.shadow && e in i.active && IsQuote(e)
    requires forall a, b :: a in i.active && b in i.active && a.id == b.id ==> a == b
    ensures e.id !in Determine(cfg, c, intent, i).stops <==> QuotesStay(cfg, c, intent, i)
  {
    hide ExecutionConfig, CreateQuotes, OldestAge, StopsExcept, SpecSides, LiveSides, QuoteSides, ExecutableSpecs,
         ToOrderSpecs, ToExecutionRequest, Observe, Quotes, Closes, FailsafeRequest, Trip, Ids;
    var quotes := Quotes(i.active);
    QuotesOf(i.active);
    ClosesOf(i.active);
    StopsOf(i.active, {});
    StopsOf(quotes, {});
    StopsOf(i.active, Ids(Closes(i.active)));
    QuoteIds(i.active, e);
    OldestIsOldest(quotes, i.now, cfg.refreshInterval);
  }

  lemma QuoteIds(active: seq<Executor>, e: Executor)
    requires e in active && IsQuote(e)
    requires forall a, b :: a in active && b in active && a.id == b.id ==> a == b
    ensures e.id in Ids(active) && e.id in Ids(Quotes(active)) && e.id !in Ids(Closes(active))
  {
    QuotesOf(active);
    ClosesOf(active);
    assert e in Quotes(active);
    hide Quotes, Closes;
  }

  // ---- Closing ----------------------------------------------------------------------------------

  function AmountOf(c: ExecutorConfig): real {
    match c
    case Maker(_, _, amount, _, _) => amount
    case PassiveAggressiveRun(_, _, total, _, _, _, _) => total
    case MarketOrder(_, _, amount, _) => amount
  }

  // What an executor adds to the position once it has executed in full.
  function Adds(c: ExecutorConfig): real { if c.side == Buy then AmountOf(c) else -AmountOf(c) }

  /** When a close is wanted and no quote is active, after the cycle the executors left
      running or created all work exactly that request, and there is one: a running one is
      kept, never restarted. */
  lemma CloseIsWorkedOnce(cfg: Settings, c: Ctrl, intent: Option<Intent>, i: Inputs)
    requires !cfg.shadow && !Quoting(intent) && ToExecutionRequest(intent).Some?
    requires Quotes(i.active) == []
    requires forall a, b :: a in i.active && b in i.active && a.id == b.id ==> a == b
    ensures var o := Determine(cfg, c, intent, i);
            var wanted := SignatureOf(ExecutionConfig(cfg, i, ToExecutionRequest(intent).value));
            && (forall e :: e in i.active ==> (e.id !in o.stops <==> SignatureOf(e.config) == wanted))
            && (forall k :: k in o.creates ==> SignatureOf(k) == wanted)
            && (|o.creates| == if exists e :: e in i.active && e.id !in o.stops then 0 else 1)
  {
    var req := ToExecutionRequest(intent).value;
    var wanted := ExecutionConfig(cfg, i, req);
    var keep := set e | e in i.active && SignatureOf(e.config) == SignatureOf(wanted) :: e.id;
    hide ExecutionConfig, ToExecutionRequest;
    StopsOf(i.active, keep);
    assert forall e :: e in i.active ==> e.id in Ids(i.active);
  }

  /** Every close the controller routes leads from the inventory to the target, is reduce-only
      and is one its executor accepts: it splits into at most five children that together
      cover the gap. */
  lemma RoutedCloseBuilds(cfg: Settings, i: Inputs, intent: Intent)
    requires intent.quote.None? && ToExecutionRequest(Some(intent)).Some?
    ensures var config := ExecutionConfig(cfg, i, ToExecutionRequest(Some(intent)).value);
            && config.reduceOnly && !config.Maker? && Inventory(intent) + Adds(config) == intent.target
            && (config.PassiveAggressiveRun? ==>
                  var built := PA.BuildChildren(config.total, config.child);
                  && built.Success? && 1 <= |built.value| <= 5
                  && Sum(PASafety.Targets(built.value)) == Abs(intent.target - Inventory(intent)))
  {
    RequestClosesGap(intent);
    var config := ExecutionConfig(cfg, i, ToExecutionRequest(Some(intent)).value);
    if config.PassiveAggressiveRun? {
      FewChildren(config.total, config.child);
      PATheorems.ChildrenCoverTotal(config.total, config.child);
    }
  }

  // The executor's configuration for a routed close.
  function RunConfig(c: ExecutorConfig, maxRetries: int): PA.Config
    requires c.PassiveAggressiveRun?
  {
    PA.Config(c.total, c.child, c.timeLimit, c.refreshTime, c.reduceOnly, maxRetries)
  }

  // Between two positions, either end included.
  predicate Between(a: real, x: real, b: real) { a <= x <= b || b <= x <= a }

  /** A routed close without late credit never carries the position past its target: at
      every moment of its run the position lies between where it started and the target. */
  lemma RoutedCloseNeverOvershoots(
      cfg: Settings, i: Inputs, intent: Intent, maxRetries: int,
      es: seq<PARuns.Event>, w: PARuns.World)
    requires intent.quote.None? && ToExecutionRequest(Some(intent)).Some?
    requires ExecutionConfig(cfg, i, ToExecutionRequest(Some(intent)).value).PassiveAggressiveRun?
    requires PATheorems.Reaches(
      RunConfig(ExecutionConfig(cfg, i, ToExecutionRequest(Some(intent)).value), maxRetries), es, w)
    requires w.late == 0.0
    ensures var side := ExecutionConfig(cfg, i, ToExecutionRequest(Some(intent)).value).side;
            Between(Inventory(intent),
                    Inventory(intent) + (if side == Buy then w.exec.filled else -w.exec.filled), intent.target)
  {
    RequestClosesGap(intent);
    var config := ExecutionConfig(cfg, i, ToExecutionRequest(Some(intent)).value);
    hide PATheorems.Reaches, PA.Outstanding;
    PATheorems.OverExecutionBound(RunConfig(config, maxRetries), es, w);
    PATheorems.FillsNonNegative(RunConfig(config, maxRetries), es, w);
    PASafety.OutstandingNonNegative(w.exec.orders);
  }

  lemma FewChildren(total: real, child: real)
    requires 0.0 < total / 5.0 <= child <= total
    ensures 1 <= PA.Quotient(total, child) <= 5
  {
    FloorTimes(total, child);
    var n := (total / child).Floor;
    var whole := n as real;
    var covered := whole * child;
    assert covered <= total <= 5.0 * child;
    MulLess(whole, 5.0, child);
    assert whole <= 5.0;
    assert PA.Quotient(total, child) == n <= 5;
  }

  // Rounding down to a step loses less than a step, and gives a whole number of them.
  lemma WholeSteps(amount: real, step: real)
    requires amount >= 0.0 && step > 0.0
    ensures 0.0 <= amount - Quantize(amount, step) < step
    ensures Quantize(Quantize(amount, step), step) == Quantize(amount, step)
  {
    FloorTimes(amount, step);
    WholeQuotient(Steps(amount, step), step, Quantize(amount, step));
  }

  lemma WholeQuotient(n: int, step: real, a: real)
    requires step > 0.0 && a == n as real * step
    ensures Steps(a, step) == n
  {
    var b, whole := a / step, n as real;
    DivTimes(a, step);
    MulLess(b, whole, step);
    MulLess(whole, b, step);
  }

  /** A created quote fits the venue and the book: whole size steps up to the wanted
      amount, at least the venue minima, and a price no better than the intent's that keeps
      the buffer behind the touch on its own side. */
  lemma CreatedQuoteFits(cfg: Settings, i: Inputs, s: OrderSpec)
    requires CreateQuote(cfg, i, s).Some? && i.rules.step >= 0.0
    ensures var q := CreateQuote(cfg, i, s).value;
            var touch := if s.side == Buy then i.bestBid.value else i.bestAsk.value;
            var buffer := touch * (cfg.bufferBps / 10000.0);
            && q.side == s.side && q.reduceOnly == s.reduceOnly
            && q.amount <= s.amount < q.amount + (if i.rules.step > 0.0 then i.rules.step else 1.0)
            && Quantize(q.amount, i.rules.step) == q.amount
            && q.amount >= i.rules.minSize && q.amount * q.price >= i.rules.minNotional
            && (s.side == Buy ==> q.price <= s.price && q.price <= touch - buffer)
            && (s.side == Sell ==> q.price >= s.price && q.price >= touch + buffer)
  {
    var edge := cfg.bufferBps / 10000.0;
    var touch := if s.side == Buy then i.bestBid.value else i.bestAsk.value;
    assert touch * (1.0 - edge) == touch - touch * edge;
    assert touch * (1.0 + edge) == touch + touch * edge;
    if i.rules.step > 0.0 {
      WholeSteps(s.amount, i.rules.step);
    }
    hide Quantize;
  }

  // ---- Basket stops -------------------------------------------------------------------------------

  datatype KeeperDecision = EmergencyExitDecision | StopQuotingDecision | OtherDecision

  function LocalMode(d: KeeperDecision, w: Watch, now: real): Stop.Mode {
    if !AllowQuotes(w, now) || d.EmergencyExitDecision? then Stop.Emergency
    else if d.StopQuotingDecision? then Stop.Stop else Stop.Quote
  }

  // The keeper's intent as the basket allows it: replaced by a flatten or a hold unless
  // the whole basket quotes.
  function Transformed(intent: Option<Intent>, coin: string, position: real, d: Stop.Decision): Option<Intent> {
    if d.mode.QuoteAll? then intent
    else Some(Intent(coin, d.target, Some(position), None,
                     if d.mode.EmergencyAll? then EmergencyExit else Immediate))
  }

  // The last mid-price fed to the controller.
  datatype LastMid = NoMid | NotFinite | Price(value: real)

  // An emergency report: the mid sizes nothing, so a missing or zero one is replaced by 1.
  // A mid that is not finite counts as present and is passed on.
  function Alarm(coin: string, account: string, position: real, lastMid: LastMid, now: real): Stop.Report {
    var mid := match lastMid
               case NoMid => Some(1.0)
               case NotFinite => None
               case Price(value) => Some(if value == 0.0 then 1.0 else value);
    Stop.Report(Stop.Member(account, coin), Some(position), mid, Stop.Emergency, Some(now))
  }

  /** The emergency reaches the basket exactly when the leg belongs to it and the last mid is
      neither non-finite nor negative: then every fresh reader flattens, the publisher
      first. Otherwise the table stays as it was. */
  lemma AlarmReachesBasket(
      book: Stop.Book, rows: Stop.Rows, coin: string, account: string, position: real, lastMid: LastMid, now: real,
      flat: Stop.FlatTargets)
    requires book.stale > 0.0
    ensures var r := Alarm(coin, account, position, lastMid, now);
            var leg := Stop.Member(account, coin);
            var reaches := leg in book.members && !lastMid.NotFinite? && (lastMid.Price? ==> lastMid.value >= 0.0);
            var (after, d) := Stop.Update(book, rows, r, flat);
            && (reaches <==> d.Success?)
            && (reaches ==> d.value == Stop.Decision(Stop.EmergencyAll, 0.0) && Stop.Name(leg) in after
                            && var row := after[Stop.Name(leg)];
                               && row.mode == Stop.Emergency && row.position == position && row.ts == now
                               && row.mid == if lastMid.Price? && lastMid.value > 0.0 then lastMid.value else 1.0)
            && (!reaches ==> after == rows)
  {
    var r := Alarm(coin, account, position, lastMid, now);
    if Stop.Valid(book, r) { Stop.PublisherFlattens(book, rows, r, flat); }
  }

  /** "hold" becomes an intent that asks for no trade at all. */
  lemma HoldTradesNothing(intent: Option<Intent>, book: Stop.Book, rows: Stop.Rows, r: Stop.Report,
                          flat: Stop.FlatTargets)
    requires Stop.Valid(book, r)
    ensures var d := Stop.Update(book, rows, r, flat).1.value;
            d.mode.Hold? ==>
              var t := Transformed(intent, r.member.coin, r.position.value, d);
              !Quoting(t) && ToExecutionRequest(t).None?
  {
  }

  /** Once any member has published an emergency, every other member's keeper is overruled
      through any interleaving until the publisher reports another mode: its intent becomes
      non-quoting and asks either for nothing or for exactly its own flat position. */
  lemma EmergencyOverrulesKeeper(
      rows: Stop.Rows, publisher: Stop.Step, steps: seq<Stop.Step>, next: Stop.Step,
      flat: Stop.FlatTargets, intent: Option<Intent>)
    requires Stop.Valid(publisher.book, publisher.report) && publisher.report.mode == Stop.Emergency
    requires forall k :: 0 <= k < |steps| ==> !Stop.Retracts(steps[k], Stop.Name(publisher.report.member))
    requires Stop.Valid(next.book, next.report)
    requires !Stop.Writes(next, Stop.Name(publisher.report.member))
    requires Stop.Name(publisher.report.member) in Stop.Names(next.book)
    ensures var table := Stop.After(Stop.Update(publisher.book, rows, publisher.report, flat).0, steps, flat);
            var d := Stop.Update(next.book, table, next.report, flat).1.value;
            var position := next.report.position.value;
            var t := Transformed(intent, next.report.member.coin, position, d);
            var req := ToExecutionRequest(t);
            && !Quoting(t)
            && (req.Some? ==>
                  && d.mode.EmergencyAll? && req.value.urgency == EmergencyExit
                  && req.value.amount == Abs(position)
                  && (req.value.side == Sell <==> position > 0.0))
  {
    Stop.EmergencyPersists(rows, publisher, steps, next, flat);
  }
}
