/**
 The perpetual market-making controller's decision cycle: quotes are refreshed in two
 phases (cancel everything, then create), closes never overlap quotes, and a watchdog opens
 a circuit when expected quotes do not reach the venue.
 */
module PerpMM {
  import opened Common
  import opened Resilience
  import opened PerpBridge

  // ---- Executors ----------------------------------------------------------------------

  // A resting maker quote, a passive-aggressive run, or a plain market order.
  datatype ExecutorConfig =
    | Maker(timestamp: real, side: Side, amount: real, price: real, reduceOnly: bool)
    | PassiveAggressiveRun(timestamp: real, side: Side, total: real, child: real,
                           timeLimit: real, refreshTime: real, reduceOnly: bool)
    | MarketOrder(timestamp: real, side: Side, amount: real, reduceOnly: bool)

  // `venueId` is None when the executor does not report a venue id at all.
  datatype Executor = Executor(id: int, config: ExecutorConfig, hasOrder: bool, venueId: Option<bool>)

  datatype Signature = Signature(kind: int, side: Side, timeLimit: Option<real>, notional: real)

  function SignatureOf(config: ExecutorConfig): Signature {
    match config
    case Maker(_, side, amount, _, _) => Signature(0, side, None, amount)
    case PassiveAggressiveRun(_, side, total, _, timeLimit, _, _) => Signature(1, side, Some(timeLimit), total)
    case MarketOrder(_, side, amount, _) => Signature(2, side, None, amount)
  }

  predicate IsQuote(e: Executor) { e.config.Maker? }

  predicate HasVenueOrder(e: Executor) { e.hasOrder && e.venueId != Some(false) }

  function Quotes(active: seq<Executor>): seq<Executor> {
    if active == [] then []
    else (if IsQuote(active[0]) then [active[0]] else []) + Quotes(active[1..])
  }

  function Closes(active: seq<Executor>): seq<Executor> {
    if active == [] then []
    else (if IsQuote(active[0]) then [] else [active[0]]) + Closes(active[1..])
  }

  function Ids(es: seq<Executor>): set<int> { set e | e in es :: e.id }

  function QuoteSides(es: seq<Executor>): set<Side> { set e | e in es && IsQuote(e) :: e.config.side }

  function LiveSides(es: seq<Executor>): set<Side> {
    set e | e in es && IsQuote(e) && HasVenueOrder(e) :: e.config.side
  }

  // ---- Inputs ---------------------------------------------------------------------------

  datatype Settings = Settings(
    shadow: bool, maxDataAge: Option<real>, refreshInterval: real, stopTimeLimit: real, bufferBps: real)

  // Trading rules; 0 stands for an absent limit.
  datatype Rules = Rules(minSize: real, minNotional: real, step: real)

  // What one decision cycle reads. `dataAge` is None for an unusable feed and prices are
  // None when not finite; `refreshReason` is the keeper's economic verdict on the quotes.
  datatype Inputs = Inputs(
    now: real, active: seq<Executor>, suspended: bool, dataAge: Option<real>,
    bestBid: Option<real>, bestAsk: Option<real>, mid: Option<real>, rules: Rules, refreshReason: bool)

  datatype Ctrl = Ctrl(pending: bool, cancelStarted: Option<real>, watch: Watch)

  // Executors to stop, executors to create, and whether a basket emergency is published.
  datatype Outcome = Outcome(ctrl: Ctrl, stops: seq<int>, creates: seq<ExecutorConfig>, emergency: bool)

  // ---- Close requests ---------------------------------------------------------------------

  function Ceiling(x: real): int { -((-x).Floor) }

  // Smallest child the venue accepts, with ten percent headroom, in whole size steps.
  function MinChild(rules: Rules, mid: Option<real>): real {
    if mid.None? || mid.value == 0.0 || rules.minNotional == 0.0 || rules.step == 0.0 then 0.0
    else
      Ceiling(rules.minNotional * 1.1 / mid.value / rules.step) as real * rules.step
  }

  function ExecutionConfig(cfg: Settings, i: Inputs, req: ExecutionRequest): ExecutorConfig {
    match req.urgency
    case Immediate =>
      PassiveAggressiveRun(i.now, req.side, req.amount, req.amount, cfg.stopTimeLimit,
                           cfg.stopTimeLimit, req.reduceOnly)
    case EmergencyExit =>
      if req.amount < i.rules.minSize then MarketOrder(i.now, req.side, req.amount, req.reduceOnly)
      else PassiveAggressiveRun(i.now, req.side, req.amount, req.amount, 5.0, 5.0, req.reduceOnly)
    case _ =>
      var child := Min(req.amount, Max(req.amount / 5.0, MinChild(i.rules, i.mid)));
      PassiveAggressiveRun(i.now, req.side, req.amount, child, 60.0, 20.0, req.reduceOnly)
  }

  function FailsafeRequest(intent: Intent): Option<ExecutionRequest> {
    var current := Inventory(intent);
    if Abs(current) < EPSILON then None
    else Some(ExecutionRequest(if current > 0.0 then Sell else Buy, Abs(current), Immediate, true))
  }

  // ---- Quotes ---------------------------------------------------------------------------

  predicate Executable(rules: Rules, s: OrderSpec) {
    s.amount >= rules.minSize && s.amount * s.price >= rules.minNotional
  }

  function ExecutableSpecs(rules: Rules, specs: seq<OrderSpec>): seq<OrderSpec> {
    if specs == [] then []
    else (if Executable(rules, specs[0]) then [specs[0]] else []) + ExecutableSpecs(rules, specs[1..])
  }

  function SpecSides(specs: seq<OrderSpec>): set<Side> { set s | s in specs :: s.side }

  // A maker price keeps a cushion behind the touch; None without a usable touch.
  function BufferedPrice(cfg: Settings, i: Inputs, s: OrderSpec): Option<real> {
    var touch := if s.side == Buy then i.bestBid else i.bestAsk;
    if touch.None? || touch.value <= 0.0 then None
    else
      var edge := cfg.bufferBps / 10000.0;
      if s.side == Buy then Some(Min(s.price, touch.value * (1.0 - edge)))
      else Some(Max(s.price, touch.value * (1.0 + edge)))
  }

  function Steps(amount: real, step: real): int
    requires step > 0.0
  {
    (amount / step).Floor
  }

  function Quantize(amount: real, step: real): real {
    if step > 0.0 then Steps(amount, step) as real * step else amount
  }

  predicate BelowMinima(rules: Rules, amount: real, price: real) {
    amount < rules.minSize || amount * price < rules.minNotional
  }

  function CreateQuote(cfg: Settings, i: Inputs, s: OrderSpec): Option<ExecutorConfig> {
    if s.amount <= 0.0 then None
    else
      var price := BufferedPrice(cfg, i, s);
      if price.None? then None
      else
        var amount := Quantize(s.amount, i.rules.step);
        if BelowMinima(i.rules, amount, price.value) then None
        else Some(Maker(i.now, s.side, amount, price.value, s.reduceOnly))
  }

  function CreateQuotes(cfg: Settings, i: Inputs, specs: seq<OrderSpec>): seq<ExecutorConfig> {
    if specs == [] then []
    else
      var created := CreateQuote(cfg, i, specs[0]);
      (if created.Some? then [created.value] else []) + CreateQuotes(cfg, i, specs[1..])
  }

  function OldestAge(quotes: seq<Executor>, now: real): real
    requires quotes != [] && forall e :: e in quotes ==> IsQuote(e)
  {
    var age := now - quotes[0].config.timestamp;
    if |quotes| == 1 then age else Max(age, OldestAge(quotes[1..], now))
  }

  // ---- Cancellation deadline --------------------------------------------------------------

  predicate CancelOverdue(c: Ctrl, now: real) {
    c.cancelStarted.Some? && now - c.cancelStarted.value >= c.watch.timeout
  }

  function CancelTimedOut(c: Ctrl, now: real, expected: set<Side>, live: set<Side>): Ctrl {
    if CancelOverdue(c, now) then Ctrl(false, None, Trip(c.watch, now, expected, live)) else c
  }

  // ---- The decision cycle -------------------------------------------------------------------

  function StopsExcept(active: seq<Executor>, keep: set<int>): seq<int> {
    if active == [] then []
    else (if active[0].id in keep then [] else [active[0].id]) + StopsExcept(active[1..], keep)
  }

  function StopAllOf(es: seq<Executor>): seq<int> { StopsExcept(es, {}) }

  predicate DataTooOld(cfg: Settings, i: Inputs) {
    cfg.maxDataAge.Some? && (i.dataAge.None? || i.dataAge.value > cfg.maxDataAge.value)
  }

  // Equity unknown: cancel the quotes, create nothing, leave any close alone.
  function Suspension(c: Ctrl, i: Inputs): Outcome {
    Outcome(c.(watch := Suspend(c.watch), pending := false), StopAllOf(Quotes(i.active)), [], false)
  }

  // Stale book: cancel the quotes under the cancellation deadline.
  function StaleData(c: Ctrl, i: Inputs): Outcome {
    var quotes := Quotes(i.active);
    var c1 := c.(watch := Suspend(c.watch));
    var c2 := if quotes != [] && !c.pending && AllowQuotes(c.watch, i.now)
              then c1.(pending := true, cancelStarted := Some(i.now)) else c1;
    var c3 := if c2.pending then CancelTimedOut(c2, i.now, QuoteSides(quotes), LiveSides(quotes)) else c2;
    Outcome(c3, StopAllOf(quotes), [], c2.pending && CancelOverdue(c2, i.now))
  }

  // Quoting while old quotes are still being cancelled.
  function Pending(cfg: Settings, c: Ctrl, i: Inputs, specs: seq<OrderSpec>): Outcome {
    var c1 := c.(watch := Suspend(c.watch));
    if i.active != [] then
      Outcome(CancelTimedOut(c1, i.now, SpecSides(specs), LiveSides(i.active)),
              StopAllOf(i.active), [], CancelOverdue(c1, i.now))
    else
      Outcome(c1.(pending := false, cancelStarted := None), [], CreateQuotes(cfg, i, specs), false)
  }

  predicate KeepQuotes(cfg: Settings, i: Inputs, specs: seq<OrderSpec>)
    requires Quotes(i.active) != [] && forall e :: e in Quotes(i.active) ==> IsQuote(e)
  {
    var quotes := Quotes(i.active);
    var expected := SpecSides(specs);
    && QuoteSides(quotes) == expected && |quotes| == |expected|
    && !i.refreshReason
    && (!(expected <= LiveSides(i.active)) || OldestAge(quotes, i.now) < cfg.refreshInterval)
  }

  // Quoting with nothing being cancelled.
  function Settled(cfg: Settings, c: Ctrl, i: Inputs, intent: Intent, specs: seq<OrderSpec>): Outcome
    requires Closes(i.active) == []
  {
    var expected := SpecSides(specs);
    var live := LiveSides(i.active);
    var observed := if AllowQuotes(c.watch, i.now) then Observe(c.watch, i.now, expected, live) else (c.watch, true);
    var c1 := c.(watch := observed.0);
    if observed.1 then
      var req := FailsafeRequest(intent);
      Outcome(c1, StopAllOf(i.active),
              if req.Some? && i.active == [] then [ExecutionConfig(cfg, i, req.value)] else [], true)
    else if i.active == [] then
      Outcome(c1, [], CreateQuotes(cfg, i, specs), false)
    else
      assert Quotes(i.active) != [] && (forall e :: e in Quotes(i.active) ==> IsQuote(e)) by {
        QuotesOf(i.active);
        ClosesOf(i.active);
        assert i.active[0] in i.active;
      }
      if KeepQuotes(cfg, i, specs) then Outcome(c1, [], [], false)
      else
        Outcome(Ctrl(true, Some(i.now), Suspend(c1.watch)), StopAllOf(i.active), [], false)
  }

  // A close is running: it stays authoritative and every quote is stopped.
  function ClosesFirst(c: Ctrl, i: Inputs): Outcome {
    Outcome(c.(watch := Suspend(c.watch), pending := false),
            StopsExcept(i.active, Ids(Closes(i.active))), [], false)
  }

  // No quoting intent: work the close request once the quotes are gone.
  function Closing(cfg: Settings, c: Ctrl, i: Inputs, intent: Option<Intent>): Outcome {
    var c1 := c.(watch := Suspend(c.watch), pending := false);
    var req := ToExecutionRequest(intent);
    if req.Some? && Quotes(i.active) == [] then
      var wanted := ExecutionConfig(cfg, i, req.value);
      var keep := set e | e in i.active && SignatureOf(e.config) == SignatureOf(wanted) :: e.id;
      Outcome(c1, StopsExcept(i.active, keep), if keep != {} then [] else [wanted], false)
    else if Quotes(i.active) != [] then
      Outcome(c1, StopsExcept(i.active, Ids(Closes(i.active))), [], false)
    else
      Outcome(c1, StopAllOf(i.active), [], false)
  }

  function Determine(cfg: Settings, c: Ctrl, intent: Option<Intent>, i: Inputs): Outcome {
    if cfg.shadow then Outcome(c, [], [], false)
    else if i.suspended && Quoting(intent) && AllowQuotes(c.watch, i.now) then Suspension(c, i)
    else if Quoting(intent) && DataTooOld(cfg, i) then StaleData(c, i)
    else if !Quoting(intent) then Closing(cfg, c, i, intent)
    else if Closes(i.active) != [] then ClosesFirst(c, i)
    else
      var specs := ExecutableSpecs(i.rules, ToOrderSpecs(intent));
      if c.pending then Pending(cfg, c, i, specs) else Settled(cfg, c, i, intent.value, specs)
  }

  // ---- Splitting the active set -------------------------------------------------------------

  lemma {:induction false} QuotesOf(active: seq<Executor>)
    ensures forall e :: e in Quotes(active) <==> e in active && IsQuote(e)
  {
    if active != [] { QuotesOf(active[1..]); }
  }

  lemma {:induction false} ClosesOf(active: seq<Executor>)
    ensures forall e :: e in Closes(active) <==> e in active && !IsQuote(e)
  {
    if active != [] { ClosesOf(active[1..]); }
  }

  lemma {:induction false} StopsOf(active: seq<Executor>, keep: set<int>)
    ensures forall id :: id in StopsExcept(active, keep) <==> id !in keep && id in Ids(active)
  {
    if active != [] {
      StopsOf(active[1..], keep);
      assert Ids(active) == Ids(active[1..]) + {active[0].id};
    }
  }
}
