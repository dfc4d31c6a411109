/**
 What one decision cycle does, in terms of the position, the book and the executors: where a
 close leads, which quotes are placed and at what price, and when an emergency is raised.
 */
module PerpDecisions {
  import opened Common
  import opened Resilience
  import opened PerpBridge
  import opened PerpMM
  import opened PerpSafety
  import PA = PassiveAggressive
  import PASafety = PassiveAggressiveSafety
  import PARuns = PassiveAggressiveRuns
  import PATheorems = PassiveAggressiveTheorems
  import Stop = PortfolioStop

  // ---- Where a close leads ---------------------------------------------------------------------

  /** A request becomes an executor that adds exactly what was requested, from now on, and
      only reduces. */
  lemma RoutedAdds(cfg: Settings, i: Inputs, req: ExecutionRequest)
    ensures var c := ExecutionConfig(cfg, i, req);
            Adds(c) == Traded(req) && !c.Maker? && c.timestamp == i.now && c.reduceOnly == req.reduceOnly
  {
  }

  /** Every close a cycle creates leads from the inventory exactly to where the intent wants
      it: to its target, or to nothing when a quoting intent falls to the failsafe. */
  lemma CloseLeadsToTarget(cfg: Settings, c: Ctrl, intent: Option<Intent>, i: Inputs, m: ExecutorConfig)
    requires m in Determine(cfg, c, intent, i).creates && !m.Maker?
    ensures intent.Some? && m.reduceOnly && m.timestamp == i.now
    ensures Inventory(intent.value) + Adds(m) == if Quoting(intent) then 0.0 else intent.value.target
    ensures Abs(Adds(m)) >= EPSILON
  {
    hide ExecutionConfig, ExecutableSpecs, ToOrderSpecs, KeepQuotes, LiveSides, QuoteSides, SpecSides, StopsExcept,
         Observe, Trip, CreateQuotes, Quotes, Closes, DataTooOld, MinChild;
    SpecsCreateSafely(cfg, i, intent);
    if intent.Some? && intent.value.quote.None? { RequestClosesGap(intent.value); }
    if intent.Some? && ToExecutionRequest(intent).Some? { RoutedAdds(cfg, i, ToExecutionRequest(intent).value); }
    if intent.Some? && FailsafeRequest(intent.value).Some? { RoutedAdds(cfg, i, FailsafeRequest(intent.value).value); }
  }

  ghost predicate Multiple(amount: real, k: int, step: real) { amount == k as real * step }

  ghost predicate Whole(amount: real, step: real) { exists k: int :: Multiple(amount, k, step) }

  // Whole steps, as many as fit; without a step the amount itself.
  ghost predicate StepsThatFit(amount: real, wanted: real, step: real) {
    if step > 0.0 then amount <= wanted < amount + step && Whole(amount, step) else amount == wanted
  }

  /** The smallest child is the least whole number of steps worth 1.1 times the minimum
      notional at the mid. */
  lemma MinChildIsLeast(rules: Rules, mid: real)
    requires rules.step > 0.0 && rules.minNotional > 0.0 && mid > 0.0
    ensures var child := MinChild(rules, Some(mid));
            && Whole(child, rules.step)
            && child * mid >= 1.1 * rules.minNotional > (child - rules.step) * mid
  {
    var wanted := rules.minNotional * 1.1;
    var raw := wanted / mid;
    var steps := raw / rules.step;
    var k := Ceiling(steps);
    DivTimes(wanted, mid);
    DivTimes(raw, rules.step);
    CeilingBounds(steps);
    assert Multiple(MinChild(rules, Some(mid)), k, rules.step);
    LeastSteps(steps, k as real, rules.step, raw, mid, wanted, MinChild(rules, Some(mid)));
  }

  lemma LeastSteps(steps: real, whole: real, step: real, raw: real, mid: real, wanted: real, child: real)
    requires step > 0.0 && mid > 0.0 && whole - 1.0 < steps <= whole
    requires steps * step == raw && raw * mid == wanted && child == whole * step
    ensures child * mid >= wanted > (child - step) * mid
  {
    var less, lower := whole - 1.0, child - step;
    MulLess(steps, whole, step);
    MulLess(less, steps, step);
    assert less * step == lower;
    assert lower < raw <= child;
    MulLess(raw, child, mid);
    MulLess(lower, raw, mid);
    assert raw * mid <= child * mid && lower * mid < raw * mid;
  }

  lemma CeilingBounds(x: real)
    ensures Ceiling(x) as real - 1.0 < x <= Ceiling(x) as real
  {
  }

  /** How a close is worked: at once as one child with the configured deadline, in an
      emergency as one child with five seconds or, below the venue's minimum, at the market,
      otherwise in children of a fifth, or the least the venue accepts, for a minute each. */
  lemma RoutedByUrgency(cfg: Settings, i: Inputs, req: ExecutionRequest)
    requires req.amount > 0.0
    ensures var c := ExecutionConfig(cfg, i, req);
            && (c.MarketOrder? <==> req.urgency == EmergencyExit && req.amount < i.rules.minSize)
            && (c.PassiveAggressiveRun? ==>
                  match req.urgency
                  case Immediate => c.child == c.total && c.timeLimit == c.refreshTime == cfg.stopTimeLimit
                  case EmergencyExit => c.child == c.total && c.timeLimit == c.refreshTime == 5.0
                  case _ =>
                    && c.timeLimit == 60.0 && c.refreshTime == 20.0 && c.total <= 5.0 * c.child <= 5.0 * c.total
                    && (c.child < c.total ==> c.child >= MinChild(i.rules, i.mid))
                    && (c.child == c.total || c.child == MinChild(i.rules, i.mid) || 5.0 * c.child == c.total))
  {
    hide MinChild;
  }

  // ---- Which executor works which close ----------------------------------------------------------

  /** Two closes count as the same work exactly when they are of the same kind, side and
      amount, and, if they are passive-aggressive, have the same time limit. */
  lemma SameWork(a: ExecutorConfig, b: ExecutorConfig)
    ensures SignatureOf(a) == SignatureOf(b) <==>
              && (a.Maker? <==> b.Maker?) && (a.MarketOrder? <==> b.MarketOrder?)
              && a.side == b.side && AmountOf(a) == AmountOf(b)
              && (a.PassiveAggressiveRun? ==> a.timeLimit == b.timeLimit)
  {
  }

  /** A running close is stopped exactly when no quote is active, the controller does not
      quote, and it is not the close now wanted. Nothing else ever stops a close. */
  lemma CloseStoppedExactly(cfg: Settings, c: Ctrl, intent: Option<Intent>, i: Inputs, e: Executor)
    requires e in i.active && !IsQuote(e)
    requires forall a, b :: a in i.active && b in i.active && a.id == b.id ==> a == b
    ensures var req := ToExecutionRequest(intent);
            e.id in Determine(cfg, c, intent, i).stops <==>
              && !cfg.shadow && !Quoting(intent) && (forall q :: q in i.active ==> !IsQuote(q))
              && (req.None? || SignatureOf(e.config) != SignatureOf(ExecutionConfig(cfg, i, req.value)))
  {
    hide ExecutionConfig, CreateQuotes, OldestAge, StopsExcept, SpecSides, LiveSides, QuoteSides, ExecutableSpecs,
         ToOrderSpecs, ToExecutionRequest, Observe, Quotes, Closes, FailsafeRequest, Trip, Ids, KeepQuotes,
         SignatureOf, DataTooOld;
    QuotesOf(i.active);
    ClosesOf(i.active);
    StopsOf(i.active, {});
    StopsOf(Quotes(i.active), {});
    StopsOf(i.active, Ids(Closes(i.active)));
    if ToExecutionRequest(intent).Some? {
      var wanted := ExecutionConfig(cfg, i, ToExecutionRequest(intent).value);
      StopsOf(i.active, set k | k in i.active && SignatureOf(k.config) == SignatureOf(wanted) :: k.id);
    }
    CloseIds(i.active, e);
  }

  lemma CloseIds(active: seq<Executor>, e: Executor)
    requires e in active && !IsQuote(e)
    requires forall a, b :: a in active && b in active && a.id == b.id ==> a == b
    ensures e.id in Ids(active) && e.id in Ids(Closes(active)) && e.id !in Ids(Quotes(active)) && e in Closes(active)
    ensures Quotes(active) == [] <==> forall q :: q in active ==> !IsQuote(q)
  {
    QuotesOf(active);
    ClosesOf(active);
    assert e in Closes(active);
    assert Quotes(active) != [] ==> Quotes(active)[0] in Quotes(active);
    hide Quotes, Closes;
  }

  // ---- Which quotes are placed --------------------------------------------------------------------

  // The intent's price, or the buffered touch where that keeps further back.
  predicate BehindTouch(price: real, wanted: real, side: Side, touch: real, bps: real) {
    var buffer := Cushion(touch, bps);
    match side
    case Buy => price <= wanted && price <= touch - buffer && (price == wanted || price == touch - buffer)
    case Sell => price >= wanted && price >= touch + buffer && (price == wanted || price == touch + buffer)
  }

  function TouchOf(i: Inputs, side: Side): Option<real> { if side == Buy then i.bestBid else i.bestAsk }

  /** A wanted quote is placed at the intent's price, or behind the buffered touch of its own
      side, for as many whole steps as fit, exactly when that meets the venue's minima; and
      not at all without a usable touch. */
  lemma QuotePlacedExactly(cfg: Settings, i: Inputs, s: OrderSpec, price: real, amount: real)
    ensures TouchOf(i, s.side).None? || TouchOf(i, s.side).value <= 0.0 || s.amount <= 0.0 ==>
              CreateQuote(cfg, i, s).None?
    ensures s.amount > 0.0 && TouchOf(i, s.side).Some? && TouchOf(i, s.side).value > 0.0
            && BehindTouch(price, s.price, s.side, TouchOf(i, s.side).value, cfg.bufferBps)
            && StepsThatFit(amount, s.amount, i.rules.step) ==>
              CreateQuote(cfg, i, s)
              == if amount >= i.rules.minSize && amount * price >= i.rules.minNotional
                 then Some(Maker(i.now, s.side, amount, price, s.reduceOnly)) else None
  {
    hide BehindTouch, Quantize, StepsThatFit;
    NoTouchNoPrice(cfg, i, s);
    hide BufferedPrice;
    if s.amount > 0.0 && TouchOf(i, s.side).Some? && TouchOf(i, s.side).value > 0.0 {
      if BehindTouch(price, s.price, s.side, TouchOf(i, s.side).value, cfg.bufferBps) { OneBuffer(cfg, i, s, price); }
      if StepsThatFit(amount, s.amount, i.rules.step) { OneRounding(amount, s.amount, i.rules.step); }
    }
  }

  lemma NoTouchNoPrice(cfg: Settings, i: Inputs, s: OrderSpec)
    ensures TouchOf(i, s.side).None? || TouchOf(i, s.side).value <= 0.0 ==> BufferedPrice(cfg, i, s).None?
  {
  }

  lemma OneBuffer(cfg: Settings, i: Inputs, s: OrderSpec, price: real)
    requires TouchOf(i, s.side).Some? && TouchOf(i, s.side).value > 0.0
    requires BehindTouch(price, s.price, s.side, TouchOf(i, s.side).value, cfg.bufferBps)
    ensures BufferedPrice(cfg, i, s) == Some(price)
  {
    hide Cushion;
    var touch := TouchOf(i, s.side).value;
    Apart(touch, cfg.bufferBps);
    var c := Cushion(touch, cfg.bufferBps);
    if s.side == Buy {
      assert price == Min(s.price, touch - c);
      assert BufferedPrice(cfg, i, s) == Some(Min(s.price, touch * (1.0 - cfg.bufferBps / 10000.0)));
    } else {
      assert price == Max(s.price, touch + c);
      assert BufferedPrice(cfg, i, s) == Some(Max(s.price, touch * (1.0 + cfg.bufferBps / 10000.0)));
    }
  }

  // What a quote keeps away from the touch.
  function Cushion(touch: real, bps: real): real { touch * (bps / 10000.0) }

  lemma Apart(touch: real, bps: real)
    ensures touch * (1.0 - bps / 10000.0) == touch - Cushion(touch, bps)
    ensures touch * (1.0 + bps / 10000.0) == touch + Cushion(touch, bps)
  {
  }

  lemma FloorOf(x: real, k: int, step: real, amount: real, wanted: real)
    requires step > 0.0 && x * step == wanted && Multiple(amount, k, step) && amount <= wanted < amount + step
    ensures x.Floor == k
  {
    var low, high := x - k as real, k as real + 1.0 - x;
    assert low * step == wanted - amount && high * step == amount + step - wanted;
    SignOfProduct(low, step);
    MulLess(0.0, high, step);
  }

  lemma OneRounding(amount: real, wanted: real, step: real)
    requires StepsThatFit(amount, wanted, step)
    ensures Quantize(wanted, step) == amount
  {
    if step > 0.0 {
      var k: int :| Multiple(amount, k, step);
      DivTimes(wanted, step);
      FloorOf(wanted / step, k, step, amount, wanted);
    }
  }

  // A cycle that may place quotes: nothing is active, the book is fresh, and either a refresh
  // has just finished cancelling or the watchdog lets quotes through.
  ghost predicate MayQuote(cfg: Settings, c: Ctrl, intent: Option<Intent>, i: Inputs) {
    && !cfg.shadow && Quoting(intent) && !(i.suspended && AllowQuotes(c.watch, i.now)) && FreshBook(cfg, i)
    && i.active == []
    && (c.pending
        || (AllowQuotes(c.watch, i.now)
            && !Observe(c.watch, i.now, SpecSides(ExecutableSpecs(i.rules, ToOrderSpecs(intent))), {}).1))
  }

  /** The quotes a cycle creates are exactly those that one of the intent's legs, itself above
      the venue's minima, gives, in a cycle that may quote. */
  lemma QuotesCreatedExactly(cfg: Settings, c: Ctrl, intent: Option<Intent>, i: Inputs, m: ExecutorConfig)
    requires m.Maker?
    ensures m in Determine(cfg, c, intent, i).creates <==>
              && MayQuote(cfg, c, intent, i)
              && exists s :: s in ToOrderSpecs(intent) && CreateQuote(cfg, i, s) == Some(m)
                             && s.amount >= i.rules.minSize && s.amount * s.price >= i.rules.minNotional
  {
    hide ExecutionConfig, ExecutableSpecs, ToOrderSpecs, KeepQuotes, QuoteSides, StopsExcept, CreateQuote,
         Observe, Trip, CreateQuotes, Quotes, Closes, ToExecutionRequest, FailsafeRequest;
    var specs := ToOrderSpecs(intent);
    CreatedQuotes(cfg, i, ExecutableSpecs(i.rules, specs), m);
    ExecutableOnes(i.rules, specs);
    NoneActive(i.active);
    RoutedNotMaker(cfg, i, intent);
  }

  lemma RoutedNotMaker(cfg: Settings, i: Inputs, intent: Option<Intent>)
    ensures forall req :: !ExecutionConfig(cfg, i, req).Maker?
  {
  }

  lemma NoneActive(active: seq<Executor>)
    ensures active == [] ==> LiveSides(active) == {} && Quotes(active) == [] && Closes(active) == []
  {
  }

  lemma {:induction false} CreatedQuotes(cfg: Settings, i: Inputs, specs: seq<OrderSpec>, m: ExecutorConfig)
    ensures m in CreateQuotes(cfg, i, specs) <==> exists s :: s in specs && CreateQuote(cfg, i, s) == Some(m)
  {
    hide CreateQuote;
    if specs != [] {
      CreatedQuotes(cfg, i, specs[1..], m);
      assert forall s :: s in specs <==> s == specs[0] || s in specs[1..];
    }
  }

  lemma {:induction false} ExecutableOnes(rules: Rules, specs: seq<OrderSpec>)
    ensures forall s :: s in ExecutableSpecs(rules, specs) <==> s in specs && Executable(rules, s)
  {
    hide Executable;
    if specs != [] {
      ExecutableOnes(rules, specs[1..]);
      assert forall s :: s in specs <==> s == specs[0] || s in specs[1..];
    }
  }

  // ---- Refreshes and emergencies --------------------------------------------------------------------

  // A quoting cycle on a live book: not suspended, fresh data, and no close running.
  ghost predicate Tending(cfg: Settings, c: Ctrl, intent: Option<Intent>, i: Inputs) {
    && !cfg.shadow && Quoting(intent) && !(i.suspended && AllowQuotes(c.watch, i.now)) && FreshBook(cfg, i)
    && forall e :: e in i.active ==> IsQuote(e)
  }

  // A quoting cycle that a stale book keeps from looking at prices.
  ghost predicate Stale(cfg: Settings, c: Ctrl, intent: Option<Intent>, i: Inputs) {
    && !cfg.shadow && Quoting(intent) && !(i.suspended && AllowQuotes(c.watch, i.now)) && !FreshBook(cfg, i)
  }

  // The watchdog's circuit is open, or this observation opens it.
  ghost predicate Unanswered(c: Ctrl, intent: Option<Intent>, i: Inputs) {
    !AllowQuotes(c.watch, i.now)
    || Observe(c.watch, i.now, SpecSides(ExecutableSpecs(i.rules, ToOrderSpecs(intent))), LiveSides(i.active)).1
  }

  ghost predicate TooLong(c: Ctrl, now: real) {
    c.cancelStarted.Some? && now - c.cancelStarted.value >= c.watch.timeout
  }

  /** A side is live exactly when a quote of it has an order that the venue has not denied, and
      expected exactly when the intent has a leg of it above the venue's minima. */
  lemma SidesExactly(active: seq<Executor>, rules: Rules, intent: Option<Intent>, side: Side)
    ensures side in LiveSides(active) <==>
              exists e :: e in active && IsQuote(e) && e.config.side == side && e.hasOrder
                          && (e.venueId.None? || e.venueId.value)
    ensures side in SpecSides(ExecutableSpecs(rules, ToOrderSpecs(intent))) <==>
              exists s :: s in ToOrderSpecs(intent) && s.side == side
                          && s.amount >= rules.minSize && s.amount * s.price >= rules.minNotional
  {
    hide ToOrderSpecs, ExecutableSpecs;
    ExecutableOnes(rules, ToOrderSpecs(intent));
  }

  /** A cycle raises the emergency exactly when a pending refresh has taken too long while it
      matters, a refresh begun on a stale book is already too long, or quotes that should be
      live are unanswered. */
  lemma EmergencyExactly(cfg: Settings, c: Ctrl, intent: Option<Intent>, i: Inputs)
    ensures var anyQuote := exists e :: e in i.active && IsQuote(e);
            Determine(cfg, c, intent, i).emergency <==>
              || (c.pending && TooLong(c, i.now)
                  && (Stale(cfg, c, intent, i) || (Tending(cfg, c, intent, i) && i.active != [])))
              || (!c.pending && Stale(cfg, c, intent, i) && anyQuote && AllowQuotes(c.watch, i.now)
                  && c.watch.timeout <= 0.0)
              || (!c.pending && Tending(cfg, c, intent, i) && Unanswered(c, intent, i))
  {
    hide ExecutionConfig, CreateQuotes, OldestAge, StopsExcept, SpecSides, LiveSides, QuoteSides, ExecutableSpecs,
         ToOrderSpecs, ToExecutionRequest, Observe, Quotes, Closes, FailsafeRequest, Trip, KeepQuotes;
    AnyQuotes(i.active);
  }

  lemma AnyQuotes(active: seq<Executor>)
    ensures Quotes(active) != [] <==> exists e :: e in active && IsQuote(e)
    ensures Closes(active) == [] <==> forall e :: e in active ==> IsQuote(e)
  {
    QuotesOf(active);
    ClosesOf(active);
    assert Quotes(active) != [] ==> Quotes(active)[0] in Quotes(active);
    assert Closes(active) != [] ==> Closes(active)[0] in Closes(active);
    hide Quotes, Closes;
  }

  lemma KeptExactly(cfg: Settings, c: Ctrl, intent: Option<Intent>, i: Inputs)
    requires !c.pending && Tending(cfg, c, intent, i) && i.active != [] && !Unanswered(c, intent, i)
    ensures Quotes(i.active) != [] && forall e :: e in Quotes(i.active) ==> IsQuote(e)
    ensures KeepQuotes(cfg, i, ExecutableSpecs(i.rules, ToOrderSpecs(intent))) <==> QuotesStay(cfg, c, intent, i)
  {
    hide OldestAge, SpecSides, LiveSides, QuoteSides, ExecutableSpecs, ToOrderSpecs, Observe, Quotes, Closes;
    AnyQuotes(i.active);
    QuotesOf(i.active);
    assert i.active[0] in i.active;
    OldestIsOldest(Quotes(i.active), i.now, cfg.refreshInterval);
  }

  /** After a cycle a refresh is pending exactly when one was, still matters and is not too
      long, or when one begins: on a stale book with quotes out and the circuit closed, or
      because the quotes out, answered as they are, may not stay. */
  lemma PendingExactly(cfg: Settings, c: Ctrl, intent: Option<Intent>, i: Inputs)
    requires !cfg.shadow
    ensures var anyQuote := exists e :: e in i.active && IsQuote(e);
            Determine(cfg, c, intent, i).ctrl.pending <==>
              || (c.pending && !TooLong(c, i.now)
                  && (Stale(cfg, c, intent, i) || (Tending(cfg, c, intent, i) && i.active != [])))
              || (!c.pending && Stale(cfg, c, intent, i) && anyQuote && AllowQuotes(c.watch, i.now)
                  && c.watch.timeout > 0.0)
              || (!c.pending && Tending(cfg, c, intent, i) && i.active != [] && !Unanswered(c, intent, i)
                  && !QuotesStay(cfg, c, intent, i))
  {
    hide ExecutionConfig, CreateQuotes, OldestAge, StopsExcept, SpecSides, LiveSides, QuoteSides, ExecutableSpecs,
         ToOrderSpecs, ToExecutionRequest, Observe, Quotes, Closes, FailsafeRequest, Trip, KeepQuotes, QuotesStay;
    AnyQuotes(i.active);
    if !c.pending && Tending(cfg, c, intent, i) && i.active != [] && !Unanswered(c, intent, i) {
      KeptExactly(cfg, c, intent, i);
    }
  }

  /** The failsafe close is created exactly when unanswered quotes have left nothing active
      and there is a position. */
  lemma FailsafeExactly(cfg: Settings, c: Ctrl, intent: Option<Intent>, i: Inputs)
    requires Quoting(intent)
    ensures (exists m :: m in Determine(cfg, c, intent, i).creates && !m.Maker?) <==>
              && !c.pending && Tending(cfg, c, intent, i) && Unanswered(c, intent, i)
              && i.active == [] && Abs(Inventory(intent.value)) >= EPSILON
  {
    hide ExecutionConfig, CreateQuotes, OldestAge, StopsExcept, SpecSides, LiveSides, QuoteSides, ExecutableSpecs,
         ToOrderSpecs, Observe, Quotes, Closes, Trip, KeepQuotes;
    AnyQuotes(i.active);
    SpecsCreateSafely(cfg, i, intent);
    RoutedNotMaker(cfg, i, intent);
    var made := CreateQuotes(cfg, i, ExecutableSpecs(i.rules, ToOrderSpecs(intent)));
    assert forall m :: m in made ==> m.Maker?;
    var req := FailsafeRequest(intent.value);
    if req.Some? {
      var m := ExecutionConfig(cfg, i, req.value);
      assert m in [m];
      if i.active == [] && Unanswered(c, intent, i) && Tending(cfg, c, intent, i) && !c.pending {
        assert Determine(cfg, c, intent, i).creates == [m];
      }
    }
  }

  /** The watchdog observes in a tended cycle with nothing pending whose quotes stay, are
      placed or are unanswered while the circuit is closed; it is left as it is while the
      circuit is open then; in every other cycle its timer is suspended, or it is tripped. */
  lemma WatchedExactly(cfg: Settings, c: Ctrl, intent: Option<Intent>, i: Inputs)
    requires !cfg.shadow
    ensures var after := Determine(cfg, c, intent, i).ctrl.watch;
            if c.pending || !Tending(cfg, c, intent, i) then after.missingSince.None?
            else if !AllowQuotes(c.watch, i.now) then after == c.watch
            else if Unanswered(c, intent, i) || i.active == [] || QuotesStay(cfg, c, intent, i) then
              after == Observe(c.watch, i.now, SpecSides(ExecutableSpecs(i.rules, ToOrderSpecs(intent))),
                               LiveSides(i.active)).0
            else after.missingSince.None?
  {
    hide ExecutionConfig, CreateQuotes, OldestAge, StopsExcept, SpecSides, LiveSides, QuoteSides, ExecutableSpecs,
         ToOrderSpecs, ToExecutionRequest, Observe, Quotes, Closes, FailsafeRequest, KeepQuotes, QuotesStay;
    AnyQuotes(i.active);
    if !c.pending && Tending(cfg, c, intent, i) && i.active != [] && !Unanswered(c, intent, i) {
      KeptExactly(cfg, c, intent, i);
    }
  }

  // ---- What the basket makes of an intent -----------------------------------------------------------

  /** A leg reports an emergency exactly when its circuit is open or the keeper decides one,
      otherwise a stop exactly when the keeper stops quoting. */
  lemma LocalModeExactly(d: KeeperDecision, w: Watch, now: real)
    ensures LocalMode(d, w, now) == Stop.Emergency <==> now < w.openUntil || d.EmergencyExitDecision?
    ensures LocalMode(d, w, now) == Stop.Stop <==> now >= w.openUntil && d.StopQuotingDecision?
    ensures LocalMode(d, w, now) == Stop.Quote <==> now >= w.openUntil && d.OtherDecision?
  {
  }

  /** While the whole basket quotes the keeper's intent stands. Otherwise the leg's close
      request leads from its position exactly to the basket's target, as an emergency exactly
      when the basket's mode is one. */
  lemma BasketTargetIsTraded(intent: Option<Intent>, coin: string, position: real, d: Stop.Decision)
    ensures var t := Transformed(intent, coin, position, d); var r := ToExecutionRequest(t);
            && (d.mode.QuoteAll? ==> t == intent)
            && (!d.mode.QuoteAll? ==>
                  && t.Some? && !Quoting(t) && t.value.coin == coin
                  && (r.None? <==> Abs(d.target - position) < EPSILON)
                  && (r.Some? ==> position + Traded(r.value) == d.target
                                  && (r.value.urgency == EmergencyExit <==> d.mode.EmergencyAll?)
                                  && (r.value.urgency == Immediate <==> !d.mode.EmergencyAll?)))
  {
  }

  /** A close that a cycle created never carries the position past where it should lead,
      late credit apart: at every moment of its run the position lies in between. */
  lemma CloseNeverOvershoots(
      cfg: Settings, c: Ctrl, intent: Option<Intent>, i: Inputs, m: ExecutorConfig, maxRetries: int,
      es: seq<PARuns.Event>, w: PARuns.World)
    requires m in Determine(cfg, c, intent, i).creates && m.PassiveAggressiveRun?
    requires PATheorems.Reaches(RunConfig(m, maxRetries), es, w) && w.late == 0.0
    ensures intent.Some?
    ensures var start := Inventory(intent.value);
            Between(start, start + (if m.side == Buy then w.exec.filled else -w.exec.filled),
                    if Quoting(intent) then 0.0 else intent.value.target)
  {
    hide PATheorems.Reaches, PA.Outstanding, Determine;
    CloseLeadsToTarget(cfg, c, intent, i, m);
    CloseSized(cfg, c, intent, i, m);
    PATheorems.OverExecutionBound(RunConfig(m, maxRetries), es, w);
    PATheorems.FillsNonNegative(RunConfig(m, maxRetries), es, w);
    PASafety.OutstandingNonNegative(w.exec.orders);
  }

  lemma CloseSized(cfg: Settings, c: Ctrl, intent: Option<Intent>, i: Inputs, m: ExecutorConfig)
    requires m in Determine(cfg, c, intent, i).creates && !m.Maker?
    ensures AmountOf(m) > 0.0
  {
    hide ExecutableSpecs, ToOrderSpecs, KeepQuotes, LiveSides, QuoteSides, SpecSides, StopsExcept,
         Observe, Trip, CreateQuotes, Quotes, Closes, DataTooOld, MinChild;
    SpecsCreateSafely(cfg, i, intent);
  }
}
