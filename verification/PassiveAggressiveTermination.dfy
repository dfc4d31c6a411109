/**
 How long a run can take: when ticks keep coming and the venue answers in time, the executor
 has closed by a time computed from its configuration and the market orders it sent.
 */
module PassiveAggressiveTermination {
  import opened Common
  import opened PassiveAggressive
  import opened PassiveAggressiveRuns
  import opened PassiveAggressiveSafety
  import opened PassiveAggressiveOutcome
  import opened PassiveAggressiveTheorems
  import opened PassiveAggressiveProgress
  import Crossed = PassiveAggressiveCrossing

  // ---- A prompt environment ----------------------------------------------------------------

  // Ticks come at most `gap` apart, and an awaited order ends within `answer`.
  datatype Pace = Pace(gap: real, answer: real)

  // The last tick, since when the awaited order has been awaited, and how many market orders
  // were reported cancelled.
  datatype Timing = Timing(tick: real, due: real, cancelled: nat)

  // The open order, once its cancel is requested or if it is a market order.
  function Awaited(s: State): Option<OrderId> {
    var n := |s.orders|;
    if n > 0 && n <= |s.sent| && !s.orders[n - 1].terminal && (n - 1 in s.cancels || s.sent[n - 1].Market?)
    then Some(n - 1) else None
  }

  predicate MarketCancelled(s: State, e: Event) {
    e.OrderCanceled? && 0 <= e.id < |s.sent| && s.sent[e.id].Market?
  }

  function Follow(t: Timing, w: World, e: Event): Timing
    requires WellIndexed(w.exec)
  {
    Timing(if e.Timer? then e.now else t.tick,
           if Awaited(Next(w, e).exec) != Awaited(w.exec) then Next(w, e).clock else t.due,
           if MarketCancelled(w.exec, e) then t.cancelled + 1 else t.cancelled)
  }

  // No timed event is later than the next tick can be, no tick later than an awaited order
  // takes to end, and nobody stops a closed executor.
  predicate Prompt(p: Pace, t: Timing, w: World, e: Event) {
    && (HasTime(e) ==> e.now <= t.tick + p.gap)
    && (e.Timer? && Awaited(w.exec).Some? ==> e.now <= t.due + p.answer)
    && (e.StopRequest? ==> w.exec.status != Terminated)
  }

  ghost predicate PromptRun(p: Pace, t: Timing, w: World, es: seq<Event>)
    decreases |es|
  {
    es == []
    || (Enabled(w, es[0]) && Prompt(p, t, w, es[0]) && PromptRun(p, Follow(t, w, es[0]), Next(w, es[0]), es[1..]))
  }

  ghost function TimingOf(t: Timing, w: World, es: seq<Event>): Timing
    requires LegalRun(w, es)
    decreases |es|
  {
    if es == [] then t else TimingOf(Follow(t, w, es[0]), Next(w, es[0]), es[1..])
  }

  // ---- The bound -----------------------------------------------------------------------------

  function Times(k: nat, x: real): real { if k == 0 then 0.0 else Times(k - 1, x) + x }

  function Scaled(k: nat, x: real): real { k as real * x }

  lemma {:induction false} TimesIs(k: nat, x: real)
    ensures Times(k, x) == Scaled(k, x)
  {
    if k > 0 {
      TimesIs(k - 1, x);
      assert (k - 1) as real * x == k as real * x - x;
    }
  }

  lemma {:induction false} TimesGrow(j: nat, k: nat, x: real)
    requires j <= k && x >= 0.0
    ensures Times(j, x) <= Times(k, x) && (j < k ==> Times(j, x) + x <= Times(k, x))
  {
    if j < k { TimesGrow(j, k - 1, x); }
  }

  function Markets(sent: seq<OrderKind>): nat {
    if sent == [] then 0
    else Markets(sent[..|sent| - 1]) + if sent[|sent| - 1].Market? then 1 else 0
  }

  lemma MarketsAppend(sent: seq<OrderKind>, kind: OrderKind)
    ensures Markets(sent + [kind]) == Markets(sent) + if kind.Market? then 1 else 0
  {
    assert (sent + [kind])[..|sent|] == sent;
  }

  function Limiting(cfg: Config): real { Max(cfg.timeLimit, 0.0) }

  // What one child takes, market orders apart: its time limit, a cancel, and three ticks.
  function PerChild(p: Pace, cfg: Config): real { Limiting(cfg) + p.answer + 3.0 * p.gap }

  function PerMarket(p: Pace): real { p.answer + p.gap }

  // By when `k` children are over, after `m` market orders.
  function Over(p: Pace, cfg: Config, start: real, k: nat, m: nat): real {
    start + p.gap + Times(k, PerChild(p, cfg)) + Times(m, PerMarket(p))
  }

  lemma OverGrows(p: Pace, cfg: Config, start: real, j: nat, k: nat, m: nat)
    requires p.gap >= 0.0 && p.answer >= 0.0 && j <= k
    ensures start + p.gap <= Over(p, cfg, start, j, m) <= Over(p, cfg, start, k, m)
    ensures j < k ==> Over(p, cfg, start, j, m) + PerChild(p, cfg) <= Over(p, cfg, start, k, m)
    ensures Over(p, cfg, start, k, m + 1) == Over(p, cfg, start, k, m) + PerMarket(p)
  {
    TimesGrow(j, k, PerChild(p, cfg));
    TimesGrow(0, j, PerChild(p, cfg));
    TimesGrow(0, m, PerMarket(p));
  }

  // ---- The invariant ---------------------------------------------------------------------------

  // A child that waits for an order to end has one that is awaited.
  ghost predicate Waits(s: State) {
    s.idx < |s.children| && (s.children[s.idx].status.Canceling? || s.children[s.idx].status.Aggressive?) ==>
      Awaited(s).Some?
  }

  // Before the first tick nothing has happened.
  ghost predicate Unstarted(s: State) {
    && s.idx == 0 && s.orders == [] && s.sent == []
    && forall c: nat :: c < |s.children| ==> s.children[c].cycleStart.None? && s.children[c].status.Idle?
  }

  // The current child is where it must be at the last tick; `over` is when its cycle began
  // at the latest, market orders included.
  ghost predicate ChildOnTime(p: Pace, s: State, t: Timing, over: real)
    requires s.idx < |s.children|
  {
    var ch, limit := s.children[s.idx], Limiting(s.cfg);
    && ch.cycleStart.Some? && ch.cycleStart.value <= over
    && t.tick <= over + limit + 2.0 * p.gap + p.answer
    && (!Finished(ch.status) ==> t.tick <= over + limit + p.gap + p.answer)
    && (ch.status.Active? ==> t.tick - ch.cycleStart.value < s.cfg.timeLimit)
    && (Awaited(s).Some? ==> t.due <= over + limit + p.gap)
  }

  ghost predicate OnTime(p: Pace, start: real, w: World, t: Timing) {
    var s := w.exec; var m, n := Markets(s.sent), |s.children|;
    && Waits(s)
    && (s.status != Terminated ==> t.tick <= w.clock <= t.tick + p.gap)
    && match s.status
       case Terminated => true
       case ShuttingDown =>
         && t.tick <= Over(p, s.cfg, start, n, m) + p.answer
         && (Awaited(s).Some? ==> t.due <= Over(p, s.cfg, start, n, m))
       case Running =>
         || (Unstarted(s) && t.tick == start)
         || (s.idx < n && ChildOnTime(p, s, t, Over(p, s.cfg, start, s.idx, m)))
  }

  // ---- Ticks -----------------------------------------------------------------------------------

  // What a tick at `now` does for child k, whose cycle began at `began`.
  ghost predicate TickedChild(s: State, u: State, k: nat, now: real, began: real) {
    && u.cfg == s.cfg && |u.children| == |s.children| && k < |s.children| && u.idx == k && u.status == Running
    && Markets(u.sent) == Markets(s.sent)
    && u.children[k].cycleStart == Some(began)
    && var was, ch := s.children[k].status, u.children[k].status;
       && (ch.Idle? || ch.Active? ==> now - began < s.cfg.timeLimit)
       && (ch.Canceling? ==> was.Canceling? || was.Active?) && (ch.Aggressive? ==> was.Aggressive?)
       && (Awaited(u).None? || Awaited(u) == Awaited(s) || was.Active? || now - began < s.cfg.timeLimit)
  }

  lemma StepChildTicks(s: State, k: nat, now: real, price: Option<real>)
    requires k < |s.children| && s.idx == k && !Finished(s.children[k].status) && s.status == Running
    requires s.children[k].cycleStart.Some? && |s.sent| == |s.orders|
    requires s.children[k].status.Active? ==> s.children[k].tracked == Some(|s.orders| - 1)
    requires !s.children[k].status.Idle? ==> |s.orders| > 0 && !s.orders[|s.orders| - 1].terminal
    requires Waits(s)
    ensures TickedChild(s, StepChild(s, k, now, price), k, now, s.children[k].cycleStart.value)
    ensures Waits(StepChild(s, k, now, price))
  {
    hide Outstanding, Room, Markets;
    if price.Some? { MarketsAppend(s.sent, Limit(price.value)); }
  }

  lemma StepTicks(w: World, e: Event)
    requires Shape(w.exec, w.ended) && Clocked(w.exec, w.clock) && Enabled(w, e) && e.Timer?
    requires w.exec.status == Running && Waits(w.exec)
    ensures var s, u := w.exec, Next(w, e).exec; var k := FirstUnfinished(s.children, s.idx);
            && Waits(u)
            && (k == |s.children| ==> u.status == Terminated)
            && (k < |s.children| ==>
                  && (s.idx < k ==> s.children[k].cycleStart.None? && s.children[k].status.Idle?)
                  && TickedChild(s, u, k, e.now,
                                 if s.children[k].cycleStart.Some? then s.children[k].cycleStart.value else e.now))
  {
    hide Outstanding, RecordOk, StepChild, OpenIds, OrderOk, Drain;
    var s := w.exec;
    var k := FirstUnfinished(s.children, s.idx);
    var s0 := s.(idx := k);
    AdvanceShape(s, w.ended);
    if k == |s.children| {
      NoneOpen(s0, w.ended);
    } else {
      assert ChildOk(s, w.ended, k);
      assert Timed(s.children[k], s.cancels, w.clock);
      var s1 := SetChild(s0, k, StartCycle(s.children[k], e.now));
      assert Awaited(s1) == Awaited(s);
      StepChildTicks(s1, k, e.now, e.price);
      assert Next(w, e).exec == StepChild(s1, k, e.now, e.price);
    }
  }

  lemma NoneAwaited(s: State)
    requires s.orders == []
    ensures Awaited(s).None?
  {
  }

  lemma TimerOnTime(p: Pace, start: real, w: World, t: Timing, e: Event)
    requires p.gap >= 0.0 && p.answer >= 0.0
    requires Shape(w.exec, w.ended) && Clocked(w.exec, w.clock) && Enabled(w, e) && e.Timer?
    requires OnTime(p, start, w, t) && Prompt(p, t, w, e) && w.exec.status == Running
    ensures OnTime(p, start, Next(w, e), Follow(t, w, e))
  {
    hide Outstanding, RecordOk, Shape, Clocked, Apply, Over, Legal, Awaited, Markets;
    var s, u := w.exec, Next(w, e).exec;
    var k, m := FirstUnfinished(s.children, s.idx), Markets(s.sent);
    StepTicks(w, e);
    if s.orders == [] { NoneAwaited(s); }
    if k < |s.children| {
      OverGrows(p, s.cfg, start, s.idx, k, m);
    }
  }

  // Once stopped, an order that is open is awaited.
  lemma OpenAwaited(s: State, ended: map<OrderId, Ending>, clock: real)
    requires Shape(s, ended) && Clocked(s, clock) && s.status != Running
    ensures s.orders != [] && !s.orders[|s.orders| - 1].terminal ==> Awaited(s) == Some(|s.orders| - 1)
    ensures Awaited(s).None? ==> Outstanding(s.orders) == 0.0
  {
    hide Outstanding;
    ShapeOutstanding(s, ended);
    if s.orders != [] && !s.orders[|s.orders| - 1].terminal {
      assert |s.orders| - 1 in OpenIds(s.orders);
    }
  }

  lemma DrainOnTime(p: Pace, start: real, w: World, t: Timing, e: Event)
    requires p.gap >= 0.0 && p.answer >= 0.0
    requires Shape(w.exec, w.ended) && Clocked(w.exec, w.clock) && Enabled(w, e) && e.Timer?
    requires OnTime(p, start, w, t) && Prompt(p, t, w, e) && w.exec.status != Running
    ensures OnTime(p, start, Next(w, e), Follow(t, w, e))
  {
    hide Outstanding, RecordOk, Shape, Clocked, Over, Markets;
    OpenAwaited(w.exec, w.ended, w.clock);
    var s, u := w.exec, Next(w, e).exec;
    if s.status == ShuttingDown && u.status == ShuttingDown {
      assert Awaited(s).Some?;
      var n := |s.orders| - 1;
      assert n in s.cancels || s.sent[n].Market?;
    }
  }

  lemma StopOnTime(p: Pace, start: real, w: World, t: Timing, e: Event)
    requires p.gap >= 0.0 && p.answer >= 0.0
    requires Shape(w.exec, w.ended) && Clocked(w.exec, w.clock) && Enabled(w, e) && e.StopRequest?
    requires OnTime(p, start, w, t) && Prompt(p, t, w, e)
    ensures OnTime(p, start, Next(w, e), Follow(t, w, e))
  {
    hide Outstanding, RecordOk, Shape, Clocked, Over, Markets;
    var s, u := w.exec, Next(w, e).exec;
    var m, n := Markets(s.sent), |s.children|;
    if s.status == ShuttingDown { OpenAwaited(s, w.ended, w.clock); }
    if s.idx < n { OverGrows(p, s.cfg, start, s.idx, n, m); } else { OverGrows(p, s.cfg, start, n, n, m); }
    OverGrows(p, s.cfg, start, 0, n, m);
  }

  // ---- Callbacks -------------------------------------------------------------------------------

  // What an order's event does to the state, as far as time is concerned: it may submit one
  // market order for the unfinished current child, and begins no other wait unless a resting
  // order is cancelled.
  ghost predicate Callback(s: State, u: State) {
    && u.idx == s.idx && |u.children| == |s.children| && u.cfg == s.cfg
    && (u.status == s.status || u.status == Terminated)
    && (s.idx < |s.children| ==>
          var a, b := s.children[s.idx], u.children[s.idx];
          && b.cycleStart == a.cycleStart && (Finished(a.status) ==> Finished(b.status))
          && (b.status.Active? ==> a.status.Active?))
    && (s.orders == [] ==> u.orders == [] && u.children == s.children)
    && if |u.orders| > |s.orders| then
         && u.sent == s.sent + [Market] && s.status == Running
         && s.idx < |s.children| && !Finished(s.children[s.idx].status) && s.children[s.idx].cycleStart.Some?
       else
         && |u.orders| == |s.orders| && u.sent == s.sent
         && (s.orders != [] && s.orders[|s.orders| - 1].terminal ==> u.orders[|s.orders| - 1].terminal)
         && (Awaited(u).None? || Awaited(u) == Awaited(s)
             || (s.idx < |s.children| && s.children[s.idx].status.Active?))
  }

  lemma ReconcileCallback(s: State, id: OrderId)
    requires s.idx <= |s.children| && |s.sent| == |s.orders| > 0 && Waits(s)
    requires s.idx < |s.children| && s.children[s.idx].status.Active? ==>
               s.children[s.idx].tracked == Some(|s.orders| - 1) && !s.orders[|s.orders| - 1].terminal
    ensures Callback(s, Reconcile(s, id)) && Waits(Reconcile(s, id))
  {
    hide Room, Tracks;
  }

  lemma FilledCallback(w: World, e: Event)
    requires Shape(w.exec, w.ended) && Clocked(w.exec, w.clock) && Enabled(w, e) && e.Filled? && Waits(w.exec)
    ensures Callback(w.exec, Next(w, e).exec) && Waits(Next(w, e).exec)
  {
    hide Outstanding, RecordOk, Room, Residual, OpenIds, Credit, Reconcile, OrderOk, Clocked, Tracks;
    var s := w.exec;
    if Known(s, e.id) && !Replayed(s, e.id, e.trade) {
      var s1 := s.(orders := s.orders[e.id := FilledRecord(s.orders[e.id], e.trade, e.amount)]);
      CreditFrame(s1, e.id);
      if s.idx < |s.children| { assert ChildOk(s, w.ended, s.idx); }
      ReconcileCallback(Credit(s1, e.id), e.id);
    }
  }

  lemma CompletedCallback(w: World, e: Event)
    requires Shape(w.exec, w.ended) && Clocked(w.exec, w.clock) && Enabled(w, e) && e.OrderCompleted? && Waits(w.exec)
    ensures Callback(w.exec, Next(w, e).exec) && Waits(Next(w, e).exec)
  {
    hide Outstanding, RecordOk, OpenIds, Credit, OrderOk, ChildOk, Clocked;
    var s := w.exec;
    if Known(s, e.id) {
      var r := s.orders[e.id].(terminal := true, reported := Max(s.orders[e.id].reported, e.amount));
      TrackedOrder(s, w.ended, e.id);
      CreditFrame(s.(orders := s.orders[e.id := r]), e.id);
    }
  }

  lemma CanceledCallback(w: World, e: Event)
    requires Shape(w.exec, w.ended) && Clocked(w.exec, w.clock) && Enabled(w, e) && e.OrderCanceled? && Waits(w.exec)
    ensures Callback(w.exec, Next(w, e).exec) && Waits(Next(w, e).exec)
  {
    hide Outstanding, RecordOk, OpenIds, OrderOk, ChildOk;
    var s := w.exec;
    if Known(s, e.id) { TrackedOrder(s, w.ended, e.id); }
    if s.idx < |s.children| {
      assert ChildOk(s, w.ended, s.idx);
      assert Timed(s.children[s.idx], s.cancels, w.clock);
    }
  }

  lemma FailedCallback(w: World, e: Event)
    requires Shape(w.exec, w.ended) && Clocked(w.exec, w.clock) && Enabled(w, e) && e.OrderFailed? && Waits(w.exec)
    ensures Callback(w.exec, Next(w, e).exec) && Waits(Next(w, e).exec)
  {
    hide Outstanding, RecordOk, OpenIds, RetryDelay, OrderOk, ChildOk, Room, Residual;
    var s := w.exec;
    if Known(s, e.id) { TrackedOrder(s, w.ended, e.id); }
    if s.idx < |s.children| {
      assert ChildOk(s, w.ended, s.idx);
      assert Timed(s.children[s.idx], s.cancels, w.clock);
    }
  }

  lemma CallbackOnTime(p: Pace, start: real, w: World, t: Timing, e: Event)
    requires p.gap >= 0.0 && p.answer >= 0.0 && HasOrder(e)
    requires Shape(w.exec, w.ended) && Clocked(w.exec, w.clock) && Enabled(w, e)
    requires OnTime(p, start, w, t) && Prompt(p, t, w, e)
    requires Callback(w.exec, Next(w, e).exec) && Waits(Next(w, e).exec)
    ensures OnTime(p, start, Next(w, e), Follow(t, w, e))
  {
    hide Outstanding, RecordOk, Shape, Clocked, Apply, Over, Legal, Markets, Waits, Callback;
    match w.exec.status
    case Running => RunningCallback(p, start, w, t, e);
    case ShuttingDown => StoppedCallback(p, start, w, t, e);
    case Terminated => assert Next(w, e).exec.status == Terminated by { ClosedCallback(w.exec, Next(w, e).exec); }
  }

  lemma ClosedCallback(s: State, u: State)
    requires Callback(s, u) && s.status == Terminated
    ensures u.status == Terminated
  {
  }

  lemma TimeMoves(w: World, e: Event)
    requires Enabled(w, e)
    ensures Next(w, e).clock == (if HasTime(e) then e.now else w.clock) >= w.clock
  {
    hide Apply;
  }

  lemma RunningCallback(p: Pace, start: real, w: World, t: Timing, e: Event)
    requires p.gap >= 0.0 && p.answer >= 0.0 && HasOrder(e)
    requires Enabled(w, e) && OnTime(p, start, w, t) && Prompt(p, t, w, e) && w.exec.status == Running
    requires Callback(w.exec, Next(w, e).exec) && Waits(Next(w, e).exec)
    ensures OnTime(p, start, Next(w, e), Follow(t, w, e))
  {
    hide Outstanding, RecordOk, Apply, Over, Legal, Markets, Waits, Awaited;
    var s, u := w.exec, Next(w, e).exec;
    var m := Markets(s.sent);
    TimeMoves(w, e);
    MarketsAppend(s.sent, Market);
    if s.orders == [] { NoneAwaited(s); }
    if Unstarted(s) && t.tick == start {
      assert u.status == Running ==> Unstarted(u);
    } else {
      OverGrows(p, s.cfg, start, s.idx, s.idx, m);
    }
  }

  lemma StoppedCallback(p: Pace, start: real, w: World, t: Timing, e: Event)
    requires HasOrder(e) && Shape(w.exec, w.ended) && Clocked(w.exec, w.clock) && Enabled(w, e)
    requires OnTime(p, start, w, t) && Prompt(p, t, w, e) && w.exec.status == ShuttingDown
    requires Callback(w.exec, Next(w, e).exec) && Waits(Next(w, e).exec)
    ensures OnTime(p, start, Next(w, e), Follow(t, w, e))
  {
    hide Outstanding, RecordOk, Shape, Clocked, Apply, Over, Legal, Markets, Waits;
    TimeMoves(w, e);
    OpenAwaited(w.exec, w.ended, w.clock);
  }

  lemma OrderOnTime(p: Pace, start: real, w: World, t: Timing, e: Event)
    requires p.gap >= 0.0 && p.answer >= 0.0 && HasOrder(e)
    requires Shape(w.exec, w.ended) && Clocked(w.exec, w.clock) && Enabled(w, e)
    requires OnTime(p, start, w, t) && Prompt(p, t, w, e)
    ensures Callback(w.exec, Next(w, e).exec)
    ensures OnTime(p, start, Next(w, e), Follow(t, w, e))
  {
    hide Shape, Clocked, Apply, Legal, Prompt, Waits, Callback;
    match e {
      case Filled(_, _, _) => FilledCallback(w, e);
      case OrderCompleted(_, _) => CompletedCallback(w, e);
      case OrderCanceled(_) => CanceledCallback(w, e);
      case OrderFailed(_, _, _) => FailedCallback(w, e);
    }
    CallbackOnTime(p, start, w, t, e);
  }

  lemma NextOnTime(p: Pace, start: real, w: World, t: Timing, e: Event)
    requires p.gap >= 0.0 && p.answer >= 0.0
    requires Inv(w) && Clocked(w.exec, w.clock) && Enabled(w, e)
    requires OnTime(p, start, w, t) && Prompt(p, t, w, e)
    ensures OnTime(p, start, Next(w, e), Follow(t, w, e))
  {
    hide Inv, Shape, Clocked, Apply, Legal, Prompt, OnTime;
    InvShape(w);
    if HasOrder(e) {
      OrderOnTime(p, start, w, t, e);
    } else if e.StopRequest? {
      StopOnTime(p, start, w, t, e);
    } else if w.exec.status == Running {
      TimerOnTime(p, start, w, t, e);
    } else {
      DrainOnTime(p, start, w, t, e);
    }
  }

  // ---- How many market orders ------------------------------------------------------------------

  function Allowed(cfg: Config): nat { if cfg.maxRetries > 0 then cfg.maxRetries else 0 }

  // A retry used, as far as it allows another market order.
  function Retried(s: State): int { if s.retries < Allowed(s.cfg) then s.retries else Allowed(s.cfg) }

  // One market order per child, one per retry, and one per market order the venue cancelled.
  ghost predicate Counted(s: State, cancelled: nat) {
    && s.retries >= 0
    && Markets(s.sent) <= s.idx + Retried(s) + cancelled
                          + if s.idx < |s.children| && Crossed.HasMarket(s, s.idx) then 1 else 0
  }

  // A callback submits a market order for the current child only when its newest order was
  // cancelled, or failed with retries left.
  lemma CallbackSubmits(w: World, e: Event)
    requires Shape(w.exec, w.ended) && Enabled(w, e) && HasOrder(e)
    ensures var s, u := w.exec, Next(w, e).exec; var n := |s.orders|;
            && u.retries >= s.retries
            && (|u.orders| > n ==>
                  && |u.orders| == n + 1 && e.id == n - 1
                  && s.orders[n - 1].child == s.idx && u.orders[n].child == s.idx
                  && (e.OrderCanceled? || u.retries == s.retries + 1 <= s.cfg.maxRetries))
  {
    hide Outstanding, RecordOk, OrderOk, ChildOk, OpenIds, RetryDelay;
    if Known(w.exec, e.id) { TrackedOrder(w.exec, w.ended, e.id); }
  }

  lemma OrderCounted(w: World, e: Event, cancelled: nat)
    requires Inv(w) && Enabled(w, e) && HasOrder(e) && Callback(w.exec, Next(w, e).exec)
    requires Counted(w.exec, cancelled)
    ensures Counted(Next(w, e).exec, if MarketCancelled(w.exec, e) then cancelled + 1 else cancelled)
  {
    hide Books, Bounds, Reconciled, Outcome, Shape, Legal, Apply, Markets;
    var s, u := w.exec, Next(w, e).exec;
    var n := |s.orders|;
    CallbackSubmits(w, e);
    NextOwners(w, e);
    NextCrossing(w, e);
    MarketsAppend(s.sent, Market);
    Crossed.MarketAppended(s, u, s.idx);
    if |u.orders| > n && e.OrderCanceled? && !MarketCancelled(s, e) {
      LimitFirst(s, w.clock);
    }
  }

  // No market order precedes a limit order of the same child.
  lemma LimitFirst(s: State, clock: real)
    requires Crossing(s, clock) && |s.orders| > 0
    requires s.sent[|s.orders| - 1].Limit?
    ensures !Crossed.HasMarket(s, s.orders[|s.orders| - 1].child)
  {
  }

  // A tick submits at most a limit order.
  lemma TickSends(w: World, e: Event)
    requires Shape(w.exec, w.ended) && Clocked(w.exec, w.clock) && Enabled(w, e)
    requires e.Timer? && w.exec.status == Running
    ensures var s, u := w.exec, Next(w, e).exec; var n := |s.orders|;
            && u.retries == s.retries && u.idx == FirstUnfinished(s.children, s.idx) && |u.children| == |s.children|
            && u.cfg == s.cfg
            && |s.sent| == n <= |u.orders| == |u.sent| <= n + 1 && u.sent[..n] == s.sent
            && (|u.sent| > n ==> u.sent[n].Limit?)
  {
    hide Outstanding, RecordOk, StepChild, OpenIds, OrderOk, Drain;
    var s := w.exec;
    var k := FirstUnfinished(s.children, s.idx);
    if k < |s.children| {
      assert ChildOk(s, w.ended, k) && Timed(s.children[k], s.cancels, w.clock);
      var s1 := SetChild(s.(idx := k), k, StartCycle(s.children[k], e.now));
      StepChildSends(s1, k, e.now, e.price);
      assert Next(w, e).exec == StepChild(s1, k, e.now, e.price);
    }
  }

  lemma StepChildSends(s: State, k: nat, now: real, price: Option<real>)
    requires k < |s.children| && s.children[k].cycleStart.Some? && |s.sent| == |s.orders|
    ensures var u := StepChild(s, k, now, price); var n := |s.orders|;
            && u.retries == s.retries && u.idx == s.idx && |u.children| == |s.children| && u.cfg == s.cfg
            && n <= |u.orders| == |u.sent| <= n + 1 && u.sent[..n] == s.sent
            && (|u.sent| > n ==> u.sent[n].Limit?)
  {
    hide Outstanding, Room;
  }

  lemma TickCounted(w: World, e: Event, cancelled: nat)
    requires Inv(w) && Clocked(w.exec, w.clock) && Enabled(w, e) && !HasOrder(e)
    requires Counted(w.exec, cancelled)
    ensures Counted(Next(w, e).exec, cancelled)
  {
    hide Books, Bounds, Reconciled, Outcome, Shape, Legal, Markets, Step, OpenIds, Clocked, Outstanding;
    var s, u := w.exec, Next(w, e).exec;
    NextOwners(w, e);
    NextCrossing(w, e);
    if e.Timer? && s.status == Running {
      TickSends(w, e);
      Crossed.MarketAppended(s, u, s.idx);
      if |u.sent| > |s.sent| {
        MarketsAppend(s.sent, u.sent[|s.sent|]);
        assert u.sent == u.sent[..|s.sent|] + [u.sent[|s.sent|]];
      } else {
        assert u.sent == u.sent[..|s.sent|];
      }
    }
  }

  lemma NextCounted(p: Pace, start: real, w: World, t: Timing, e: Event)
    requires p.gap >= 0.0 && p.answer >= 0.0
    requires Inv(w) && Clocked(w.exec, w.clock) && Enabled(w, e)
    requires OnTime(p, start, w, t) && Prompt(p, t, w, e) && Counted(w.exec, t.cancelled)
    ensures OnTime(p, start, Next(w, e), Follow(t, w, e)) && Counted(Next(w, e).exec, Follow(t, w, e).cancelled)
  {
    hide Inv, Shape, Clocked, Apply, Legal, Prompt, OnTime, Counted, Callback;
    NextOnTime(p, start, w, t, e);
    if HasOrder(e) {
      InvShape(w);
      OrderOnTime(p, start, w, t, e);
      OrderCounted(w, e, t.cancelled);
    } else {
      TickCounted(w, e, t.cancelled);
    }
  }

  // ---- Every prompt run ends ---------------------------------------------------------------------

  lemma {:induction false} RunOnTime(p: Pace, start: real, w: World, t: Timing, es: seq<Event>)
    requires p.gap >= 0.0 && p.answer >= 0.0
    requires Inv(w) && Clocked(w.exec, w.clock) && OnTime(p, start, w, t) && Counted(w.exec, t.cancelled)
    requires PromptRun(p, t, w, es)
    ensures LegalRun(w, es)
    ensures OnTime(p, start, RunOf(w, es), TimingOf(t, w, es))
    ensures Counted(RunOf(w, es).exec, TimingOf(t, w, es).cancelled)
    decreases |es|
  {
    hide Inv, Clocked, Prompt, OnTime, Legal, Apply, Counted;
    if es != [] {
      NextInv(w, es[0]);
      NextClocked(w, es[0]);
      NextCounted(p, start, w, t, es[0]);
      RunOnTime(p, start, Next(w, es[0]), Follow(t, w, es[0]), es[1..]);
    }
  }

  // By when an executor of n children has closed, after the venue cancelled so many of its
  // market orders.
  function Deadline(p: Pace, cfg: Config, start: real, n: nat, cancelled: nat): real {
    start + 2.0 * p.gap + p.answer + Scaled(n, PerChild(p, cfg))
    + Scaled(n + Allowed(cfg) + cancelled, PerMarket(p))
  }

  /** When ticks come at most `gap` apart and each order ends within `answer` of its cancel
      request or of its submission as a market order, every run is TERMINATED by a time
      computed from the configuration: the time limit, one answer and three ticks per child,
      an answer and a tick for one market order per child, per allowed retry and per market
      order that the venue cancelled, and two ticks and an answer for a stop. */
  lemma ClosesInTime(cfg: Config, start: real, w0: World, p: Pace, es: seq<Event>)
    requires StartOf(cfg, start, w0) && p.gap >= 0.0 && p.answer >= 0.0
    requires PromptRun(p, Timing(start, start, 0), w0, es)
    ensures LegalRun(w0, es)
    ensures var w := RunOf(w0, es); var cancelled := TimingOf(Timing(start, start, 0), w0, es).cancelled;
            && w.clock > Deadline(p, cfg, start, |w0.exec.children|, cancelled) ==> w.exec.status == Terminated
    ensures Markets(RunOf(w0, es).exec.sent)
            <= |w0.exec.children| + Allowed(cfg) + TimingOf(Timing(start, start, 0), w0, es).cancelled
  {
    hide Inv, Clocked, OnTime, Counted, PromptRun, Over, StartOf, Deadline, Markets, Allowed, Apply, Legal;
    var t := Timing(start, start, 0);
    StartInv(cfg, start, w0);
    StartClocked(cfg, start, w0);
    StartOnTime(cfg, start, w0, p);
    RunOnTime(p, start, w0, t, es);
    var w, t1 := RunOf(w0, es), TimingOf(t, w0, es);
    EndOfRun(cfg, start, w0, es);
    CountedBound(w, t1.cancelled);
    if w.exec.status != Terminated {
      OnTimeBound(p, start, w, t1);
      OverByDeadline(p, cfg, start, |w0.exec.children|, Markets(w.exec.sent), t1.cancelled);
    }
  }

  lemma EndOfRun(cfg: Config, start: real, w0: World, es: seq<Event>)
    requires StartOf(cfg, start, w0) && LegalRun(w0, es)
    ensures var w := RunOf(w0, es);
            Inv(w) && w.exec.cfg == cfg && |w.exec.children| == |w0.exec.children| && w.exec.idx <= |w.exec.children|
  {
    hide Apply, Legal, Books, Bounds, Outcome, Crossing, Reconciled;
    StartInv(cfg, start, w0);
    assert Reaches(cfg, es, RunOf(w0, es));
    ReachesInv(cfg, es, RunOf(w0, es));
    RunKeepsPlan(w0, es);
    assert |Targets(RunOf(w0, es).exec.children)| == |Targets(w0.exec.children)|;
  }

  lemma StartOnTime(cfg: Config, start: real, w0: World, p: Pace)
    requires StartOf(cfg, start, w0) && p.gap >= 0.0
    ensures OnTime(p, start, w0, Timing(start, start, 0)) && Counted(w0.exec, 0)
  {
    ChildrenCoverTotal(cfg.total, cfg.childQuantity);
    forall c: nat | c < |w0.exec.children|
      ensures w0.exec.children[c].cycleStart.None? && w0.exec.children[c].status.Idle? {
      assert w0.exec.children[c] == FreshChild(w0.exec.children[c].target);
    }
  }

  lemma CountedBound(w: World, cancelled: nat)
    requires Inv(w) && Counted(w.exec, cancelled)
    ensures Markets(w.exec.sent) <= |w.exec.children| + Allowed(w.exec.cfg) + cancelled
  {
    hide Markets, Books, Bounds, Crossing, Outcome, Reconciled;
  }

  lemma OnTimeBound(p: Pace, start: real, w: World, t: Timing)
    requires p.gap >= 0.0 && p.answer >= 0.0 && OnTime(p, start, w, t) && w.exec.status != Terminated
    requires w.exec.idx <= |w.exec.children|
    ensures var s := w.exec;
            w.clock <= Over(p, s.cfg, start, |s.children|, Markets(s.sent)) + p.gap + p.answer
  {
    hide Markets, Over, Waits, Awaited;
    var cfg, n, m := w.exec.cfg, |w.exec.children|, Markets(w.exec.sent);
    if w.exec.idx < n { OverGrows(p, cfg, start, w.exec.idx, n, m); } else { OverGrows(p, cfg, start, 0, n, m); }
  }

  lemma MarketTime(p: Pace)
    requires p.gap >= 0.0 && p.answer >= 0.0
    ensures PerMarket(p) >= 0.0
  {
  }

  lemma OverByDeadline(p: Pace, cfg: Config, start: real, n: nat, m: nat, cancelled: nat)
    requires p.gap >= 0.0 && p.answer >= 0.0 && m <= n + Allowed(cfg) + cancelled
    ensures Over(p, cfg, start, n, m) + p.gap + p.answer <= Deadline(p, cfg, start, n, cancelled)
  {
    hide Times, Scaled, PerChild, PerMarket, Allowed;
    MarketTime(p);
    var most := n + Allowed(cfg) + cancelled;
    TimesIs(n, PerChild(p, cfg));
    TimesGrow(m, most, PerMarket(p));
    TimesIs(most, PerMarket(p));
  }
}
