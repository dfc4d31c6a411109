/**
 What one event does to a reachable executor, exactly: when a tick submits or cancels, what a
 failure costs, when an idle child is placed again, and what a stop reports.
 */
module PassiveAggressiveSteps {
  import opened Common
  import opened PassiveAggressive
  import opened PassiveAggressiveRuns
  import opened PassiveAggressiveSafety
  import opened PassiveAggressiveOutcome
  import opened PassiveAggressiveTheorems
  import opened PassiveAggressiveProgress

  // ---- When a tick submits --------------------------------------------------------------------

  // The child a tick looks at.
  function Current(s: State): nat
    requires s.idx <= |s.children|
  {
    FirstUnfinished(s.children, s.idx)
  }

  // The child's cycle is over at `now`; a cycle not begun begins now.
  predicate Over(ch: Child, timeLimit: real, now: real) {
    if ch.cycleStart.Some? then now - ch.cycleStart.value >= timeLimit else 0.0 >= timeLimit
  }

  // An IDLE child whose cycle is not over and whose retry time has come.
  predicate Due(ch: Child, timeLimit: real, now: real) {
    ch.status.Idle? && !Over(ch, timeLimit, now) && (ch.retryAt.Some? ==> ch.retryAt.value <= now)
  }

  predicate Priced(price: Option<real>) { price.Some? && price.value > 0.0 }

  /** A tick of a running executor starts the cycle of its current child, once. It submits
      exactly when that child is IDLE within its cycle, no retry time is ahead, the book has a
      price and the child lacks something. It is then one limit order at that price for all the
      child lacks, and the child rests from now on. Without a price the child tries again in a
      second; lacking nothing it is DONE. */
  lemma TickSubmitsExactly(cfg: Config, es: seq<Event>, w: World, now: real, price: Option<real>)
    requires Reaches(cfg, es, w) && w.exec.status == Running && now >= w.clock
    ensures WellIndexed(w.exec)
    ensures var s, t, c := w.exec, Tick(w.exec, now, price), Current(w.exec); var n := |s.orders|;
            && (|t.orders| > n <==>
                  c < |s.children| && Due(s.children[c], cfg.timeLimit, now) && Priced(price) && Residual(s, c) > 0.0)
            && (|t.orders| > n ==>
                  && t.orders == s.orders + [Record(c, Residual(s, c), 0.0, 0.0, 0.0, {}, false)]
                  && t.sent == s.sent + [Limit(price.value)] && c < |t.children|
                  && t.children[c].status.Active? && t.children[c].tracked == Some(n)
                  && t.children[c].refreshStart == Some(now))
            && (c < |s.children| ==>
                  && c < |t.children| && t.idx == c
                  && t.children[c].cycleStart == Some(if s.children[c].cycleStart.Some?
                                                      then s.children[c].cycleStart.value else now))
            && (c < |s.children| && Due(s.children[c], cfg.timeLimit, now) ==>
                  && c < |t.children|
                  && (!Priced(price) ==> t.children[c].status.Idle? && t.children[c].retryAt == Some(now + 1.0))
                  && (Priced(price) && Residual(s, c) <= 0.0 ==> t.children[c].status.Done?))
  {
    hide Reaches, Outstanding, Books, Bounds, Crossing, Outcome, Reconciled, StepChild, RecordOk, OrderOk, Clocked;
    ReachesClocked(cfg, es, w);
    var s, c := w.exec, Current(w.exec);
    AdvanceShape(s, w.ended);
    if c < |s.children| {
      assert ChildOk(s, w.ended, c);
      if s.children[c].status.Idle? { NoneOpen(s.(idx := c), w.ended); }
      StepSubmits(SetChild(s.(idx := c), c, StartCycle(s.children[c], now)), c, now, price);
    }
  }

  lemma StepSubmits(s: State, c: nat, now: real, price: Option<real>)
    requires c < |s.children| && s.children[c].cycleStart.Some? && !Finished(s.children[c].status)
    requires s.children[c].status.Idle? ==> Outstanding(s.orders) == 0.0
    ensures var t := StepChild(s, c, now, price); var n := |s.orders|;
            var due := Due(s.children[c], s.cfg.timeLimit, now);
            && |t.children| == |s.children| && |t.orders| >= n
            && t.idx == s.idx && t.children[c].cycleStart == s.children[c].cycleStart
            && (|t.orders| > n <==> due && Priced(price) && Residual(s, c) > 0.0)
            && (|t.orders| > n ==>
                  && t.orders == s.orders + [Record(c, Residual(s, c), 0.0, 0.0, 0.0, {}, false)]
                  && t.sent == s.sent + [Limit(price.value)]
                  && t.children[c].status.Active? && t.children[c].tracked == Some(n)
                  && t.children[c].refreshStart == Some(now))
            && (due && !Priced(price) ==> t.children[c].status.Idle? && t.children[c].retryAt == Some(now + 1.0))
            && (due && Priced(price) && Residual(s, c) <= 0.0 ==> t.children[c].status.Done?)
  {
    hide Outstanding;
  }

  // ---- An idle child is placed again ------------------------------------------------------------

  // The executor runs and its current child is IDLE.
  predicate Waiting(s: State, c: nat) {
    s.status == Running && c < |s.children| && s.idx == c && s.children[c].status.Idle?
  }

  // Nobody stops the run, and the book gives no price.
  predicate Quiet(e: Event) { !e.StopRequest? && (e.Timer? ==> !Priced(e.price)) }

  lemma QuietWaits(v: World, e: Event, c: nat, now: real)
    requires Shape(v.exec, v.ended) && Enabled(v, e) && Waiting(v.exec, c) && Quiet(e)
    requires (e.Timer? ==> e.now <= now) && !Over(v.exec.children[c], v.exec.cfg.timeLimit, now)
    requires v.exec.children[c].cycleStart.Some?
    ensures StillWaits(v.exec, Next(v, e).exec, c)
  {
    hide Shape, Legal, Waiting, Over, StillWaits;
    match e
    case Timer(_, _) => QuietTick(v, e, c, now);
    case Filled(_, _, _) => QuietFill(v, e, c);
    case OrderCompleted(_, _) => QuietEnding(v, e, c);
    case OrderCanceled(_) => QuietEnding(v, e, c);
    case OrderFailed(_, _, _) => QuietEnding(v, e, c);
  }

  ghost predicate StillWaits(s: State, t: State, c: nat)
    requires c < |s.children|
  {
    Waiting(t, c) && t.children[c].cycleStart == s.children[c].cycleStart && t.cfg == s.cfg
  }

  lemma QuietTick(v: World, e: Event, c: nat, now: real)
    requires WellIndexed(v.exec) && Waiting(v.exec, c) && e.Timer? && Quiet(e) && e.now <= now
    requires !Over(v.exec.children[c], v.exec.cfg.timeLimit, now) && v.exec.children[c].cycleStart.Some?
    ensures StillWaits(v.exec, Next(v, e).exec, c)
  {
    hide Outstanding, Room;
  }

  lemma QuietFill(v: World, e: Event, c: nat)
    requires WellIndexed(v.exec) && Waiting(v.exec, c) && e.Filled?
    ensures StillWaits(v.exec, Next(v, e).exec, c)
  {
    hide Outstanding, Room;
  }

  // An order that ends without being the child's own leaves it as it is.
  lemma QuietEnding(v: World, e: Event, c: nat)
    requires Shape(v.exec, v.ended) && Enabled(v, e) && Waiting(v.exec, c) && HasOrder(e) && !e.Filled?
    ensures StillWaits(v.exec, Next(v, e).exec, c)
  {
    hide Outstanding, RecordOk, OrderOk, RetryDelay, Room, Residual;
    assert ChildOk(v.exec, v.ended, c);
    if Known(v.exec, e.id) { TrackedOrder(v.exec, v.ended, e.id); }
  }

  lemma {:induction false} RunWaits(v: World, es: seq<Event>, c: nat, now: real)
    requires Inv(v) && LegalRun(v, es) && Waiting(v.exec, c) && v.exec.children[c].cycleStart.Some?
    requires forall k :: 0 <= k < |es| ==> Quiet(es[k]) && (es[k].Timer? ==> es[k].now <= now)
    requires !Over(v.exec.children[c], v.exec.cfg.timeLimit, now)
    ensures Inv(RunOf(v, es)) && Waiting(RunOf(v, es).exec, c)
    ensures RunOf(v, es).exec.children[c].cycleStart == v.exec.children[c].cycleStart
    ensures RunOf(v, es).exec.cfg == v.exec.cfg
    decreases |es|
  {
    hide Inv, Shape, Waiting, Apply, Legal;
    if es != [] {
      InvShape(v);
      NextInv(v, es[0]);
      CurrentWaits(v.exec, c);
      QuietWaits(v, es[0], c, now);
      WaitsFacts(Next(v, es[0]).exec, c);
      RunWaits(Next(v, es[0]), es[1..], c, now);
    }
  }

  lemma WaitsFacts(s: State, c: nat)
    requires Waiting(s, c)
    ensures c < |s.children|
  {
  }

  // A cancel acknowledged before the cycle is over leaves the child IDLE.
  lemma AcknowledgedWaits(w: World, id: OrderId)
    requires Inv(w) && Clocked(w.exec, w.clock) && w.exec.status == Running && Enabled(w, OrderCanceled(id))
    requires Tracks(w.exec, id) && !Expired(w.exec, w.exec.orders[id].child, w.clock)
    ensures var c := w.exec.orders[id].child; var t := Next(w, OrderCanceled(id)).exec;
            && Waiting(t, c) && t.children[c].cycleStart.Some? && t.cfg == w.exec.cfg
            && t.children[c].cycleStart == w.exec.children[c].cycleStart
            && t.children[c].retryAt == w.exec.children[c].retryAt && |t.orders| == |w.exec.orders|
  {
    hide Outstanding, RecordOk, OrderOk, Books, Bounds, Reconciled, Outcome;
    TrackedOrder(w.exec, w.ended, id);
    assert Timed(w.exec.children[w.exec.orders[id].child], w.exec.cancels, w.clock);
  }

  /** After the cancel of a refresh is acknowledged before the expiry, in OPEN or CLOSE, and
      whatever else happens while the book has no price, the next priced tick within the cycle
      and past any retry time submits a limit order for all the child still lacks. */
  lemma ResubmitsAfterRefresh(
      cfg: Config, es: seq<Event>, w: World, id: OrderId, later: seq<Event>, now: real, price: real)
    requires Reaches(cfg, es, w) && w.exec.status == Running && Enabled(w, OrderCanceled(id))
    requires Tracks(w.exec, id) && !Expired(w.exec, w.exec.orders[id].child, w.clock)
    requires LegalRun(Next(w, OrderCanceled(id)), later)
    requires forall k :: 0 <= k < |later| ==> Quiet(later[k]) && (later[k].Timer? ==> later[k].now <= now)
    requires var c := w.exec.orders[id].child; var v := RunOf(Next(w, OrderCanceled(id)), later);
             && now >= v.clock && c < |v.exec.children| && price > 0.0
             && !Over(w.exec.children[c], cfg.timeLimit, now) && Residual(v.exec, c) > 0.0
             && (v.exec.children[c].retryAt.Some? ==> v.exec.children[c].retryAt.value <= now)
    ensures var c := w.exec.orders[id].child; var v := RunOf(Next(w, OrderCanceled(id)), later).exec;
            && WellIndexed(v)
            && var t := Tick(v, now, Some(price));
               t.orders == v.orders + [Record(c, Residual(v, c), 0.0, 0.0, 0.0, {}, false)]
               && t.sent == v.sent + [Limit(price)]
  {
    hide Reaches, Inv, Clocked, Waiting, Shape, Apply, Legal, LegalRun, RunOf;
    var e, c := OrderCanceled(id), w.exec.orders[id].child;
    var u := Next(w, e);
    var v := RunOf(u, later);
    ReachesClocked(cfg, es, w);
    AcknowledgedWaits(w, id);
    NextInv(w, e);
    RunWaits(u, later, c, now);
    ReachesOn(cfg, es, w, e, later);
    CurrentWaits(v.exec, c);
    TickSubmitsExactly(cfg, es + [e] + later, v, now, Some(price));
  }

  lemma CurrentWaits(s: State, c: nat)
    requires Waiting(s, c)
    ensures s.idx <= |s.children| && Current(s) == c && s.status == Running && s.children[c].status.Idle?
  {
  }

  lemma {:induction false} LegalConcat(w: World, a: seq<Event>, b: seq<Event>)
    requires LegalRun(w, a) && LegalRun(RunOf(w, a), b)
    ensures LegalRun(w, a + b) && RunOf(w, a + b) == RunOf(RunOf(w, a), b)
    decreases |a|
  {
    hide Apply, Legal;
    if a == [] {
      assert [] + b == b;
    } else {
      assert (a + b)[1..] == a[1..] + b;
      LegalConcat(Next(w, a[0]), a[1..], b);
    }
  }

  lemma LegalOne(w: World, e: Event)
    requires Enabled(w, e)
    ensures LegalRun(w, [e]) && RunOf(w, [e]) == Next(w, e)
  {
    hide Apply, Legal;
    assert [e][1..] == [] && LegalRun(Next(w, e), []);
  }

  lemma ReachesOn(cfg: Config, es: seq<Event>, w: World, e: Event, later: seq<Event>)
    requires Reaches(cfg, es, w) && Enabled(w, e) && LegalRun(Next(w, e), later)
    ensures Reaches(cfg, es + [e] + later, RunOf(Next(w, e), later))
  {
    hide Apply, Legal, StartOf;
    var clock: real, w0: World :| StartOf(cfg, clock, w0) && LegalRun(w0, es) && w == RunOf(w0, es);
    LegalOne(w, e);
    LegalConcat(w0, es, [e]);
    LegalConcat(w0, es + [e], later);
  }

  // ---- When a cancel is requested -----------------------------------------------------------------

  // A tick finds child c resting past its cycle, or for as long as the refresh time.
  predicate TimedOut(s: State, e: Event, c: nat)
    requires s.idx <= |s.children| && c < |s.children|
  {
    && e.Timer? && Current(s) == c && s.children[c].status.Active?
    && (Over(s.children[c], s.cfg.timeLimit, e.now)
        || (s.children[c].refreshStart.Some? && e.now - s.children[c].refreshStart.value >= s.cfg.refreshTime))
  }

  // A fill, of another order, leaves the resting order larger than the room.
  predicate Oversized(s: State, e: Event, t: State, c: nat)
    requires c < |s.children| && c < |t.children|
  {
    e.Filled? && s.idx == c && s.children[c].status.Active? && Room(t, c) < 0.0
  }

  /** While the executor runs, the cancel of a child's order is requested exactly when a tick
      finds it resting past its cycle or for the refresh time, or a fill leaves it too large;
      and it is for the expired cycle exactly when a tick found the cycle over. */
  lemma CancelsExactly(cfg: Config, es: seq<Event>, w: World, e: Event, c: nat)
    requires Reaches(cfg, es, w) && Enabled(w, e) && w.exec.status == Running && !e.StopRequest?
    requires c < |w.exec.children| && !w.exec.children[c].status.Canceling?
    ensures var s, t := w.exec, Next(w, e).exec;
            && c < |t.children|
            && (t.children[c].status.Canceling? <==> TimedOut(s, e, c) || Oversized(s, e, t, c))
            && (t.children[c].status.Canceling? ==>
                  && t.children[c].tracked == s.children[c].tracked && t.children[c].tracked.Some?
                  && t.children[c].tracked.value in t.cancels
                  && (t.children[c].cancelReason.CycleExpired? <==>
                      e.Timer? && Over(s.children[c], cfg.timeLimit, e.now)))
  {
    hide Reaches, Books, Bounds, Crossing, Outcome, Apply, Inv, Clocked, Shape, Legal;
    ReachesClocked(cfg, es, w);
    InvShape(w);
    InvReconciled(w);
    match e
    case Timer(_, _) => TickCancels(w, e, c);
    case Filled(_, _, _) => FilledCancels(w, e, c);
    case OrderCompleted(_, _) => EndingCancels(w, e, c);
    case OrderCanceled(_) => EndingCancels(w, e, c);
    case OrderFailed(_, _, _) => EndingCancels(w, e, c);
  }

  lemma InvReconciled(w: World)
    requires Inv(w)
    ensures Reconciled(w.exec) && w.exec.idx <= |w.exec.children|
  {
  }

  ghost predicate CancelStep(s: State, e: Event, t: State, c: nat)
    requires s.idx <= |s.children| && c < |s.children|
  {
    && c < |t.children|
    && (t.children[c].status.Canceling? <==> TimedOut(s, e, c) || Oversized(s, e, t, c))
    && (t.children[c].status.Canceling? ==>
          && t.children[c].tracked == s.children[c].tracked && t.children[c].tracked.Some?
          && t.children[c].tracked.value in t.cancels
          && (t.children[c].cancelReason.CycleExpired? <==>
              e.Timer? && Over(s.children[c], s.cfg.timeLimit, e.now)))
  }

  lemma TickCancels(w: World, e: Event, c: nat)
    requires Shape(w.exec, w.ended) && Enabled(w, e) && e.Timer? && w.exec.status == Running
    requires c < |w.exec.children| && !w.exec.children[c].status.Canceling?
    ensures w.exec.idx <= |w.exec.children| && CancelStep(w.exec, e, Next(w, e).exec, c)
  {
    hide Outstanding, RecordOk, OrderOk, OpenIds, Room, Residual, Drain;
    var s, k := w.exec, Current(w.exec);
    AdvanceShape(s, w.ended);
    if k < |s.children| { assert ChildOk(s, w.ended, k); }
  }

  lemma FilledCancels(w: World, e: Event, c: nat)
    requires Shape(w.exec, w.ended) && Reconciled(w.exec) && Enabled(w, e) && e.Filled? && w.exec.status == Running
    requires c < |w.exec.children| && !w.exec.children[c].status.Canceling?
    ensures w.exec.idx <= |w.exec.children| && CancelStep(w.exec, e, Next(w, e).exec, c)
  {
    hide Outstanding, OpenIds, Reconciled, Credit;
    var s := w.exec;
    assert ChildOk(s, w.ended, c);
    FilledReconciled(w, e);
    var t := Apply(s, e);
    if Known(s, e.id) && !Replayed(s, e.id, e.trade) {
      assert OrderOk(s, w.ended, e.id);
      CreditIsPost(s, e.id, FilledRecord(s.orders[e.id], e.trade, e.amount));
      var p := Posted(s, e);
      assert t == Reconcile(p, e.id);
      ReconcileCancels(p, e.id, t, c);
    } else if s.idx == c && s.children[c].status.Active? {
      ReconciledRoom(s);
    }
  }

  lemma ReconcileCancels(s: State, id: OrderId, t: State, c: nat)
    requires s.idx <= |s.children| && c < |s.children| && t == Reconcile(s, id) && Reconciled(t)
    requires !s.children[c].status.Canceling?
    requires s.children[c].status.Active? ==> s.idx == c && s.children[c].tracked.Some?
    ensures |t.children| == |s.children|
    ensures t.children[c].status.Canceling? <==> s.children[c].status.Active? && Room(t, c) < 0.0
    ensures t.children[c].tracked == s.children[c].tracked
    ensures t.children[c].status.Canceling? ==>
              t.children[c].tracked.Some? && t.children[c].tracked.value in t.cancels
              && t.children[c].cancelReason.Refresh?
  {
    hide Outstanding;
    if s.idx < |s.children| && s.children[s.idx].status.Active? {
      assert Room(t, s.idx) == Room(s, s.idx);
    }
  }

  lemma ReconciledRoom(s: State)
    requires Reconciled(s) && s.idx < |s.children| && s.children[s.idx].status.Active?
    ensures Room(s, s.idx) >= 0.0
  {
  }

  // Tracked or not, an order that ends does not put its child into CANCELING.
  lemma EndingCancels(w: World, e: Event, c: nat)
    requires Shape(w.exec, w.ended) && Enabled(w, e) && HasOrder(e) && !e.Filled? && w.exec.status == Running
    requires c < |w.exec.children| && !w.exec.children[c].status.Canceling?
    ensures w.exec.idx <= |w.exec.children| && CancelStep(w.exec, e, Next(w, e).exec, c)
  {
    hide CancelStep, Legal;
    match e
    case OrderCompleted(_, _) => CompletedCancels(w, e, c);
    case OrderCanceled(_) => CanceledCancels(w, e, c);
    case OrderFailed(_, _, _) => FailedCancels(w, e, c);
  }

  lemma CompletedCancels(w: World, e: Event, c: nat)
    requires WellIndexed(w.exec) && e.OrderCompleted?
    requires c < |w.exec.children| && !w.exec.children[c].status.Canceling?
    ensures CancelStep(w.exec, e, Next(w, e).exec, c)
  {
    hide Outstanding;
  }

  lemma CanceledCancels(w: World, e: Event, c: nat)
    requires WellIndexed(w.exec) && e.OrderCanceled?
    requires c < |w.exec.children| && !w.exec.children[c].status.Canceling?
    ensures CancelStep(w.exec, e, Next(w, e).exec, c)
  {
    hide Outstanding, Room, Residual;
  }

  lemma FailedCancels(w: World, e: Event, c: nat)
    requires WellIndexed(w.exec) && e.OrderFailed?
    requires c < |w.exec.children| && !w.exec.children[c].status.Canceling?
    ensures CancelStep(w.exec, e, Next(w, e).exec, c)
  {
    hide Outstanding, Room, Residual, RetryDelay;
  }

  // ---- What a failure costs -----------------------------------------------------------------------

  // The venue fails a working order, and not as a reduce-only order of a CLOSE executor.
  predicate Fails(v: World, e: Event) {
    e.OrderFailed? && Tracks(v.exec, e.id) && !(v.exec.cfg.closing && e.satisfied)
  }

  // Everything a failure that costs a retry changes.
  ghost predicate FailStep(s: State, t: State, c: nat, now: real)
    requires c < |s.children| && s.retries >= 0
  {
    var n, k := |s.orders|, s.retries + 1;
    var again := s.children[c].status.Aggressive? && s.status == Running && k <= s.cfg.maxRetries;
    && |t.children| == |s.children| && |t.orders| >= n && t.retries == k
    && t.status == s.status && t.closeType == s.closeType
    && t.children[c].retryAt == Some(now + Min(Pow2(if k < 4 then k else 4), s.cfg.refreshTime))
    && (|t.orders| > n <==> again && Residual(s, c) > 0.0)
    && (|t.orders| > n ==>
          && |t.orders| == n + 1 && t.orders[n] == Record(c, Residual(s, c), 0.0, 0.0, 0.0, {}, false)
          && t.sent == s.sent + [Market]
          && t.children[c].status.Aggressive? && t.children[c].tracked == Some(n))
    && (|t.orders| == n ==>
          && t.children[c].tracked.None?
          && if again then t.children[c].status.Done? else t.children[c].status.Idle?)
  }

  /** When the order of a child fails, an order a CLOSE executor cannot place because the venue
      holds nothing more ends the run as EARLY_STOP with the child skipped. Any other failure
      counts one retry and delays the child by the doubling time; the market order is sent again
      at once, for all the child lacks, exactly while the executor runs and retries are left. */
  lemma FailureExactly(cfg: Config, es: seq<Event>, w: World, e: Event)
    requires Reaches(cfg, es, w) && Enabled(w, e) && e.OrderFailed? && Tracks(w.exec, e.id)
    ensures w.exec.retries >= 0
    ensures var s, t, c := w.exec, Next(w, e).exec, w.exec.orders[e.id].child;
            if cfg.closing && e.satisfied then
              && t.status == Terminated && t.closeType == Some(EarlyStop) && |t.orders| == |s.orders|
              && t.retries == s.retries && c < |t.children| && t.children[c].status.Skipped?
            else FailStep(s, t, c, e.now)
  {
    hide Reaches, Books, Bounds, Crossing, Outcome, Reconciled, RecordOk, OrderOk, RetryDelay, Outstanding, Work,
      FailStep, Legal;
    ReachesInv(cfg, es, w);
    TrackedOrder(w.exec, w.ended, e.id);
    if !(cfg.closing && e.satisfied) { FailedOnce(w, e); }
  }

  lemma FailedOnce(w: World, e: Event)
    requires Shape(w.exec, w.ended) && Enabled(w, e) && Fails(w, e)
    ensures FailStep(w.exec, Next(w, e).exec, w.exec.orders[e.id].child, e.now)
  {
    hide RecordOk, OrderOk, RetryDelay, Outstanding, Work;
    var s := w.exec;
    TrackedOrder(s, w.ended, e.id);
    RetryDelayDoubles(s.cfg, s.retries + 1);
    assert ChildOk(s, w.ended, s.orders[e.id].child);
    if !s.orders[e.id].terminal { EndedAll(s, w.ended, e.id); }
  }

  // How many failures of a run cost a retry.
  ghost function Failures(w: World, es: seq<Event>): nat
    requires LegalRun(w, es)
    decreases |es|
  {
    if es == [] then 0 else (if Fails(w, es[0]) then 1 else 0) + Failures(Next(w, es[0]), es[1..])
  }

  /** Over any run the retries count exactly the failures of a child's order that are not
      refusals of a reduce-only close: nothing else uses one up and nothing resets them. */
  lemma RetriesCount(cfg: Config, clock: real, w: World, es: seq<Event>)
    requires StartOf(cfg, clock, w) && LegalRun(w, es)
    ensures RunOf(w, es).exec.retries == Failures(w, es)
  {
    RunRetries(w, es);
  }

  lemma {:induction false} RunRetries(w: World, es: seq<Event>)
    requires LegalRun(w, es)
    ensures RunOf(w, es).exec.retries == w.exec.retries + Failures(w, es)
    decreases |es|
  {
    hide Apply, Legal, Fails;
    if es != [] {
      OneRetry(w, es[0]);
      RunRetries(Next(w, es[0]), es[1..]);
    }
  }

  lemma OneRetry(w: World, e: Event)
    requires Enabled(w, e)
    ensures Next(w, e).exec.retries == w.exec.retries + if Fails(w, e) then 1 else 0
  {
    hide Outstanding, Room, Residual, RetryDelay, OpenIds;
  }

  // ---- What a stop reports -------------------------------------------------------------------------

  // A later stop, or the refusal of a close, names the report anew.
  predicate Renames(v: World, e: Event) {
    e.StopRequest? || (v.exec.cfg.closing && e.OrderFailed? && e.satisfied && Tracks(v.exec, e.id))
  }

  ghost predicate NeverRenamed(w: World, es: seq<Event>)
    requires LegalRun(w, es)
    decreases |es|
  {
    es == [] || (!Renames(w, es[0]) && NeverRenamed(Next(w, es[0]), es[1..]))
  }

  /** A stop leaves RUNNING at once and asks for the cancel of every open order. It is reported
      as POSITION_HOLD when the position is kept and as EARLY_STOP otherwise, from then on, until
      another stop or the refusal of a close. */
  lemma StopIsNamed(w: World, e: Event, es: seq<Event>)
    requires Inv(w) && Enabled(w, e) && e.StopRequest? && LegalRun(Next(w, e), es)
    ensures var t := Next(w, e).exec;
            && t.status == ShuttingDown && t.orders == w.exec.orders
            && (forall i :: 0 <= i < |t.orders| && !t.orders[i].terminal ==> i in t.cancels)
            && t.lastSweep == Some(e.now)
    ensures NeverRenamed(Next(w, e), es) ==>
              var end := RunOf(Next(w, e), es).exec;
              && end.status != Running
              && end.closeType == Some(if e.keepPosition then PositionHold else EarlyStop)
  {
    hide Inv, Legal, LegalRun, RunOf, NeverRenamed, Shape;
    NextInv(w, e);
    if NeverRenamed(Next(w, e), es) { RunNamed(Next(w, e), es); }
  }

  lemma {:induction false} RunNamed(w: World, es: seq<Event>)
    requires LegalRun(w, es) && NeverRenamed(w, es) && w.exec.status != Running && w.exec.closeType.Some?
    ensures RunOf(w, es).exec.status != Running && RunOf(w, es).exec.closeType == w.exec.closeType
    decreases |es|
  {
    hide Apply, Legal, Renames;
    if es != [] {
      KeepsName(w, es[0]);
      RunNamed(Next(w, es[0]), es[1..]);
    }
  }

  lemma KeepsName(w: World, e: Event)
    requires Enabled(w, e) && !Renames(w, e) && w.exec.status != Running && w.exec.closeType.Some?
    ensures var t := Next(w, e).exec; t.status != Running && t.closeType == w.exec.closeType
  {
    hide Outstanding, Room, Residual, RetryDelay, OpenIds;
  }
}
