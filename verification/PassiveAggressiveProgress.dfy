/**
 Timing of the passive-aggressive executor: after every tick nothing that is due has been
 left undone, cancels are really requested, and failed orders wait out their delay.
 */
module PassiveAggressiveProgress {
  import opened Common
  import opened PassiveAggressive
  import opened PassiveAggressiveRuns
  import opened PassiveAggressiveSafety
  import opened PassiveAggressiveOutcome
  import opened PassiveAggressiveTheorems

  // ---- The invariant ------------------------------------------------------------------

  // A started cycle started in the past; working children have clocks, and a child in
  // CANCELING has had the cancel of its order requested, for a reason.
  predicate Timed(ch: Child, cancels: set<OrderId>, clock: real) {
    && (ch.cycleStart.Some? ==> ch.cycleStart.value <= clock)
    && (Working(ch.status) ==> ch.cycleStart.Some?)
    && (ch.status.Active? ==> ch.refreshStart.Some?)
    && (ch.status.Canceling? ==>
          ch.tracked.Some? && ch.tracked.value in cancels && !ch.cancelReason.NoReason?)
  }

  ghost predicate Clocked(s: State, clock: real) {
    && (forall c: nat :: c < |s.children| ==> Timed(s.children[c], s.cancels, clock))
    && (s.status != Running ==> OpenIds(s.orders) <= s.cancels)
    && (s.status == ShuttingDown ==> s.lastSweep.Some?)
  }

  lemma StartClocked(cfg: Config, clock: real, w: World)
    requires StartOf(cfg, clock, w)
    ensures Clocked(w.exec, w.clock)
  {
    StartInv(cfg, clock, w);
    forall c: nat | c < |w.exec.children| ensures Timed(w.exec.children[c], {}, clock) {
      assert ChildOk(w.exec, w.ended, c);
      ChildrenCoverTotal(cfg.total, cfg.childQuantity);
    }
  }

  lemma StepChildClocked(s: State, ended: map<OrderId, Ending>, now: real, price: Option<real>)
    requires Shape(s, ended) && s.idx < |s.children| && s.status == Running
    requires s.children[s.idx].cycleStart.Some? && Clocked(s, now)
    ensures Clocked(StepChild(s, s.idx, now, price), now)
    ensures StepChild(s, s.idx, now, price).status == Running
  {
    hide Outstanding, RecordOk, OpenIds;
    assert ChildOk(s, ended, s.idx);
  }

  lemma StepClocked(s: State, ended: map<OrderId, Ending>, clock: real, now: real, price: Option<real>)
    requires Shape(s, ended) && s.status == Running && Clocked(s, clock) && clock <= now
    ensures Clocked(Step(s, now, price), now)
  {
    hide StepChild, Outstanding, RecordOk;
    var s0 := s.(idx := FirstUnfinished(s.children, s.idx));
    AdvanceShape(s, ended);
    if s0.idx == |s0.children| {
      NoneOpen(s0, ended);
    } else {
      var ch := StartCycle(s0.children[s0.idx], now);
      assert ChildOk(s0, ended, s0.idx);
      SetChildShape(s0, ended, ch);
      StepChildClocked(SetChild(s0, s0.idx, ch), ended, now, price);
    }
  }

  lemma ReconcileClocked(s: State, id: OrderId, clock: real)
    requires Clocked(s, clock) && s.idx <= |s.children|
    requires s.idx < |s.children| && s.children[s.idx].status.Active? ==> s.children[s.idx].tracked.Some?
    ensures Clocked(Reconcile(s, id), clock)
  {
    hide Tracks, Room;
  }

  lemma CreditClocked(s: State, id: OrderId, r: Record, clock: real)
    requires Clocked(s, clock) && WellIndexed(s) && Known(s, id)
    requires r.child == s.orders[id].child && r.terminal == s.orders[id].terminal
    ensures var t := Credit(s.(orders := s.orders[id := r]), id);
            && Clocked(t, clock) && t.idx == s.idx && |t.children| == |s.children|
            && forall c: nat :: c < |s.children| ==>
                 t.children[c].status == s.children[c].status && t.children[c].tracked == s.children[c].tracked
  {
  }

  lemma FilledClocked(w: World, e: Event)
    requires Shape(w.exec, w.ended) && e.Filled? && Enabled(w, e) && Clocked(w.exec, w.clock)
    ensures Clocked(Apply(w.exec, e), w.clock)
  {
    hide Outstanding, RecordOk, Room, Residual, OrderOk, ChildOk, Clocked, Credit, Reconcile, Tracks;
    var s := w.exec;
    if Known(s, e.id) && !Replayed(s, e.id, e.trade) {
      var r1 := FilledRecord(s.orders[e.id], e.trade, e.amount);
      CreditClocked(s, e.id, r1, w.clock);
      if s.idx < |s.children| { CurrentTracked(s, w.ended); }
      ReconcileClocked(Credit(s.(orders := s.orders[e.id := r1]), e.id), e.id, w.clock);
    }
  }

  lemma CurrentTracked(s: State, ended: map<OrderId, Ending>)
    requires Shape(s, ended) && s.idx < |s.children|
    ensures s.children[s.idx].status.Active? ==> s.children[s.idx].tracked.Some?
  {
    assert ChildOk(s, ended, s.idx);
  }

  lemma CompletedClocked(w: World, e: Event)
    requires Shape(w.exec, w.ended) && e.OrderCompleted? && Enabled(w, e) && Clocked(w.exec, w.clock)
    ensures Clocked(Apply(w.exec, e), w.clock)
  {
    hide Outstanding, RecordOk;
  }

  lemma CanceledClocked(w: World, e: Event)
    requires Shape(w.exec, w.ended) && e.OrderCanceled? && Enabled(w, e) && Clocked(w.exec, w.clock)
    ensures Clocked(Apply(w.exec, e), w.clock)
  {
    hide Outstanding, RecordOk;
    if Known(w.exec, e.id) { TrackedOrder(w.exec, w.ended, e.id); }
  }

  // The only order that may be open is the newest.
  lemma OpenIsNewest(s: State, ended: map<OrderId, Ending>)
    requires Shape(s, ended)
    ensures forall i: nat :: i < |s.orders| && !s.orders[i].terminal ==> i == |s.orders| - 1
  {
    forall i: nat | i < |s.orders| && !s.orders[i].terminal ensures i == |s.orders| - 1 {
      assert OrderOk(s, ended, i);
    }
  }

  lemma FailedClocked(w: World, e: Event)
    requires Shape(w.exec, w.ended) && e.OrderFailed? && Enabled(w, e) && Clocked(w.exec, w.clock)
    ensures Clocked(Apply(w.exec, e), e.now)
  {
    hide Outstanding, RecordOk, RetryDelay, Room, Residual, OrderOk, ChildOk;
    if Known(w.exec, e.id) {
      TrackedOrder(w.exec, w.ended, e.id);
      OpenIsNewest(w.exec, w.ended);
    }
  }

  lemma TimerClocked(w: World, e: Event)
    requires Shape(w.exec, w.ended) && e.Timer? && Enabled(w, e) && Clocked(w.exec, w.clock)
    ensures Clocked(Apply(w.exec, e), e.now)
  {
    hide Outstanding, Shape, Step;
    if w.exec.status == Running { StepClocked(w.exec, w.ended, w.clock, e.now, e.price); }
  }

  lemma StopClocked(w: World, e: Event)
    requires e.StopRequest? && Enabled(w, e) && Clocked(w.exec, w.clock)
    ensures Clocked(Apply(w.exec, e), e.now)
  {
  }

  lemma NextClocked(w: World, e: Event)
    requires Inv(w) && Enabled(w, e) && Clocked(w.exec, w.clock)
    ensures Clocked(Next(w, e).exec, Next(w, e).clock)
  {
    hide Inv, Shape, Clocked, Apply, Legal;
    InvShape(w);
    match e
    case Timer(_, _) => TimerClocked(w, e);
    case Filled(_, _, _) => FilledClocked(w, e);
    case OrderCompleted(_, _) => CompletedClocked(w, e);
    case OrderCanceled(_) => CanceledClocked(w, e);
    case OrderFailed(_, _, _) => FailedClocked(w, e);
    case StopRequest(_, _) => StopClocked(w, e);
  }

  lemma {:induction false} RunClocked(w: World, es: seq<Event>)
    requires Inv(w) && LegalRun(w, es) && Clocked(w.exec, w.clock)
    ensures Clocked(RunOf(w, es).exec, RunOf(w, es).clock)
    decreases |es|
  {
    hide Inv, Clocked;
    if es != [] {
      NextInv(w, es[0]);
      NextClocked(w, es[0]);
      RunClocked(Next(w, es[0]), es[1..]);
    }
  }

  lemma ReachesClocked(cfg: Config, es: seq<Event>, w: World)
    requires Reaches(cfg, es, w)
    ensures Inv(w) && w.exec.cfg == cfg && Clocked(w.exec, w.clock)
  {
    ReachesInv(cfg, es, w);
    hide Inv, Clocked, StartOf;
    var clock: real, w0: World :| StartOf(cfg, clock, w0) && LegalRun(w0, es) && w == RunOf(w0, es);
    StartInv(cfg, clock, w0);
    StartClocked(cfg, clock, w0);
    RunClocked(w0, es);
  }

  // ---- Nothing due is left undone ------------------------------------------------------

  // Where the current child may stand right after a tick at `now`.
  ghost predicate Attended(s: State, c: nat, now: real)
    requires c < |s.children|
  {
    var ch := s.children[c];
    && ch.cycleStart.Some?
    && match ch.status
       case Idle => !Expired(s, c, now) && ch.retryAt.Some? && now < ch.retryAt.value
       case Active =>
         && !Expired(s, c, now) && ch.refreshStart.Some?
         && (ch.refreshStart.value == now || now - ch.refreshStart.value < s.cfg.refreshTime)
       case Canceling => ch.tracked.Some? && ch.tracked.value in s.cancels
       case Aggressive => s.cfg.closing && Expired(s, c, now)
       case Done => Room(s, c) <= 0.0
       case Skipped => Expired(s, c, now)
  }

  lemma StepChildAttends(s: State, c: nat, now: real, price: Option<real>)
    requires c < |s.children| && !Finished(s.children[c].status) && s.children[c].cycleStart.Some?
    requires Timed(s.children[c], s.cancels, now)
    requires s.children[c].status.Active? ==> s.children[c].tracked.Some?
    requires s.children[c].status.Aggressive? ==> s.cfg.closing && Expired(s, c, now)
    ensures Attended(StepChild(s, c, now, price), c, now)
  {
    hide Outstanding;
  }

  /** A tick of a running executor closes it once every child is finished. Otherwise the
      current child is left waiting for something that is not due: an unexpired retry
      delay, an unexpired resting order, a requested cancel, a market order, or nothing
      because it has no room or ran out of time. */
  lemma TickLeavesNothingDue(cfg: Config, es: seq<Event>, w: World, now: real, price: Option<real>)
    requires Reaches(cfg, es, w) && w.exec.status == Running && now >= w.clock
    ensures WellIndexed(w.exec)
    ensures var t := Tick(w.exec, now, price);
            && (t.status == Terminated <==> t.idx == |t.children|)
            && t.idx <= |t.children|
            && (t.idx < |t.children| ==> t.status == Running && Attended(t, t.idx, now))
  {
    ReachesClocked(cfg, es, w);
    hide Reaches, Outstanding, Books, Bounds, StepChild, RecordOk;
    var s := w.exec;
    var s0 := s.(idx := FirstUnfinished(s.children, s.idx));
    AdvanceShape(s, w.ended);
    if s0.idx == |s0.children| {
      NoneOpen(s0, w.ended);
    } else {
      assert ChildOk(s0, w.ended, s0.idx);
      StepAttends(w, s0, now, price);
    }
  }

  lemma StepAttends(w: World, s0: State, now: real, price: Option<real>)
    requires Inv(w) && Clocked(w.exec, w.clock) && w.exec.status == Running && now >= w.clock
    requires s0 == w.exec.(idx := FirstUnfinished(w.exec.children, w.exec.idx)) && s0.idx < |s0.children|
    requires ChildOk(s0, w.ended, s0.idx)
    ensures var t := Tick(w.exec, now, price);
            t.idx == s0.idx && |t.children| == |s0.children| && t.status == Running && Attended(t, t.idx, now)
  {
    hide Outstanding, Books, Bounds, RecordOk;
    var s1 := SetChild(s0, s0.idx, StartCycle(s0.children[s0.idx], now));
    assert Timed(s0.children[s0.idx], s0.cancels, w.clock);
    StepChildAttends(s1, s1.idx, now, price);
  }

  ghost predicate SweptLately(s: State, now: real) {
    && s.status == ShuttingDown && s.lastSweep.Some?
    && (s.lastSweep.value == now || now - s.lastSweep.value < s.cfg.refreshTime)
  }

  /** After a stop every order still open has had its cancel requested, each tick re-sends
      them once the refresh time has passed, and the tick closes exactly when nothing is
      outstanding. */
  lemma StoppedTickSettles(cfg: Config, es: seq<Event>, w: World, now: real, price: Option<real>)
    requires Reaches(cfg, es, w) && w.exec.status == ShuttingDown && now >= w.clock
    ensures WellIndexed(w.exec) && OpenIds(w.exec.orders) <= w.exec.cancels
    ensures var t := Tick(w.exec, now, price);
            && (t.status == Terminated <==> Outstanding(w.exec.orders) == 0.0)
            && (t.status != Terminated ==> SweptLately(t, now))
  {
    ReachesClocked(cfg, es, w);
    hide Reaches, Outstanding, Books, Bounds, Shape;
  }

  // ---- Failed orders wait ------------------------------------------------------------------

  /** The retry delay doubles up to 16 seconds, and never exceeds the refresh time. */
  lemma RetryDelayDoubles(cfg: Config, retries: int)
    requires retries >= 1
    ensures RetryDelay(cfg, retries) == Min(Pow2(if retries < 4 then retries else 4), cfg.refreshTime)
  {
    assert Pow2(1) == 2.0 && Pow2(2) == 4.0 && Pow2(3) == 8.0 && Pow2(4) == 16.0;
  }

  predicate Before(e: Event, time: real) { HasTime(e) ==> e.now < time }

  // Child c is idle until `time`, or has run out of time; either way it has no order.
  predicate Held(s: State, c: nat, time: real) {
    && c < |s.children| && c <= s.idx
    && (Finished(s.children[c].status) || (s.children[c].status.Idle? && s.children[c].retryAt == Some(time)))
    && (s.children[c].status.Idle? ==> c == s.idx)
  }

  lemma TimerHeld(w: World, e: Event, c: nat, time: real)
    requires Inv(w) && Enabled(w, e) && Held(w.exec, c, time) && Before(e, time) && e.Timer?
    ensures Held(Next(w, e).exec, c, time)
    ensures |Next(w, e).exec.orders| > |w.exec.orders| ==> Next(w, e).exec.orders[|w.exec.orders|].child != c
  {
    hide Outstanding, RecordOk, RetryDelay, Books, Bounds, Crossing, Shape, Outcome, Reconciled;
    var s := w.exec;
    assert s.children[c].status.Idle? ==> FirstUnfinished(s.children, s.idx) == c;
  }

  lemma OrderHeld(w: World, e: Event, c: nat, time: real)
    requires Inv(w) && Enabled(w, e) && Held(w.exec, c, time) && Before(e, time) && HasOrder(e)
    ensures Held(Next(w, e).exec, c, time)
    ensures |Next(w, e).exec.orders| > |w.exec.orders| ==> Next(w, e).exec.orders[|w.exec.orders|].child != c
  {
    hide Held, Shape, Apply;
    match e
    case Filled(_, _, _) => FilledHeld(w, e, c, time);
    case OrderCompleted(_, _) => CompletedHeld(w, e, c, time);
    case OrderCanceled(_) => CanceledHeld(w, e, c, time);
    case OrderFailed(_, _, _) => FailureHeld(w, e, c, time);
  }

  lemma FilledHeld(w: World, e: Event, c: nat, time: real)
    requires Inv(w) && Enabled(w, e) && Held(w.exec, c, time) && e.Filled?
    ensures Held(Next(w, e).exec, c, time)
    ensures |Next(w, e).exec.orders| == |w.exec.orders|
  {
    hide Outstanding, RecordOk, Books, Bounds, Crossing, Outcome, Reconciled, OrderOk, ChildOk;
  }

  lemma CompletedHeld(w: World, e: Event, c: nat, time: real)
    requires Shape(w.exec, w.ended) && Enabled(w, e) && Held(w.exec, c, time) && e.OrderCompleted?
    ensures Held(Next(w, e).exec, c, time)
    ensures |Next(w, e).exec.orders| > |w.exec.orders| ==> Next(w, e).exec.orders[|w.exec.orders|].child != c
  {
    hide Outstanding, RecordOk, RetryDelay, OrderOk;
    assert ChildOk(w.exec, w.ended, c);
    if Known(w.exec, e.id) { TrackedOrder(w.exec, w.ended, e.id); }
  }

  lemma CanceledHeld(w: World, e: Event, c: nat, time: real)
    requires Shape(w.exec, w.ended) && Enabled(w, e) && Held(w.exec, c, time) && e.OrderCanceled?
    ensures Held(Next(w, e).exec, c, time)
    ensures |Next(w, e).exec.orders| > |w.exec.orders| ==> Next(w, e).exec.orders[|w.exec.orders|].child != c
  {
    hide Outstanding, RecordOk, RetryDelay, OrderOk;
    assert ChildOk(w.exec, w.ended, c);
    if Known(w.exec, e.id) { TrackedOrder(w.exec, w.ended, e.id); }
  }

  lemma FailureHeld(w: World, e: Event, c: nat, time: real)
    requires Shape(w.exec, w.ended) && Enabled(w, e) && Held(w.exec, c, time) && e.OrderFailed?
    ensures Held(Next(w, e).exec, c, time)
    ensures |Next(w, e).exec.orders| > |w.exec.orders| ==> Next(w, e).exec.orders[|w.exec.orders|].child != c
  {
    hide Outstanding, RecordOk, RetryDelay, OrderOk;
    assert ChildOk(w.exec, w.ended, c);
    if Known(w.exec, e.id) { TrackedOrder(w.exec, w.ended, e.id); }
  }

  lemma StopHeld(w: World, e: Event, c: nat, time: real)
    requires Enabled(w, e) && Held(w.exec, c, time) && e.StopRequest?
    ensures Held(Next(w, e).exec, c, time) && |Next(w, e).exec.orders| == |w.exec.orders|
  {
    hide OpenIds;
  }

  lemma NextHeld(w: World, e: Event, c: nat, time: real)
    requires Inv(w) && Enabled(w, e) && Held(w.exec, c, time) && Before(e, time)
    ensures Held(Next(w, e).exec, c, time)
    ensures |Next(w, e).exec.orders| > |w.exec.orders| ==> Next(w, e).exec.orders[|w.exec.orders|].child != c
  {
    hide Inv, Step, Drain, Held;
    if e.StopRequest? { StopHeld(w, e, c, time); }
    if e.Timer? { TimerHeld(w, e, c, time); } else if HasOrder(e) { OrderHeld(w, e, c, time); }
  }

  // Orders keep their owners, and an event submits at most one.
  lemma NextOwners(w: World, e: Event)
    requires Inv(w) && Enabled(w, e)
    ensures var s := w.exec; var t := Next(w, e).exec;
            && |s.orders| <= |t.orders| <= |s.orders| + 1
            && forall i: nat :: i < |s.orders| ==> t.orders[i].child == s.orders[i].child
  {
    hide Inv, Apply, Outstanding, Room, Legal;
    InvShape(w);
    Factor(w, e);
    PostedOwners(w, e);
  }

  lemma PostedOwners(w: World, e: Event)
    requires WellIndexed(w.exec)
    ensures var s := w.exec; var p := Posted(s, e);
            |p.orders| == |s.orders| && forall i: nat :: i < |s.orders| ==> p.orders[i].child == s.orders[i].child
  {
  }

  lemma {:induction false} RunHeld(w: World, es: seq<Event>, c: nat, time: real)
    requires Inv(w) && LegalRun(w, es) && Held(w.exec, c, time)
    requires forall k :: 0 <= k < |es| ==> Before(es[k], time)
    ensures |RunOf(w, es).exec.orders| >= |w.exec.orders|
    ensures forall i: nat :: i < |w.exec.orders| ==> RunOf(w, es).exec.orders[i].child == w.exec.orders[i].child
    ensures forall i: nat :: |w.exec.orders| <= i < |RunOf(w, es).exec.orders| ==>
              RunOf(w, es).exec.orders[i].child != c
    decreases |es|
  {
    hide Inv, Held, Apply;
    if es != [] {
      NextInv(w, es[0]);
      NextOwners(w, es[0]);
      NextHeld(w, es[0], c, time);
      RunHeld(Next(w, es[0]), es[1..], c, time);
    }
  }

  /** After the k-th failure, a limit order of the same child is not sent again before the
      delay has passed, whatever else happens. */
  lemma FailedOrderWaits(cfg: Config, before: seq<Event>, w: World, e: Event, es: seq<Event>)
    requires Reaches(cfg, before, w) && Enabled(w, e) && e.OrderFailed? && Tracks(w.exec, e.id)
    requires !(cfg.closing && e.satisfied) && !w.exec.children[w.exec.orders[e.id].child].status.Aggressive?
    requires LegalRun(Next(w, e), es)
    requires forall k :: 0 <= k < |es| ==> Before(es[k], e.now + RetryDelay(cfg, w.exec.retries + 1))
    ensures var end := RunOf(Next(w, e), es).exec;
            forall i: nat :: |w.exec.orders| <= i < |end.orders| ==> end.orders[i].child != w.exec.orders[e.id].child
  {
    hide Inv, RetryDelay, Held, Legal;
    ReachesInv(cfg, before, w);
    FailedRunWaits(w, e, es);
  }

  lemma FailedRunWaits(w: World, e: Event, es: seq<Event>)
    requires Inv(w) && Enabled(w, e) && e.OrderFailed? && Tracks(w.exec, e.id)
    requires !(w.exec.cfg.closing && e.satisfied) && !w.exec.children[w.exec.orders[e.id].child].status.Aggressive?
    requires LegalRun(Next(w, e), es)
    requires forall k :: 0 <= k < |es| ==> Before(es[k], e.now + RetryDelay(w.exec.cfg, w.exec.retries + 1))
    ensures var end := RunOf(Next(w, e), es).exec;
            forall i: nat :: |w.exec.orders| <= i < |end.orders| ==> end.orders[i].child != w.exec.orders[e.id].child
  {
    hide Inv, RetryDelay, Held, Legal, Apply;
    NextInv(w, e);
    FailedHeld(w, e);
    RunHeld(Next(w, e), es, w.exec.orders[e.id].child, e.now + RetryDelay(w.exec.cfg, w.exec.retries + 1));
  }

  lemma FailedHeld(w: World, e: Event)
    requires Inv(w) && Enabled(w, e) && e.OrderFailed? && Tracks(w.exec, e.id)
    requires !(w.exec.cfg.closing && e.satisfied)
    requires !w.exec.children[w.exec.orders[e.id].child].status.Aggressive?
    ensures Held(Next(w, e).exec, w.exec.orders[e.id].child, e.now + RetryDelay(w.exec.cfg, w.exec.retries + 1))
    ensures |Next(w, e).exec.orders| == |w.exec.orders|
  {
    hide Outstanding, RecordOk, RetryDelay, Books, Bounds, Crossing, Outcome, Reconciled;
    TrackedOrder(w.exec, w.ended, e.id);
  }
}
