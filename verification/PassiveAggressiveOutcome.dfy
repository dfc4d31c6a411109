/**
 Lifecycle guarantees of the passive-aggressive executor over whole runs: oversize
 reconciliation, the crossing rule and truthful outcomes, and the theorems that collect
 everything a reachable state satisfies.
 */
module PassiveAggressiveOutcome {
  import opened Common
  import opened PassiveAggressive
  import opened PassiveAggressiveRuns
  import opened PassiveAggressiveSafety

  // ---- Oversize reconciliation ------------------------------------------------

  ghost predicate Reconciled(s: State) {
    s.idx < |s.children| && s.children[s.idx].status.Active? ==> Room(s, s.idx) >= 0.0
  }

  lemma StepReconciled(s: State, ended: map<OrderId, Ending>, now: real, price: Option<real>)
    requires Shape(s, ended) && Reconciled(s)
    ensures Reconciled(Step(s, now, price))
  {
    AdvanceShape(s, ended);
    StepShape(s, ended, now, price);
    var s0 := s.(idx := FirstUnfinished(s.children, s.idx));
    var t := Step(s, now, price);
    if s0.idx < |s0.children| {
      assert ChildOk(s, ended, s0.idx);
      if s0.children[s0.idx].status.Idle? {
        NoneOpen(s0, ended);
        ShapeOutstanding(t, ended);
      }
    }
  }

  // Cancelling the current child's order whenever it is oversized reconciles it.
  lemma ReconcileReconciles(s: State, id: OrderId)
    requires s.idx <= |s.children| && (Tracks(s, id) ==> Reconciled(s))
    ensures Reconciled(Reconcile(s, id)) || s.children[s.idx].tracked.None?
  {
  }

  // A fill of the working order turns work into fills and leaves the room unchanged; a
  // fill of a completed order is already part of its completion.
  lemma TrackedFillRoom(w: World, e: Event)
    requires Shape(w.exec, w.ended) && e.Filled? && Enabled(w, e)
    requires Known(w.exec, e.id) && !Replayed(w.exec, e.id, e.trade) && Tracks(w.exec, e.id)
    requires Reconciled(w.exec)
    ensures Reconciled(Posted(w.exec, e))
  {
    var s := w.exec;
    var p := Posted(s, e);
    var r := FilledRecord(s.orders[e.id], e.trade, e.amount);
    assert OrderOk(s, w.ended, e.id);
    TrackedOrder(s, w.ended, e.id);
    PostShape(s, w.ended, e.id, Settle(r));
    PostedWork(w, e);
    ShapeOutstanding(s, w.ended);
    ShapeOutstanding(p, w.ended);
  }

  lemma FilledReconciled(w: World, e: Event)
    requires Shape(w.exec, w.ended) && e.Filled? && Enabled(w, e)
    requires Reconciled(w.exec)
    ensures Reconciled(OnFilled(w.exec, e.id, e.trade, e.amount))
  {
    var s := w.exec;
    if Known(s, e.id) && !Replayed(s, e.id, e.trade) {
      assert OrderOk(s, w.ended, e.id);
      var r := FilledRecord(s.orders[e.id], e.trade, e.amount);
      CreditIsPost(s, e.id, r);
      var p := Posted(s, e);
      PostShape(s, w.ended, e.id, Settle(r));
      assert p.idx < |p.children| ==> ChildOk(p, w.ended, p.idx);
      if Tracks(s, e.id) { TrackedFillRoom(w, e); }
      ReconcileReconciles(p, e.id);
      assert OnFilled(s, e.id, e.trade, e.amount) == Reconcile(p, e.id);
    }
  }

  lemma CompletedReconciled(w: World, e: Event)
    requires Shape(w.exec, w.ended) && e.OrderCompleted? && Enabled(w, e)
    requires Reconciled(w.exec)
    ensures Reconciled(Apply(w.exec, e))
  {
    var s := w.exec;
    if Known(s, e.id) {
      assert OrderOk(s, w.ended, e.id);
      TrackedOrder(s, w.ended, e.id);
      CreditIsPost(s, e.id, CompletedRecord(s.orders[e.id], e.amount));
      if s.orders[e.id].terminal {
        var p := Posted(s, e);
        PostShape(s, w.ended, e.id, Settle(CompletedRecord(s.orders[e.id], e.amount)));
        ShapeOutstanding(s, w.ended);
        ShapeOutstanding(p, w.ended);
      }
    }
  }

  lemma NextReconciled(w: World, e: Event)
    requires Shape(w.exec, w.ended) && Enabled(w, e) && Reconciled(w.exec)
    ensures Reconciled(Next(w, e).exec)
  {
    hide Shape, Outstanding, Step, Legal, Reconcile;
    var s := w.exec;
    match e
    case Timer(now, price) => TimerReconciled(w, e);
    case Filled(_, _, _) => FilledReconciled(w, e);
    case OrderCompleted(_, _) => CompletedReconciled(w, e);
    case OrderCanceled(_) => CanceledReconciled(w, e);
    case OrderFailed(_, _, _) => FailedReconciled(w, e);
    case StopRequest(_, _) =>
  }

  lemma TimerReconciled(w: World, e: Event)
    requires Shape(w.exec, w.ended) && e.Timer? && Enabled(w, e) && Reconciled(w.exec)
    ensures Reconciled(Apply(w.exec, e))
  {
    hide Shape, Outstanding, Step, Legal;
    if w.exec.status == Running { StepReconciled(w.exec, w.ended, e.now, e.price); }
  }

  lemma CanceledReconciled(w: World, e: Event)
    requires Shape(w.exec, w.ended) && e.OrderCanceled? && Enabled(w, e) && Reconciled(w.exec)
    ensures Reconciled(Apply(w.exec, e))
  {
    hide Outstanding, RecordOk, ChildOk, OrderOk;
    if Known(w.exec, e.id) {
      TrackedOrder(w.exec, w.ended, e.id);
      if w.exec.orders[e.id].terminal { EndAgain(w.exec, e.id); }
    }
  }

  lemma FailedReconciled(w: World, e: Event)
    requires Shape(w.exec, w.ended) && e.OrderFailed? && Enabled(w, e) && Reconciled(w.exec)
    ensures Reconciled(Apply(w.exec, e))
  {
    hide Outstanding, RecordOk, ChildOk, OrderOk, RetryDelay;
    if Known(w.exec, e.id) {
      TrackedOrder(w.exec, w.ended, e.id);
      if w.exec.orders[e.id].terminal { EndAgain(w.exec, e.id); }
    }
  }

  // ---- Crossing rule ----------------------------------------------------------

  predicate Expired(s: State, c: nat, clock: real)
    requires c < |s.children|
  {
    s.children[c].cycleStart.Some? && clock - s.children[c].cycleStart.value >= s.cfg.timeLimit
  }

  // Market orders exist only in a CLOSE executor and only for children whose cycle has
  // expired; after one of them no limit order follows for the same child.
  ghost predicate Crossing(s: State, clock: real) {
    && |s.sent| == |s.orders|
    && (forall i: nat :: i < |s.orders| ==> s.orders[i].child < |s.children|)
    && (forall i: nat :: i < |s.orders| && s.sent[i].Market? ==>
          s.cfg.closing && Expired(s, s.orders[i].child, clock))
    && (forall i: nat, j: nat | i < j < |s.orders| && s.orders[i].child == s.orders[j].child
                                && s.sent[i].Market? :: s.sent[j].Market?)
    && (forall c: nat :: c < |s.children| ==>
          && (s.children[c].cancelReason.CycleExpired? ==> Expired(s, c, clock))
          && (s.children[c].status.Aggressive? ==> s.cfg.closing && Expired(s, c, clock)))
  }

  // What one event may do to the facts the crossing rule depends on.
  ghost predicate CrossStep(s: State, t: State, clock: real) {
    && t.cfg == s.cfg && |t.children| == |s.children|
    && (forall c: nat :: c < |s.children| ==>
          && (s.children[c].cycleStart.Some? ==> t.children[c].cycleStart == s.children[c].cycleStart)
          && (t.children[c].cancelReason.CycleExpired? ==>
                s.children[c].cancelReason.CycleExpired? || Expired(t, c, clock))
          && (t.children[c].status.Aggressive? ==>
                s.children[c].status.Aggressive?
                || (t.cfg.closing && s.children[c].cancelReason.CycleExpired?)))
    && |s.orders| <= |t.orders| <= |s.orders| + 1
    && (forall i: nat :: i < |s.orders| ==> t.orders[i].child == s.orders[i].child)
    && |s.sent| == |s.orders| && |t.sent| == |t.orders| && t.sent[..|s.sent|] == s.sent
    && (|t.orders| > |s.orders| ==>
          var c := t.orders[|s.orders|].child;
          c < |s.children|
          && if t.sent[|s.orders|].Market? then
               s.children[c].status.Aggressive? || (t.cfg.closing && s.children[c].cancelReason.CycleExpired?)
             else !Expired(t, c, clock))
  }

  lemma CrossStepKeeps(s: State, t: State, before: real, clock: real)
    requires Crossing(s, before) && CrossStep(s, t, clock) && before <= clock
    ensures Crossing(t, clock)
  {
    forall c: nat | c < |s.children| && Expired(s, c, before) ensures Expired(t, c, clock) {}
    assert forall i: nat :: i < |s.orders| ==> t.sent[i] == t.sent[..|s.sent|][i];
    if |t.orders| > |s.orders| {
      var n := |s.orders|;
      var c := t.orders[n].child;
      if t.sent[n].Limit? {
        assert forall i: nat :: i < n && s.orders[i].child == c && s.sent[i].Market? ==> Expired(s, c, before);
      }
    }
  }

  lemma StepCross(s: State, ended: map<OrderId, Ending>, now: real, price: Option<real>)
    requires Shape(s, ended)
    ensures CrossStep(s, Step(s, now, price), now)
  {
    hide Outstanding, StepChild;
    var s0 := s.(idx := FirstUnfinished(s.children, s.idx));
    if s0.idx < |s0.children| {
      StepChildCross(SetChild(s0, s0.idx, StartCycle(s0.children[s0.idx], now)), s0.idx, now, price);
    }
  }

  lemma StepChildCross(s: State, c: nat, now: real, price: Option<real>)
    requires c < |s.children| && s.children[c].cycleStart.Some? && |s.sent| == |s.orders|
    ensures CrossStep(s, StepChild(s, c, now, price), now)
  {
    hide Outstanding;
  }

  lemma CanceledCross(s: State, ended: map<OrderId, Ending>, id: OrderId, clock: real)
    requires Shape(s, ended) && WellIndexed(s)
    ensures CrossStep(s, OnCanceled(s, id), clock)
  {
  }

  lemma FailedCross(s: State, ended: map<OrderId, Ending>, id: OrderId, now: real, satisfied: bool, clock: real)
    requires Shape(s, ended) && WellIndexed(s)
    ensures CrossStep(s, OnFailed(s, id, now, satisfied), clock)
  {
  }

  lemma FilledCross(
      s: State, ended: map<OrderId, Ending>, id: OrderId, trade: Option<TradeId>, amount: real, clock: real)
    requires Shape(s, ended) && WellIndexed(s)
    ensures CrossStep(s, OnFilled(s, id, trade, amount), clock)
  {
  }

  lemma CompletedCross(s: State, ended: map<OrderId, Ending>, id: OrderId, amount: real, clock: real)
    requires Shape(s, ended) && WellIndexed(s)
    ensures CrossStep(s, OnCompleted(s, id, amount), clock)
  {
  }

  lemma NextCrossing(w: World, e: Event)
    requires Shape(w.exec, w.ended) && Enabled(w, e)
    requires Crossing(w.exec, w.clock)
    ensures Crossing(Next(w, e).exec, Next(w, e).clock)
  {
    var s := w.exec;
    var clock := Next(w, e).clock;
    match e {
      case Timer(now, price) =>
        if s.status == Running { StepCross(s, w.ended, now, price); }
        else { assert CrossStep(s, Apply(s, e), clock); }
      case Filled(id, trade, amount) => FilledCross(s, w.ended, id, trade, amount, clock);
      case OrderCompleted(id, amount) => CompletedCross(s, w.ended, id, amount, clock);
      case OrderCanceled(id) => CanceledCross(s, w.ended, id, clock);
      case OrderFailed(id, now, satisfied) => FailedCross(s, w.ended, id, now, satisfied, clock);
      case StopRequest(now, keep) => assert CrossStep(s, Stop(s, now, keep), clock);
    }
    CrossStepKeeps(s, Apply(s, e), w.clock, clock);
  }

  // ---- Outcomes -----------------------------------------------------------------

  ghost predicate Outcome(s: State) {
    && (s.status == Terminated ==> NewestWork(s) == 0.0 && s.closeType.Some?)
    && (s.status == ShuttingDown ==> s.closeType.Some?)
    && (s.closeType == Some(Completed) ==> s.filled >= s.cfg.total)
  }

  // Leaving RUNNING is for good, and nothing is submitted outside RUNNING.
  lemma NextStatus(w: World, e: Event)
    requires Shape(w.exec, w.ended) && Enabled(w, e)
    requires w.exec.status != Running
    ensures Next(w, e).exec.status != Running && |Next(w, e).exec.orders| == |w.exec.orders|
  {
    var s := w.exec;
    match e
    case Timer(_, _) =>
    case Filled(_, _, _) => FilledContinues(w, e);
    case OrderCompleted(_, _) =>
    case OrderCanceled(_) =>
    case OrderFailed(_, _, _) =>
    case StopRequest(_, _) =>
  }

  // Without a new submission the work in hand never grows, and fills never shrink.
  lemma NextWork(w: World, e: Event)
    requires Shape(w.exec, w.ended) && Enabled(w, e)
    ensures var s := w.exec; var t := Next(w, e).exec;
            t.filled >= s.filled && t.cfg == s.cfg
            && (|t.orders| == |s.orders| ==> 0.0 <= NewestWork(t) <= NewestWork(s))
  {
    Factor(w, e);
    if HasOrder(e) && Known(w.exec, e.id) { PostedWork(w, e); }
  }

  lemma NextOutcome(w: World, e: Event)
    requires Shape(w.exec, w.ended) && Enabled(w, e) && Outcome(w.exec)
    ensures Outcome(Next(w, e).exec)
  {
    var s := w.exec;
    NextWork(w, e);
    if s.status != Running {
      NextStatus(w, e);
      ShapeOutstanding(s, w.ended);
      ClosesNamed(w, e);
    } else {
      RunningOutcome(w, e);
    }
  }

  // Outside RUNNING only the outcome already chosen, or a later stop, is reported.
  lemma ClosesNamed(w: World, e: Event)
    requires Shape(w.exec, w.ended) && Enabled(w, e) && Outcome(w.exec)
    requires w.exec.status != Running
    ensures var s := w.exec; var t := Next(w, e).exec;
            && t.closeType.Some?
            && (t.closeType == s.closeType || t.closeType == Some(EarlyStop) || t.closeType == Some(PositionHold))
            && (t.status == Terminated ==> s.status == Terminated || NewestWork(t) == 0.0)
  {
    hide Outstanding, OrderOk, RecordOk;
    var s := w.exec;
    ShapeOutstanding(s, w.ended);
    match e
    case Timer(_, _) =>
    case Filled(_, _, _) => FilledContinues(w, e);
    case OrderCompleted(_, _) =>
    case OrderCanceled(_) =>
    case OrderFailed(id, _, _) => if Known(s, id) { TrackedOrder(s, w.ended, id); }
    case StopRequest(_, _) =>
  }

  // A step closes only with nothing outstanding.
  lemma StepOutcome(s: State, ended: map<OrderId, Ending>, now: real, price: Option<real>)
    requires Shape(s, ended) && s.status == Running && Outcome(s)
    ensures Outcome(Step(s, now, price))
    ensures Step(s, now, price).status == Terminated ==>
              Step(s, now, price).closeType == Some(FinalCloseType(Step(s, now, price)))
  {
    var s0 := s.(idx := FirstUnfinished(s.children, s.idx));
    AdvanceShape(s, ended);
    ShapeOutstanding(s0, ended);
    hide Shape, Outstanding;
  }

  lemma RunningOutcome(w: World, e: Event)
    requires Shape(w.exec, w.ended) && Enabled(w, e)
    requires Outcome(w.exec) && w.exec.status == Running
    ensures var s := w.exec; var t := Next(w, e).exec;
            && Outcome(t)
            && (t.status == Terminated ==>
                  (e.Timer? && t.closeType == Some(FinalCloseType(t)))
                  || (e.OrderFailed? && s.cfg.closing && e.satisfied && t.closeType == Some(EarlyStop)))
  {
    hide Outstanding, Shape, Step, Legal;
    var s := w.exec;
    match e
    case Timer(now, price) => StepOutcome(s, w.ended, now, price);
    case OrderFailed(_, _, _) => FailedOutcome(w, e);
    case _ => CarriedOutcome(w, e);
  }

  // A failed order may close the executor, with nothing left to execute.
  lemma FailedOutcome(w: World, e: Event)
    requires Shape(w.exec, w.ended) && Enabled(w, e) && e.OrderFailed?
    requires Outcome(w.exec) && w.exec.status == Running
    ensures var s := w.exec; var t := Apply(s, e);
            && Outcome(t)
            && (t.status == Terminated ==> s.cfg.closing && e.satisfied && t.closeType == Some(EarlyStop))
  {
    hide Outstanding, RecordOk, ChildOk, RetryDelay;
    NextWork(w, e);
    if Known(w.exec, e.id) { TrackedOrder(w.exec, w.ended, e.id); }
  }

  // The other events do not close it.
  lemma CarriedOutcome(w: World, e: Event)
    requires Shape(w.exec, w.ended) && Enabled(w, e) && !e.Timer? && !e.OrderFailed?
    requires Outcome(w.exec) && w.exec.status == Running
    ensures Outcome(Apply(w.exec, e)) && Apply(w.exec, e).status != Terminated
  {
    hide Outstanding, RecordOk, ChildOk, OrderOk, NewestWork;
    NextWork(w, e);
    if e.Filled? { FilledContinues(w, e); }
  }

  // ---- The whole invariant ------------------------------------------------------

  ghost predicate Inv(w: World) {
    && WellIndexed(w.exec) && Shape(w.exec, w.ended) && Books(w.exec) && Bounds(w)
    && Reconciled(w.exec) && Crossing(w.exec, w.clock) && Outcome(w.exec)
  }

  lemma InvShape(w: World)
    requires Inv(w)
    ensures WellIndexed(w.exec) && Shape(w.exec, w.ended)
  {
  }

  lemma NextInv(w: World, e: Event)
    requires Inv(w) && Enabled(w, e)
    ensures Inv(Next(w, e))
  {
    NextShape(w, e);
    NextBooks(w, e);
    NextBounds(w, e);
    NextReconciled(w, e);
    NextCrossing(w, e);
    NextOutcome(w, e);
  }

  lemma {:induction false} RunInv(w: World, es: seq<Event>)
    requires Inv(w) && LegalRun(w, es)
    ensures Inv(RunOf(w, es))
    decreases |es|
  {
    if es != [] {
      NextInv(w, es[0]);
      RunInv(Next(w, es[0]), es[1..]);
    }
  }
}
