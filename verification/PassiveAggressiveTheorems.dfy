/**
 The guarantees of the passive-aggressive executor, stated for every legal run of an
 executor built from its configuration.
 */
module PassiveAggressiveTheorems {
  import opened Common
  import opened PassiveAggressive
  import opened PassiveAggressiveRuns
  import opened PassiveAggressiveSafety
  import opened PassiveAggressiveOutcome

  // ---- Child slots --------------------------------------------------------------

  /** The child targets add up to the total, there are at most 200 of them, and when the
      total holds a whole child each target lies in [childQuantity, 2 * childQuantity); only
      the last takes more than childQuantity. */
  lemma ChildrenCoverTotal(total: real, childQuantity: real)
    ensures BuildChildren(total, childQuantity).Success? <==> childQuantity > 0.0 && total < 201.0 * childQuantity
    ensures var built := BuildChildren(total, childQuantity);
            built.Success? ==>
              && Sum(Targets(built.value)) == Max(total, 0.0)
              && |built.value| <= 200
              && (forall c :: 0 <= c < |built.value| - 1 ==> built.value[c].target == childQuantity)
              && (forall c :: 0 <= c < |built.value| ==>
                    built.value[c] == FreshChild(built.value[c].target)
                    && 0.0 < built.value[c].target < 2.0 * childQuantity
                    && (total >= childQuantity ==> built.value[c].target >= childQuantity))
  {
    var built := BuildChildren(total, childQuantity);
    if childQuantity > 0.0 { QuotientLimit(total, childQuantity); }
    if built.Success? {
      QuotientBounds(total, childQuantity);
      SlotsSum(total, childQuantity);
    }
  }

  lemma SlotsSum(total: real, childQuantity: real)
    requires BuildChildren(total, childQuantity).Success?
    ensures Sum(Targets(BuildChildren(total, childQuantity).value)) == Max(total, 0.0)
  {
    var built := BuildChildren(total, childQuantity).value;
    var n := Quotient(total, childQuantity);
    var remainder := total - n as real * childQuantity;
    QuotientBounds(total, childQuantity);
    if n <= 0 {
      assert n as real * childQuantity <= 0.0;
      if remainder > 0.0 {
        assert Targets(built) == [] + [remainder];
        SumAppend([], remainder);
      } else {
        assert built == [];
      }
    } else {
      EvenSlots(built, n, childQuantity, remainder);
    }
  }

  lemma EvenSlots(built: seq<Child>, n: nat, q: real, remainder: real)
    requires n > 0 && |built| == n && remainder >= 0.0
    requires forall c :: 0 <= c < n - 1 ==> built[c].target == q
    requires built[n - 1].target == q + remainder
    ensures Sum(Targets(built)) == n as real * q + remainder
  {
    var even := seq(n, _ => q);
    SumConstant(n, q);
    SumUpdate(even, n - 1, q + remainder);
    assert Targets(built) == even[n - 1 := q + remainder];
  }

  lemma QuotientLimit(total: real, q: real)
    requires q > 0.0
    ensures Quotient(total, q) <= 200 <==> total < 201.0 * q
  {
    QuotientBounds(total, q);
    if total >= 0.0 { WholeLimit(total, q, Quotient(total, q) as real); }
  }

  lemma WholeLimit(total: real, q: real, n: real)
    requires q > 0.0 && 0.0 <= total - n * q < q
    ensures n <= 200.0 ==> total < 201.0 * q
    ensures n >= 201.0 ==> total >= 201.0 * q
  {
    var next := n + 1.0;
    assert next * q == n * q + q;
    MulLess(next, 201.0, q);
    MulLess(201.0, n, q);
  }

  lemma QuotientBounds(q: real, d: real)
    requires d > 0.0
    ensures q >= 0.0 ==> Quotient(q, d) >= 0 && 0.0 <= q - Quotient(q, d) as real * d < d
    ensures q >= d ==> Quotient(q, d) >= 1
    ensures q < 0.0 ==> Quotient(q, d) <= 0 && q - Quotient(q, d) as real * d <= 0.0
  {
    if q >= 0.0 {
      FloorTimes(q, d);
    } else {
      FloorTimes(-q, d);
      var f := (-q / d).Floor as real;
      assert q - (-f) * d == -(-q - f * d);
    }
  }

  // ---- Reachable worlds -----------------------------------------------------------

  ghost predicate StartOf(cfg: Config, clock: real, w: World) {
    var built := BuildChildren(cfg.total, cfg.childQuantity);
    built.Success? && w == Start(cfg, built.value, clock)
  }

  ghost predicate Reaches(cfg: Config, es: seq<Event>, w: World) {
    exists clock: real, w0: World :: StartOf(cfg, clock, w0) && LegalRun(w0, es) && w == RunOf(w0, es)
  }

  lemma StartInv(cfg: Config, clock: real, w: World)
    requires StartOf(cfg, clock, w)
    ensures Inv(w)
  {
    ChildrenCoverTotal(cfg.total, cfg.childQuantity);
    var s := w.exec;
    SumZero(Fills(s.children));
    SumZero(Credits(s.orders));
    SumZero(w.childLate);
    forall c: nat | c < |s.children| ensures s.children[c].filled == Sum(CreditsOf(s.orders, c)) {
      assert s.children[c] == FreshChild(s.children[c].target);
      SumZero(CreditsOf(s.orders, c));
    }
  }

  lemma ReachesInv(cfg: Config, es: seq<Event>, w: World)
    requires Reaches(cfg, es, w)
    ensures Inv(w) && w.exec.cfg == cfg
    ensures exists clock: real, w0: World :: StartOf(cfg, clock, w0)
              && Targets(w.exec.children) == Targets(w0.exec.children)
  {
    var clock: real, w0: World :| StartOf(cfg, clock, w0) && LegalRun(w0, es) && w == RunOf(w0, es);
    StartInv(cfg, clock, w0);
    RunInv(w0, es);
    RunKeepsPlan(w0, es);
  }

  lemma {:induction false} RunKeepsPlan(w: World, es: seq<Event>)
    requires Inv(w) && LegalRun(w, es)
    ensures RunOf(w, es).exec.cfg == w.exec.cfg
    ensures Targets(RunOf(w, es).exec.children) == Targets(w.exec.children)
    decreases |es|
  {
    if es != [] {
      NextInv(w, es[0]);
      Factor(w, es[0]);
      PostedPlan(w, es[0]);
      RunKeepsPlan(Next(w, es[0]), es[1..]);
    }
  }

  lemma PostedPlan(w: World, e: Event)
    requires Inv(w) && Enabled(w, e) && Continues(Posted(w.exec, e), Apply(w.exec, e))
    ensures Apply(w.exec, e).cfg == w.exec.cfg
    ensures Targets(Apply(w.exec, e).children) == Targets(w.exec.children)
  {
    hide Apply, Books, Bounds, Crossing, Outcome, Reconciled, Room, Legal, Outstanding;
    var s := w.exec;
    var t := Apply(s, e);
    if HasOrder(e) && Known(s, e.id) { PostedWork(w, e); }
    assert |t.children| == |s.children|;
    assert forall c :: 0 <= c < |s.children| ==> t.children[c].target == s.children[c].target;
  }

  // ---- Theorems ---------------------------------------------------------------------

  /** Fills plus everything still working never exceed the total by more than the credit
      that landed on already-ended orders since the newest submission; likewise for each
      child and its own late credit. Without late credit nothing is over-executed. */
  lemma OverExecutionBound(cfg: Config, es: seq<Event>, w: World)
    requires Reaches(cfg, es, w)
    ensures w.exec.filled + Outstanding(w.exec.orders) <= Max(cfg.total, 0.0) + w.lateSinceSubmit
    ensures w.lateSinceSubmit <= w.late == Sum(w.childLate) && |w.childLate| == |w.exec.children|
    ensures forall c :: 0 <= c < |w.exec.children| ==>
              w.exec.children[c].filled <= w.exec.children[c].target + w.childLate[c]
    ensures w.late == 0.0 ==>
              && w.exec.filled + Outstanding(w.exec.orders) <= Max(cfg.total, 0.0)
              && forall c :: 0 <= c < |w.exec.children| ==>
                   w.exec.children[c].filled <= w.exec.children[c].target
  {
    ReachesInv(cfg, es, w);
    ShapeOutstanding(w.exec, w.ended);
    OutstandingNonNegative(w.exec.orders);
    SumNonNegative(w.childLate);
  }

  /** At most one order is without a terminal event: the newest one, tracked by the
      current child, which is ACTIVE, CANCELING or AGGRESSIVE exactly while it works.
      Earlier children are DONE or SKIPPED and later ones untouched. */
  lemma SingleWorkingOrder(cfg: Config, es: seq<Event>, w: World)
    requires Reaches(cfg, es, w)
    ensures SingleWorking(w.exec)
  {
    ReachesInv(cfg, es, w);
    ShapeSingle(w.exec, w.ended);
  }

  ghost predicate SingleWorking(s: State) {
    && s.idx <= |s.children|
    && (forall i: nat :: i < |s.orders| && !s.orders[i].terminal ==>
          i == |s.orders| - 1 && s.idx < |s.children|
          && s.children[s.idx].tracked == Some(i) && Working(s.children[s.idx].status))
    && (s.idx < |s.children| && Working(s.children[s.idx].status) ==>
          s.orders != [] && !s.orders[|s.orders| - 1].terminal)
    && (forall c: nat :: c < s.idx ==> Finished(s.children[c].status))
    && (forall c: nat :: s.idx < c < |s.children| ==>
          s.children[c] == FreshChild(s.children[c].target))
  }

  lemma ShapeSingle(s: State, ended: map<OrderId, Ending>)
    requires Shape(s, ended)
    ensures SingleWorking(s)
  {
    forall i: nat | i < |s.orders| && !s.orders[i].terminal
      ensures i == |s.orders| - 1 && s.idx < |s.children|
              && s.children[s.idx].tracked == Some(i) && Working(s.children[s.idx].status)
    {
      assert OrderOk(s, ended, i);
      assert ChildOk(s, ended, s.orders[i].child);
    }
    if s.idx < |s.children| { assert ChildOk(s, ended, s.idx); }
    forall c: nat | c < s.idx ensures Finished(s.children[c].status) { assert ChildOk(s, ended, c); }
    forall c: nat | s.idx < c < |s.children| ensures s.children[c] == FreshChild(s.children[c].target) {
      assert ChildOk(s, ended, c);
    }
  }

  /** Whenever the current child rests a limit order, that order fits: fills of retired
      orders that made it too big have already put it into CANCELING. */
  lemma OversizeReconciliation(cfg: Config, es: seq<Event>, w: World)
    requires Reaches(cfg, es, w)
    requires w.exec.idx < |w.exec.children| && w.exec.children[w.exec.idx].status.Active?
    ensures Room(w.exec, w.exec.idx) >= 0.0
  {
    ReachesInv(cfg, es, w);
  }

  /** The plan still sums to the total, and the running total, the children's fills and
      the orders' credits agree, child by child. */
  lemma Conservation(cfg: Config, es: seq<Event>, w: World)
    requires Reaches(cfg, es, w)
    ensures Sum(Targets(w.exec.children)) == Max(cfg.total, 0.0)
    ensures w.exec.filled == Sum(Fills(w.exec.children)) == Sum(Credits(w.exec.orders))
    ensures forall c: nat :: c < |w.exec.children| ==>
              w.exec.children[c].filled == Sum(CreditsOf(w.exec.orders, c))
  {
    ReachesInv(cfg, es, w);
    var clock: real, w0: World :| StartOf(cfg, clock, w0)
                                  && Targets(w.exec.children) == Targets(w0.exec.children);
    ChildrenCoverTotal(cfg.total, cfg.childQuantity);
  }

  lemma FillsNonNegative(cfg: Config, es: seq<Event>, w: World)
    requires Reaches(cfg, es, w)
    ensures w.exec.filled >= 0.0
  {
    ReachesInv(cfg, es, w);
    hide Reaches, Bounds, Crossing, Outstanding;
    forall i | 0 <= i < |w.exec.orders| ensures Credits(w.exec.orders)[i] >= 0.0 {
      assert OrderOk(w.exec, w.ended, i);
    }
    SumNonNegative(Credits(w.exec.orders));
  }

  /** An executor that has closed has nothing outstanding, and COMPLETED means the whole
      total executed: exactly the total when no credit came late. */
  lemma OutcomeTruth(cfg: Config, es: seq<Event>, w: World)
    requires Reaches(cfg, es, w)
    ensures w.exec.status == Terminated ==> Outstanding(w.exec.orders) == 0.0 && w.exec.closeType.Some?
    ensures w.exec.closeType == Some(Completed) ==> w.exec.filled >= cfg.total
    ensures w.exec.closeType == Some(Completed) && w.late == 0.0 ==> w.exec.filled == Max(cfg.total, 0.0)
  {
    ReachesInv(cfg, es, w);
    OverExecutionBound(cfg, es, w);
    ShapeOutstanding(w.exec, w.ended);
    OutstandingNonNegative(w.exec.orders);
    forall i | 0 <= i < |w.exec.orders| ensures Credits(w.exec.orders)[i] >= 0.0 {
      assert OrderOk(w.exec, w.ended, i);
    }
    SumNonNegative(Credits(w.exec.orders));
  }

  /** A run that closes by itself reports FAILED after too many retries, otherwise
      COMPLETED exactly when everything executed, otherwise TIME_LIMIT; only the venue's
      reduce-only rejection of a CLOSE order ends it early. */
  lemma ClosingIsTruthful(cfg: Config, es: seq<Event>, w: World, e: Event)
    requires Reaches(cfg, es, w) && Enabled(w, e)
    requires w.exec.status == Running && Next(w, e).exec.status == Terminated
    ensures var t := Next(w, e).exec;
            && Outstanding(t.orders) == 0.0
            && (e.Timer? ==>
                  && (t.closeType == Some(Failed) <==> t.retries > cfg.maxRetries)
                  && (t.closeType == Some(Completed) <==> t.retries <= cfg.maxRetries && t.filled >= cfg.total)
                  && (t.closeType == Some(TimeLimit) <==> t.retries <= cfg.maxRetries && t.filled < cfg.total))
            && (!e.Timer? ==> e.OrderFailed? && cfg.closing && e.satisfied && t.closeType == Some(EarlyStop))
  {
    ReachesInv(cfg, es, w);
    RunningClose(w, e);
  }

  lemma RunningClose(w: World, e: Event)
    requires Inv(w) && Enabled(w, e) && w.exec.status == Running
    ensures var t := Next(w, e).exec;
            t.cfg == w.exec.cfg
            && (t.status == Terminated ==>
                  Outstanding(t.orders) == 0.0
                  && ((e.Timer? && t.closeType == Some(FinalCloseType(t)))
                      || (e.OrderFailed? && t.cfg.closing && e.satisfied && t.closeType == Some(EarlyStop))))
  {
    RunningOutcome(w, e);
    NextShape(w, e);
    NextWork(w, e);
    ShapeOutstanding(Next(w, e).exec, Next(w, e).ended);
  }

  /** Once the status of a reachable executor has left RUNNING it never returns, no order
      is submitted, and a report other than COMPLETED never turns into COMPLETED. */
  lemma StopIsFinal(cfg: Config, before: seq<Event>, w: World, es: seq<Event>)
    requires Reaches(cfg, before, w) && LegalRun(w, es) && w.exec.status != Running
    ensures RunOf(w, es).exec.status != Running
    ensures |RunOf(w, es).exec.orders| == |w.exec.orders|
    ensures w.exec.closeType != Some(Completed) ==> RunOf(w, es).exec.closeType != Some(Completed)
  {
    ReachesInv(cfg, before, w);
    hide Inv, Reaches;
    StoppedRun(w, es);
  }

  lemma {:induction false} StoppedRun(w: World, es: seq<Event>)
    requires Inv(w) && LegalRun(w, es) && w.exec.status != Running
    ensures RunOf(w, es).exec.status != Running
    ensures |RunOf(w, es).exec.orders| == |w.exec.orders|
    ensures w.exec.closeType != Some(Completed) ==> RunOf(w, es).exec.closeType != Some(Completed)
    decreases |es|
  {
    if es != [] {
      NextInv(w, es[0]);
      NextStatus(w, es[0]);
      ClosesNamed(w, es[0]);
      StoppedRun(Next(w, es[0]), es[1..]);
    }
  }

  /** Market orders are sent only by a CLOSE executor, for a child whose cycle has
      expired, and no limit order of that child follows one. */
  lemma CrossingRule(cfg: Config, es: seq<Event>, w: World)
    requires Reaches(cfg, es, w)
    ensures var s := w.exec;
            && |s.sent| == |s.orders|
            && (forall i: nat :: i < |s.orders| && s.sent[i].Market? ==>
                  cfg.closing && s.orders[i].child < |s.children| && Expired(s, s.orders[i].child, w.clock))
            && (forall i: nat, j: nat | i < j < |s.orders| && s.orders[i].child == s.orders[j].child
                                        && s.sent[i].Market? :: s.sent[j].Market?)
  {
    ReachesInv(cfg, es, w);
  }

  /** Every order, limit or market, is for exactly what its child and the total still
      lack at that moment, because nothing else is working. A tick sends limit orders, at
      the price it read; a market order is sent only on an acknowledgement. */
  lemma SubmissionSize(cfg: Config, es: seq<Event>, w: World, e: Event)
    requires Reaches(cfg, es, w) && Enabled(w, e)
    requires |Next(w, e).exec.orders| != |w.exec.orders|
    ensures var s := w.exec; var t := Next(w, e).exec; var n := |s.orders|;
            && |t.orders| == n + 1
            && t.orders[n].child == t.idx < |s.children|
            && t.orders[n].amount == Residual(s, t.idx) > 0.0
            && (forall i: nat :: i < n ==> t.orders[i].terminal)
            && |t.sent| == n + 1 && t.sent[n] == KindSent(e)
            && (e.Timer? ==> e.price.Some? && e.price.value > 0.0)
  {
    hide Inv, Reaches, Apply;
    ReachesInv(cfg, es, w);
    SubmittedSize(w, e);
    SubmittedKind(w, e);
  }

  // Ticks send limit orders at the price they read, acknowledgements send market orders.
  function KindSent(e: Event): OrderKind {
    if e.Timer? && e.price.Some? then Limit(e.price.value) else Market
  }

  lemma TickKind(w: World, e: Event)
    requires Shape(w.exec, w.ended) && Enabled(w, e) && e.Timer? && |Next(w, e).exec.orders| != |w.exec.orders|
    ensures var t := Next(w, e).exec; var n := |w.exec.orders|;
            |t.sent| == |t.orders| == n + 1 && t.sent[n] == KindSent(e) && e.price.Some? && e.price.value > 0.0
  {
    hide Outstanding, ChildOk, OrderOk, Residual, Room, FirstUnfinished;
  }

  lemma CallbackKind(w: World, e: Event)
    requires Shape(w.exec, w.ended) && Enabled(w, e) && HasOrder(e) && |Next(w, e).exec.orders| != |w.exec.orders|
    ensures var t := Next(w, e).exec; var n := |w.exec.orders|;
            |t.sent| == |t.orders| == n + 1 && t.sent[n] == KindSent(e)
  {
    hide Outstanding, ChildOk, OrderOk, Residual, Room, RecordOk, RetryDelay, Tracks;
    if e.Filled? { FilledContinues(w, e); }
  }

  lemma SubmittedKind(w: World, e: Event)
    requires Inv(w) && Enabled(w, e) && |Next(w, e).exec.orders| != |w.exec.orders|
    ensures var t := Next(w, e).exec; var n := |w.exec.orders|;
            && |t.sent| == |t.orders| == n + 1 && t.sent[n] == KindSent(e)
            && (e.Timer? ==> e.price.Some? && e.price.value > 0.0)
  {
    hide Inv, Shape, Tick, OnFilled, OnCompleted, OnCanceled, OnFailed, OpenIds, Legal;
    InvShape(w);
    if e.Timer? { TickKind(w, e); } else if HasOrder(e) { CallbackKind(w, e); }
  }

  lemma SubmittedSize(w: World, e: Event)
    requires Inv(w) && Enabled(w, e) && |Next(w, e).exec.orders| != |w.exec.orders|
    ensures var s := w.exec; var t := Next(w, e).exec; var n := |s.orders|;
            && |t.orders| == n + 1
            && t.orders[n].child == t.idx < |s.children|
            && t.orders[n].amount == Residual(s, t.idx) > 0.0
            && (forall i: nat :: i < n ==> t.orders[i].terminal)
  {
    var s := w.exec;
    var p := Posted(s, e);
    var t := Next(w, e).exec;
    NextShape(w, e);
    Factor(w, e);
    SubmittedAlone(w, e);
    SubmittingEvents(w, e);
    hide Inv, Shape, Enabled, Posted, Apply;
    OutstandingIsNewest(p);
  }

  // A new order belongs to the current child, and everything before it has ended.
  lemma SubmittedAlone(w: World, e: Event)
    requires Inv(w) && Enabled(w, e) && |Next(w, e).exec.orders| != |w.exec.orders|
    requires Continues(Posted(w.exec, e), Apply(w.exec, e))
    requires Shape(Next(w, e).exec, Next(w, e).ended)
    ensures var t := Next(w, e).exec; var n := |w.exec.orders|;
            && |t.orders| == n + 1 && t.orders[n].child == t.idx < |w.exec.children|
            && (forall i: nat :: i < n ==> t.orders[i].terminal)
            && (forall i: nat :: i < n ==> Posted(w.exec, e).orders[i].terminal)
  {
    var p := Posted(w.exec, e);
    var t := Next(w, e).exec;
    var n := |w.exec.orders|;
    assert OrderOk(t, Next(w, e).ended, n);
    assert ChildOk(t, Next(w, e).ended, t.orders[n].child);
    hide Inv, Enabled;
    forall i: nat | i < n ensures t.orders[i].terminal && p.orders[i].terminal {
      assert OrderOk(t, Next(w, e).ended, i);
      assert t.orders[i] == p.orders[i];
    }
  }

  // Only ticks, cancels and failures submit, and none of them changes a fill first.
  lemma SubmittingEvents(w: World, e: Event)
    requires Shape(w.exec, w.ended) && Enabled(w, e)
    requires |Next(w, e).exec.orders| != |w.exec.orders|
    ensures e.Timer? || e.OrderCanceled? || e.OrderFailed?
    ensures Posted(w.exec, e).filled == w.exec.filled && Posted(w.exec, e).cfg == w.exec.cfg
    ensures |Posted(w.exec, e).children| == |w.exec.children|
    ensures forall c: nat :: c < |w.exec.children| ==>
              Residual(Posted(w.exec, e), c) == Residual(w.exec, c)
  {
    hide Outstanding;
    var s := w.exec;
    match e
    case Timer(_, _) =>
    case Filled(_, _, _) => FilledContinues(w, e);
    case OrderCompleted(_, _) =>
    case OrderCanceled(id) => if Known(s, id) { EndIsPosted(s, id); }
    case OrderFailed(id, _, _) => if Known(s, id) { EndIsPosted(s, id); }
    case StopRequest(_, _) =>
  }

  // ---- The bound is exact -------------------------------------------------------------

  // One CLOSE child: its limit order is cancelled at expiry, crossed by a market order,
  // and only then filled for `late`; the market order completes in full.
  function LateFillEvents(total: real, late: real): seq<Event> {
    [Timer(0.0, Some(1.0)), Timer(5.0, None), OrderCanceled(0), Filled(0, Some(7), late),
     OrderCompleted(1, total)]
  }

  function OneChild(total: real): World {
    Start(Config(total, total, 5.0, 60.0, true, 10), [FreshChild(total)], 0.0)
  }

  function Resting(total: real): World {
    var w := OneChild(total);
    w.(exec := w.exec.(
         children := [FreshChild(total).(status := Active, tracked := Some(0),
                                         cycleStart := Some(0.0), refreshStart := Some(0.0))],
         orders := [Record(0, total, 0.0, 0.0, 0.0, {}, false)], sent := [Limit(1.0)]))
  }

  function Expiring(total: real): World {
    var w := Resting(total);
    var ch := w.exec.children[0].(status := Canceling, cancelReason := CycleExpired);
    w.(exec := w.exec.(children := [ch], cancels := {0}), clock := 5.0)
  }

  function Crossed(total: real): World {
    var w := Expiring(total);
    var ch := w.exec.children[0].(status := Aggressive, tracked := Some(1));
    var order := w.exec.orders[0];
    w.(exec := w.exec.(children := [ch], orders := [order.(terminal := true), order],
                       sent := [Limit(1.0), Market]),
       ended := map[0 := ByCancel])
  }

  lemma RestsLimit(total: real)
    requires total > 0.0
    ensures Enabled(OneChild(total), Timer(0.0, Some(1.0)))
    ensures Next(OneChild(total), Timer(0.0, Some(1.0))) == Resting(total)
  {
    assert Works([]) == [];
  }

  lemma ExpiresLimit(total: real)
    requires total > 0.0
    ensures Enabled(Resting(total), Timer(5.0, None)) && Next(Resting(total), Timer(5.0, None)) == Expiring(total)
  {
  }

  lemma CrossesMarket(total: real)
    requires total > 0.0
    ensures Enabled(Expiring(total), OrderCanceled(0)) && Next(Expiring(total), OrderCanceled(0)) == Crossed(total)
  {
    SumZero(Works([Crossed(total).exec.orders[0]]));
  }

  lemma FillsBoth(total: real, late: real)
    requires 0.0 < late <= total
    ensures var w4 := Next(Crossed(total), Filled(0, Some(7), late));
            Enabled(Crossed(total), Filled(0, Some(7), late)) && Enabled(w4, OrderCompleted(1, total))
            && var w5 := Next(w4, OrderCompleted(1, total));
            w5.late == late && w5.exec.filled == total + late
  {
  }

  /** The over-execution bound cannot be improved: for any total and any late fill up to
      it, some legal run executes exactly the total plus the late credit. */
  lemma BoundIsAttained(total: real, late: real) returns (cfg: Config, w: World)
    requires 0.0 < late <= total
    ensures cfg.total == total && Reaches(cfg, LateFillEvents(total, late), w)
    ensures w.late == late && w.exec.filled == total + w.late
  {
    hide Enabled, Next, Crossed, Resting, Expiring;
    var es := LateFillEvents(total, late);
    RestsLimit(total);
    ExpiresLimit(total);
    CrossesMarket(total);
    FillsBoth(total, late);
    var w4 := Next(Crossed(total), es[3]);
    w := Next(w4, es[4]);
    cfg := OneChild(total).exec.cfg;
    RunOfFive(OneChild(total), es, Resting(total), Expiring(total), Crossed(total), w4, w);
    OneChildStarts(total);
    assert StartOf(cfg, 0.0, OneChild(total));
  }

  lemma OneChildStarts(total: real)
    requires total > 0.0
    ensures StartOf(OneChild(total).exec.cfg, 0.0, OneChild(total))
  {
    assert total / total == 1.0;
    assert BuildChildren(total, total).value == [FreshChild(total)];
  }

  lemma RunOfFive(w0: World, es: seq<Event>, w1: World, w2: World, w3: World, w4: World, w5: World)
    requires |es| == 5
    requires Enabled(w0, es[0]) && w1 == Next(w0, es[0])
    requires Enabled(w1, es[1]) && w2 == Next(w1, es[1])
    requires Enabled(w2, es[2]) && w3 == Next(w2, es[2])
    requires Enabled(w3, es[3]) && w4 == Next(w3, es[3])
    requires Enabled(w4, es[4]) && w5 == Next(w4, es[4])
    ensures LegalRun(w0, es) && RunOf(w0, es) == w5
  {
    hide Next, Enabled;
    var s1 := es[1..];
    var s2 := s1[1..];
    var s3 := s2[1..];
    var s4 := s3[1..];
    assert LegalRun(w5, s4[1..]) && RunOf(w5, s4[1..]) == w5;
    assert LegalRun(w4, s4) && RunOf(w4, s4) == w5;
    assert LegalRun(w3, s3) && RunOf(w3, s3) == w5;
    assert LegalRun(w2, s2) && RunOf(w2, s2) == w5;
    assert LegalRun(w1, s1) && RunOf(w1, s1) == w5;
  }

  lemma RunOfThree(w0: World, es: seq<Event>, w1: World, w2: World, w3: World)
    requires |es| == 3
    requires Enabled(w0, es[0]) && w1 == Next(w0, es[0])
    requires Enabled(w1, es[1]) && w2 == Next(w1, es[1])
    requires Enabled(w2, es[2]) && w3 == Next(w2, es[2])
    ensures LegalRun(w0, es) && RunOf(w0, es) == w3
  {
    hide Next, Legal;
    var s1 := es[1..];
    var s2 := s1[1..];
    assert LegalRun(w3, s2[1..]) && RunOf(w3, s2[1..]) == w3;
    assert LegalRun(w2, s2) && RunOf(w2, s2) == w3;
    assert LegalRun(w1, s1) && RunOf(w1, s1) == w3;
  }

  // ---- Out of retries -----------------------------------------------------------------------

  function RetryEvents(): seq<Event> {
    [Timer(0.0, Some(1.0)), OrderFailed(0, 1.0, false), Timer(20.0, Some(1.0))]
  }

  // One CLOSE child, no retries allowed.
  function NoRetries(total: real): World {
    Start(Config(total, total, 60.0, 20.0, true, 0), [FreshChild(total)], 0.0)
  }

  function FirstTry(total: real): World {
    var w := NoRetries(total);
    w.(exec := w.exec.(
         children := [FreshChild(total).(status := Active, tracked := Some(0),
                                         cycleStart := Some(0.0), refreshStart := Some(0.0))],
         orders := [Record(0, total, 0.0, 0.0, 0.0, {}, false)], sent := [Limit(1.0)]))
  }

  function TryFailed(total: real): World {
    var w := FirstTry(total);
    var ch := w.exec.children[0].(status := Idle, tracked := None, retryAt := Some(3.0));
    w.(exec := w.exec.(children := [ch], orders := [w.exec.orders[0].(terminal := true)], retries := 1),
       ended := map[0 := ByFailure], clock := 1.0)
  }

  lemma TriesOnce(total: real)
    requires total > 0.0
    ensures Enabled(NoRetries(total), RetryEvents()[0])
    ensures Next(NoRetries(total), RetryEvents()[0]) == FirstTry(total)
  {
    assert Works([]) == [];
  }

  lemma TryFails(total: real)
    requires total > 0.0
    ensures Enabled(FirstTry(total), RetryEvents()[1])
    ensures Next(FirstTry(total), RetryEvents()[1]) == TryFailed(total)
  {
  }

  lemma TriesAgain(total: real)
    requires total > 0.0
    ensures Enabled(TryFailed(total), RetryEvents()[2])
    ensures var w := Next(TryFailed(total), RetryEvents()[2]);
            w.exec.status == Running && w.exec.retries == 1 && |w.exec.orders| == 2
  {
    SumZero(Works(TryFailed(total).exec.orders));
  }

  /** A run out of retries keeps going: no retries are allowed, the only order fails, and the
      executor is still RUNNING and submits again. */
  lemma RetriesRunOn(total: real) returns (cfg: Config, w: World)
    requires total > 0.0
    ensures Reaches(cfg, RetryEvents(), w) && cfg.total == total
    ensures w.exec.status == Running && w.exec.retries > cfg.maxRetries && |w.exec.orders| == 2
  {
    hide Enabled, Next, FirstTry, TryFailed;
    TriesOnce(total);
    TryFails(total);
    TriesAgain(total);
    cfg := NoRetries(total).exec.cfg;
    w := Next(TryFailed(total), RetryEvents()[2]);
    RunOfThree(NoRetries(total), RetryEvents(), FirstTry(total), TryFailed(total), w);
    assert total / total == 1.0;
    assert BuildChildren(total, total).value == [FreshChild(total)];
    assert StartOf(cfg, 0.0, NoRetries(total));
  }
}
