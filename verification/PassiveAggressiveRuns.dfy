/**
 Runs of the passive-aggressive executor: timer ticks interleaved with venue events in
 any order, under the stated environment, and the invariant every such run keeps.
 */
module PassiveAggressiveRuns {
  import opened Common
  import opened PassiveAggressive

  datatype Event =
    | Timer(now: real, price: Option<real>)
    | Filled(id: OrderId, trade: Option<TradeId>, amount: real)
    | OrderCompleted(id: OrderId, amount: real)
    | OrderCanceled(id: OrderId)
    | OrderFailed(id: OrderId, now: real, satisfied: bool)
    | StopRequest(now: real, keepPosition: bool)

  datatype Ending = ByCompletion | ByCancel | ByFailure

  /** The executor together with what an observer of the venue knows: how each order
      ended first, the clock, and the credit that landed on already-ended orders (in all,
      per child, and since the newest submission). */
  datatype World = World(
    exec: State, ended: map<OrderId, Ending>, clock: real,
    late: real, childLate: seq<real>, lateSinceSubmit: real)

  function Apply(s: State, e: Event): State
    requires WellIndexed(s)
  {
    match e
    case Timer(now, price) => Tick(s, now, price)
    case Filled(id, trade, amount) => OnFilled(s, id, trade, amount)
    case OrderCompleted(id, amount) => OnCompleted(s, id, amount)
    case OrderCanceled(id) => OnCanceled(s, id)
    case OrderFailed(id, now, satisfied) => OnFailed(s, id, now, satisfied)
    case StopRequest(now, keep) => Stop(s, now, keep)
  }

  predicate HasOrder(e: Event) { e.Filled? || e.OrderCompleted? || e.OrderCanceled? || e.OrderFailed? }

  predicate HasTime(e: Event) { e.Timer? || e.OrderFailed? || e.StopRequest? }

  function EndingOf(e: Event): Ending {
    if e.OrderCompleted? then ByCompletion else if e.OrderCanceled? then ByCancel else ByFailure
  }

  // Credit an event adds to an order that had already ended.
  function LateCredit(s: State, e: Event): real
    requires WellIndexed(s)
  {
    if HasOrder(e) && Known(s, e.id) && s.orders[e.id].terminal
    then Apply(s, e).filled - s.filled else 0.0
  }

  function NextEnded(w: World, e: Event): map<OrderId, Ending> {
    if HasOrder(e) && !e.Filled? && Known(w.exec, e.id) && e.id !in w.ended
    then w.ended[e.id := EndingOf(e)] else w.ended
  }

  function NextChildLate(w: World, e: Event): seq<real>
    requires WellIndexed(w.exec)
  {
    if HasOrder(e) && Known(w.exec, e.id) && w.exec.orders[e.id].child < |w.childLate| then
      var c := w.exec.orders[e.id].child;
      w.childLate[c := w.childLate[c] + LateCredit(w.exec, e)]
    else w.childLate
  }

  function Next(w: World, e: Event): World
    requires WellIndexed(w.exec)
  {
    var s := Apply(w.exec, e);
    var credit := LateCredit(w.exec, e);
    World(s, NextEnded(w, e), if HasTime(e) then e.now else w.clock,
          w.late + credit, NextChildLate(w, e),
          if |s.orders| > |w.exec.orders| then 0.0 else w.lateSinceSubmit + credit)
  }

  /** The environment. An order is not reported before it exists; time does not run
      backwards; amounts are non-negative and an order never executes more than it was
      submitted for; a completed order is neither cancelled nor failed afterwards and its
      fills stay within the completion; an ended order's completion adds no execution. */
  predicate Legal(w: World, e: Event) {
    var s := w.exec;
    && (HasTime(e) ==> e.now >= w.clock)
    && (HasOrder(e) ==> e.id < |s.orders|)
    && (HasOrder(e) && Known(s, e.id) ==>
          var r := s.orders[e.id];
          match e
          case Filled(_, trade, amount) =>
            Replayed(s, e.id, trade)
            || (amount >= 0.0 && r.fillSum + amount <= r.amount
                && (e.id in w.ended && w.ended[e.id] == ByCompletion ==>
                      r.fillSum + amount <= r.reported))
          case OrderCompleted(_, amount) =>
            0.0 <= amount <= r.amount
            && (if e.id in w.ended then amount <= r.credited else r.fillSum <= amount)
          case _ => !(e.id in w.ended && w.ended[e.id] == ByCompletion))
  }

  // Records always name existing children; every reachable state is well indexed.
  predicate Enabled(w: World, e: Event) { WellIndexed(w.exec) && Legal(w, e) }

  function Start(cfg: Config, children: seq<Child>, clock: real): World {
    World(Initial(cfg, children), map[], clock, 0.0, seq(|children|, _ => 0.0), 0.0)
  }

  ghost predicate LegalRun(w: World, es: seq<Event>)
    decreases |es|
  {
    es == [] || (Enabled(w, es[0]) && LegalRun(Next(w, es[0]), es[1..]))
  }

  ghost function RunOf(w: World, es: seq<Event>): World
    requires LegalRun(w, es)
    decreases |es|
  {
    if es == [] then w else RunOf(Next(w, es[0]), es[1..])
  }

  // ---- The invariant --------------------------------------------------------

  predicate Working(status: ChildStatus) { status.Active? || status.Canceling? || status.Aggressive? }

  predicate ChildOk(s: State, ended: map<OrderId, Ending>, c: nat)
    requires c < |s.children|
  {
    var ch := s.children[c];
    && ch.target > 0.0
    && (c < s.idx ==> Finished(ch.status))
    && (c > s.idx ==> ch == FreshChild(ch.target))
    && (Working(ch.status) ==> c == s.idx && |s.orders| > 0 && ch.tracked == Some(|s.orders| - 1)
                               && s.orders[|s.orders| - 1].child == c
                               && !s.orders[|s.orders| - 1].terminal)
    && (ch.status.Idle? || ch.status.Skipped? ==> ch.tracked.None?)
    && (ch.status.Done? && ch.tracked.Some? ==>
          Known(s, ch.tracked.value) && s.orders[ch.tracked.value].child == c
          && ch.tracked.value in ended && ended[ch.tracked.value] == ByCompletion)
  }

  predicate RecordOk(r: Record) {
    && 0.0 <= r.fillSum <= r.amount && 0.0 <= r.reported <= r.amount && 0.0 < r.amount
    && r.credited == Max(r.fillSum, r.reported)
  }

  predicate OrderOk(s: State, ended: map<OrderId, Ending>, i: nat)
    requires i < |s.orders|
  {
    var r := s.orders[i];
    && RecordOk(r)
    && r.child < |s.children| && r.child <= s.idx
    && (r.terminal <==> i in ended)
    && (i in ended && ended[i] == ByCompletion ==> r.fillSum <= r.reported)
    && (!r.terminal ==> i == |s.orders| - 1 && Working(s.children[r.child].status))
  }

  ghost predicate Shape(s: State, ended: map<OrderId, Ending>) {
    && s.idx <= |s.children| && |s.sent| == |s.orders|
    && s.retries >= 0
    && (forall id :: id in ended ==> Known(s, id))
    && (forall c: nat :: c < |s.children| ==> ChildOk(s, ended, c))
    && (forall i: nat :: i < |s.orders| ==> OrderOk(s, ended, i))
  }

  // What the newest order may still execute; every earlier order has ended.
  function NewestWork(s: State): real {
    if s.orders == [] then 0.0 else Work(s.orders[|s.orders| - 1])
  }

  lemma OutstandingIsNewest(s: State)
    requires forall i :: 0 <= i < |s.orders| - 1 ==> s.orders[i].terminal
    ensures Outstanding(s.orders) == NewestWork(s)
  {
    var ws := Works(s.orders);
    if ws != [] {
      SumZero(ws[..|ws| - 1]);
    }
  }

  // ---- Shape is kept by every event -----------------------------------------

  lemma NoneOpen(s: State, ended: map<OrderId, Ending>)
    requires Shape(s, ended)
    requires s.idx < |s.children| ==> !Working(s.children[s.idx].status)
    ensures forall i: nat :: i < |s.orders| ==> s.orders[i].terminal
    ensures Outstanding(s.orders) == 0.0
  {
    forall i: nat | i < |s.orders| ensures s.orders[i].terminal {
      assert OrderOk(s, ended, i);
      assert ChildOk(s, ended, s.orders[i].child);
    }
    OutstandingIsNewest(s);
  }

  lemma ShapeOutstanding(s: State, ended: map<OrderId, Ending>)
    requires Shape(s, ended)
    ensures Outstanding(s.orders) == NewestWork(s)
  {
    forall i: nat | i < |s.orders| - 1 ensures s.orders[i].terminal { assert OrderOk(s, ended, i); }
    OutstandingIsNewest(s);
  }

  // Replacing the current child keeps the shape when no order was working for it, or
  // when it keeps working on the same order.
  lemma SetChildShape(s: State, ended: map<OrderId, Ending>, ch: Child)
    requires Shape(s, ended) && s.idx < |s.children|
    requires ch.target == s.children[s.idx].target
    requires ChildOk(SetChild(s, s.idx, ch), ended, s.idx)
    requires Working(s.children[s.idx].status) ==> Working(ch.status)
    ensures Shape(SetChild(s, s.idx, ch), ended)
  {
    var t := SetChild(s, s.idx, ch);
    forall c: nat | c < |t.children| ensures ChildOk(t, ended, c) { assert ChildOk(s, ended, c); }
    forall i: nat | i < |t.orders| ensures OrderOk(t, ended, i) { assert OrderOk(s, ended, i); }
  }

  // A new order may be submitted only for the current child, when nothing is working.
  lemma SubmitShape(s: State, ended: map<OrderId, Ending>, kind: OrderKind, amount: real, ch: Child)
    requires Shape(s, ended) && s.idx < |s.children| && !Working(s.children[s.idx].status)
    requires amount > 0.0
    requires ch.target == s.children[s.idx].target && Working(ch.status) && ch.tracked == Some(|s.orders|)
    ensures Shape(SetChild(Submit(s, s.idx, kind, amount), s.idx, ch), ended)
  {
    var t := SetChild(Submit(s, s.idx, kind, amount), s.idx, ch);
    NoneOpen(s, ended);
    forall c: nat | c < |t.children| ensures ChildOk(t, ended, c) { assert ChildOk(s, ended, c); }
    forall i: nat | i < |t.orders| ensures OrderOk(t, ended, i) {
      if i < |s.orders| { assert OrderOk(s, ended, i); }
    }
  }

  lemma PlaceLimitShape(s: State, ended: map<OrderId, Ending>, now: real, price: Option<real>)
    requires Shape(s, ended) && s.idx < |s.children| && s.children[s.idx].status.Idle?
    ensures Shape(PlaceLimit(s, s.idx, now, price), ended)
  {
    var ch := s.children[s.idx];
    assert ChildOk(s, ended, s.idx);
    if !(price.Some? && price.value > 0.0) {
      SetChildShape(s, ended, ch.(retryAt := Some(now + 1.0)));
    } else if Room(s, s.idx) <= 0.0 {
      SetChildShape(s, ended, ch.(status := Done));
    } else {
      SubmitShape(s, ended, Limit(price.value), Room(s, s.idx),
                  ch.(tracked := Some(|s.orders|), status := Active, refreshStart := Some(now)));
    }
  }

  lemma PlaceAggressiveShape(s: State, ended: map<OrderId, Ending>)
    requires Shape(s, ended) && s.idx < |s.children|
    requires s.children[s.idx].status.Idle?
    ensures Shape(PlaceAggressive(s, s.idx), ended)
  {
    var ch := s.children[s.idx];
    assert ChildOk(s, ended, s.idx);
    assert SetChild(s, s.idx, ch.(status := Idle)) == s;
    if s.status == Running {
      if Room(s, s.idx) <= 0.0 {
        SetChildShape(s, ended, ch.(status := Done));
      } else {
        SubmitShape(s, ended, Market, Room(s, s.idx),
                    ch.(tracked := Some(|s.orders|), status := Aggressive));
      }
    }
  }

  lemma CancelChildShape(s: State, ended: map<OrderId, Ending>, reason: CancelReason)
    requires Shape(s, ended) && s.idx < |s.children| && Working(s.children[s.idx].status)
    ensures Shape(CancelChild(s, s.idx, reason), ended)
  {
    assert ChildOk(s, ended, s.idx);
    SetChildShape(s, ended, s.children[s.idx].(cancelReason := reason, status := Canceling));
    var t := SetChild(s, s.idx, s.children[s.idx].(cancelReason := reason, status := Canceling));
    SameShape(t, CancelChild(s, s.idx, reason), ended);
  }

  // Shape does not depend on the run status, the cancels sent, or the close type.
  lemma SameShape(s: State, t: State, ended: map<OrderId, Ending>)
    requires Shape(s, ended)
    requires t.children == s.children && t.orders == s.orders && t.idx == s.idx
    requires t.sent == s.sent && t.retries >= 0
    ensures Shape(t, ended)
  {
    forall c: nat | c < |t.children| ensures ChildOk(t, ended, c) { assert ChildOk(s, ended, c); }
    forall i: nat | i < |t.orders| ensures OrderOk(t, ended, i) { assert OrderOk(s, ended, i); }
  }

  lemma AdvanceShape(s: State, ended: map<OrderId, Ending>)
    requires Shape(s, ended)
    ensures Shape(s.(idx := FirstUnfinished(s.children, s.idx)), ended)
  {
    var t := s.(idx := FirstUnfinished(s.children, s.idx));
    forall c: nat | c < |t.children| ensures ChildOk(t, ended, c) { assert ChildOk(s, ended, c); }
    forall i: nat | i < |t.orders| ensures OrderOk(t, ended, i) { assert OrderOk(s, ended, i); }
  }

  lemma StepShape(s: State, ended: map<OrderId, Ending>, now: real, price: Option<real>)
    requires Shape(s, ended)
    ensures Shape(Step(s, now, price), ended)
  {
    AdvanceShape(s, ended);
    var s0 := s.(idx := FirstUnfinished(s.children, s.idx));
    if s0.idx == |s0.children| {
      SameShape(s0, Step(s, now, price), ended);
    } else {
      assert ChildOk(s0, ended, s0.idx);
      var ch := StartCycle(s0.children[s0.idx], now);
      SetChildShape(s0, ended, ch);
      var s1 := SetChild(s0, s0.idx, ch);
      assert ChildOk(s1, ended, s1.idx);
      if ch.status.Idle? {
        SetChildShape(s1, ended, ch.(status := Skipped));
        SetChildShape(s1, ended, ch.(retryAt := None));
        PlaceLimitShape(SetChild(s1, s1.idx, ch.(retryAt := None)), ended, now, price);
      } else if ch.status.Active? {
        CancelChildShape(s1, ended, CycleExpired);
        CancelChildShape(s1, ended, Refresh);
      }
    }
  }

  // ---- Ledger changes -------------------------------------------------------

  // Replace one order's record and pass the change of its credit on to its child and
  // to the total: the effect that every accounting event has.
  function Post(s: State, id: nat, r: Record): State
    requires id < |s.orders| && r.child < |s.children|
  {
    var delta := r.credited - s.orders[id].credited;
    var ch := s.children[r.child];
    s.(orders := s.orders[id := r], filled := s.filled + delta,
       children := s.children[r.child := ch.(filled := ch.filled + delta)])
  }

  function Settle(r: Record): Record { r.(credited := Max(r.fillSum, r.reported)) }

  lemma CreditIsPost(s: State, id: nat, r: Record)
    requires id < |s.orders| && r.child < |s.children| && r.credited == s.orders[id].credited
    requires r.credited <= Max(r.fillSum, r.reported)
    ensures Credit(s.(orders := s.orders[id := r]), id) == Post(s, id, Settle(r))
  {
    var t := s.(orders := s.orders[id := r]);
    var ch := s.children[r.child];
    assert ch.(filled := ch.filled + 0.0) == ch;
    assert s.children[r.child := ch] == s.children;
    assert t.orders[id := Settle(r)] == s.orders[id := Settle(r)];
  }

  lemma PostShape(s: State, ended: map<OrderId, Ending>, id: nat, r: Record)
    requires Shape(s, ended) && id < |s.orders|
    requires RecordOk(r) && r.child == s.orders[id].child && r.terminal == s.orders[id].terminal
    requires id in ended && ended[id] == ByCompletion ==> r.fillSum <= r.reported
    ensures r.child < |s.children| && Shape(Post(s, id, r), ended)
  {
    assert OrderOk(s, ended, id);
    var t := Post(s, id, r);
    forall c: nat | c < |t.children| ensures ChildOk(t, ended, c) { assert ChildOk(s, ended, c); }
    forall i: nat | i < |t.orders| ensures OrderOk(t, ended, i) { assert OrderOk(s, ended, i); }
  }

  // The tracked, still open order ends and its child stops working on it.
  lemma EndShape(s: State, ended: map<OrderId, Ending>, id: nat, r: Record, how: Ending, ch: Child)
    requires Shape(s, ended) && Tracks(s, id) && !s.orders[id].terminal
    requires RecordOk(r) && r.child == s.orders[id].child && r.terminal
    requires how == ByCompletion ==> r.fillSum <= r.reported
    requires s.idx < |s.children| && ch.target == s.children[s.idx].target
    requires if how == ByCompletion then ch.status.Done? && ch.tracked == Some(id)
             else !Working(ch.status) && ch.tracked == None
    ensures r.child == s.idx
    ensures Shape(SetChild(Post(s, id, r), s.idx, ch), ended[id := how])
  {
    assert OrderOk(s, ended, id);
    assert ChildOk(s, ended, r.child);
    var t := SetChild(Post(s, id, r), s.idx, ch);
    var ended' := ended[id := how];
    forall c: nat | c < |t.children| ensures ChildOk(t, ended', c) { assert ChildOk(s, ended, c); }
    forall i: nat | i < |t.orders| ensures OrderOk(t, ended', i) { assert OrderOk(s, ended, i); }
  }

  // A tracked order is either still open or completed; an untracked one has ended.
  // Crediting an order changes amounts only.
  lemma CreditFrame(s: State, id: OrderId)
    requires WellIndexed(s) && Known(s, id)
    ensures var u := Credit(s, id);
            && u.idx == s.idx && u.cfg == s.cfg && u.status == s.status && u.sent == s.sent && u.cancels == s.cancels
            && |u.children| == |s.children| && |u.orders| == |s.orders|
            && (forall i: nat :: i < |s.orders| ==>
                  u.orders[i].terminal == s.orders[i].terminal && u.orders[i].child == s.orders[i].child)
            && (forall c: nat :: c < |s.children| ==>
                  u.children[c] == s.children[c].(filled := u.children[c].filled))
  {
  }

  lemma TrackedOrder(s: State, ended: map<OrderId, Ending>, id: nat)
    requires Shape(s, ended) && id < |s.orders|
    ensures s.orders[id].child < |s.children|
    ensures !Tracks(s, id) ==> s.orders[id].terminal && id in ended
    ensures Tracks(s, id) && s.orders[id].terminal ==>
              id in ended && ended[id] == ByCompletion && s.children[s.orders[id].child].status.Done?
    ensures Tracks(s, id) && !s.orders[id].terminal ==>
              s.orders[id].child == s.idx && id == |s.orders| - 1 && Working(s.children[s.idx].status)
  {
    assert OrderOk(s, ended, id);
    assert ChildOk(s, ended, s.orders[id].child);
  }

  // Ending the working order leaves nothing outstanding.
  lemma EndedAll(s: State, ended: map<OrderId, Ending>, id: nat)
    requires Shape(s, ended) && id == |s.orders| - 1
    ensures Outstanding(EndOrder(s, id).orders) == 0.0
  {
    var t := EndOrder(s, id);
    forall i: nat | i < |t.orders| - 1 ensures t.orders[i].terminal { assert OrderOk(s, ended, i); }
    OutstandingIsNewest(t);
  }

  // ---- Venue events ---------------------------------------------------------

  lemma FilledShape(w: World, e: Event)
    requires Shape(w.exec, w.ended) && e.Filled? && Enabled(w, e)
    ensures Shape(Apply(w.exec, e), w.ended)
  {
    hide Outstanding;
    var s := w.exec;
    if Known(s, e.id) && !Replayed(s, e.id, e.trade) {
      assert OrderOk(s, w.ended, e.id);
      var r := FilledRecord(s.orders[e.id], e.trade, e.amount);
      CreditIsPost(s, e.id, r);
      PostShape(s, w.ended, e.id, Settle(r));
      var t := Post(s, e.id, Settle(r));
      if t.idx < |t.children| && t.children[t.idx].status == Active {
        CancelChildShape(t, w.ended, Refresh);
      }
    }
  }

  function FilledRecord(r: Record, trade: Option<TradeId>, amount: real): Record {
    r.(tradeIds := if trade.Some? then r.tradeIds + {trade.value} else r.tradeIds,
       fillSum := r.fillSum + amount)
  }

  function CompletedRecord(r: Record, amount: real): Record {
    r.(terminal := true, reported := Max(r.reported, amount))
  }

  lemma CompletedShape(w: World, e: Event)
    requires Shape(w.exec, w.ended) && e.OrderCompleted? && Enabled(w, e)
    ensures Shape(Apply(w.exec, e), NextEnded(w, e))
  {
    var s := w.exec;
    if Known(s, e.id) {
      assert OrderOk(s, w.ended, e.id);
      TrackedOrder(s, w.ended, e.id);
      var r := CompletedRecord(s.orders[e.id], e.amount);
      CreditIsPost(s, e.id, r);
      var t := Post(s, e.id, Settle(r));
      if s.orders[e.id].terminal {
        PostShape(s, w.ended, e.id, Settle(r));
        if Tracks(t, e.id) {
          assert SetChild(t, r.child, t.children[r.child].(status := Done)) == t;
        }
      } else {
        EndShape(s, w.ended, e.id, Settle(r), ByCompletion, t.children[s.idx].(status := Done));
      }
    }
  }

  // Ending an already ended order changes nothing.
  lemma EndAgain(s: State, id: nat)
    requires id < |s.orders| && s.orders[id].terminal
    ensures EndOrder(s, id) == s
  {
    assert s.orders[id := s.orders[id]] == s.orders;
  }

  lemma EndIsPost(s: State, id: nat, ch: Child)
    requires id < |s.orders| && s.orders[id].child < |s.children|
    ensures var r := s.orders[id].(terminal := true);
            SetChild(EndOrder(s, id), r.child, ch) == SetChild(Post(s, id, r), r.child, ch)
  {
  }

  lemma CanceledShape(w: World, e: Event)
    requires Shape(w.exec, w.ended) && e.OrderCanceled? && Enabled(w, e)
    ensures Shape(Apply(w.exec, e), NextEnded(w, e))
  {
    var s := w.exec;
    if Known(s, e.id) {
      assert OrderOk(s, w.ended, e.id);
      TrackedOrder(s, w.ended, e.id);
      if s.orders[e.id].terminal {
        EndAgain(s, e.id);
      } else {
        var ch := s.children[s.idx].(tracked := None);
        var how := if ch.cancelReason.CycleExpired? && !s.cfg.closing then Skipped else Idle;
        var end := ch.(status := how);
        EndIsPost(s, e.id, end);
        EndShape(s, w.ended, e.id, s.orders[e.id].(terminal := true), ByCancel, end);
        if ch.cancelReason.CycleExpired? && s.cfg.closing {
          var t := SetChild(EndOrder(s, e.id), s.idx, end);
          PlaceAggressiveShape(t, NextEnded(w, e));
          assert SetChild(SetChild(EndOrder(s, e.id), s.idx, ch), s.idx, end) == t;
          assert t.children[s.idx].(status := Idle) == end;
          assert SetChild(t, s.idx, end) == t;
        }
      }
    }
  }

  lemma FailedShape(w: World, e: Event)
    requires Shape(w.exec, w.ended) && e.OrderFailed? && Enabled(w, e)
    ensures Shape(Apply(w.exec, e), NextEnded(w, e))
  {
    hide Outstanding;
    var s := w.exec;
    if Known(s, e.id) {
      assert OrderOk(s, w.ended, e.id);
      TrackedOrder(s, w.ended, e.id);
      if s.orders[e.id].terminal {
        EndAgain(s, e.id);
      } else {
        OpenFailedShape(w, e);
      }
    }
  }

  function FailedChild(s: State, now: real, satisfied: bool): Child
    requires s.idx < |s.children|
  {
    var ch := s.children[s.idx].(tracked := None);
    if s.cfg.closing && satisfied then ch.(status := Skipped)
    else ch.(status := Idle, retryAt := Some(now + RetryDelay(s.cfg, s.retries + 1)))
  }

  lemma OpenFailedShape(w: World, e: Event)
    requires Shape(w.exec, w.ended) && e.OrderFailed? && Enabled(w, e)
    requires Known(w.exec, e.id) && Tracks(w.exec, e.id) && !w.exec.orders[e.id].terminal
    ensures Shape(Apply(w.exec, e), NextEnded(w, e))
  {
    FailedEndShape(w, e);
    hide Shape, PlaceAggressive, RetryDelay;
    var s := w.exec;
    var t := SetChild(EndOrder(s, e.id), s.idx, FailedChild(s, e.now, e.satisfied));
    if s.cfg.closing && e.satisfied {
      SameShape(t, Close(t, EarlyStop), NextEnded(w, e));
    } else {
      var t1 := t.(retries := s.retries + 1);
      SameShape(t, t1, NextEnded(w, e));
      PlaceAggressiveShape(t1, NextEnded(w, e));
    }
  }

  lemma FailedEndShape(w: World, e: Event)
    requires Shape(w.exec, w.ended) && e.OrderFailed? && Enabled(w, e)
    requires Known(w.exec, e.id) && Tracks(w.exec, e.id) && !w.exec.orders[e.id].terminal
    ensures var s := w.exec;
            && s.idx < |s.children| && s.orders[e.id].child == s.idx && e.id !in w.ended && s.retries >= 0
            && s.children[s.idx].target > 0.0
            && Shape(SetChild(EndOrder(s, e.id), s.idx, FailedChild(s, e.now, e.satisfied)), NextEnded(w, e))
  {
    hide Outstanding, RetryDelay;
    var s := w.exec;
    TrackedOrder(s, w.ended, e.id);
    assert OrderOk(s, w.ended, e.id);
    assert ChildOk(s, w.ended, s.idx);
    var end := FailedChild(s, e.now, e.satisfied);
    EndIsPost(s, e.id, end);
    EndShape(s, w.ended, e.id, s.orders[e.id].(terminal := true), ByFailure, end);
  }

  lemma NextShape(w: World, e: Event)
    requires Shape(w.exec, w.ended) && Enabled(w, e)
    ensures Shape(Next(w, e).exec, Next(w, e).ended) && WellIndexed(Next(w, e).exec)
  {
    match e {
      case Timer(now, price) =>
        if w.exec.status == Running { StepShape(w.exec, w.ended, now, price); }
        else { SameShape(w.exec, Tick(w.exec, now, price), w.ended); }
      case Filled(_, _, _) => FilledShape(w, e);
      case OrderCompleted(_, _) => CompletedShape(w, e);
      case OrderCanceled(_) => CanceledShape(w, e);
      case OrderFailed(_, _, _) => FailedShape(w, e);
      case StopRequest(now, keep) => SameShape(w.exec, Stop(w.exec, now, keep), w.ended);
    }
    ShapeIndexed(Next(w, e).exec, Next(w, e).ended);
  }

  lemma ShapeIndexed(s: State, ended: map<OrderId, Ending>)
    requires Shape(s, ended)
    ensures WellIndexed(s)
  {
    forall i: nat | i < |s.orders| ensures s.orders[i].child < |s.children| { assert OrderOk(s, ended, i); }
  }
}
