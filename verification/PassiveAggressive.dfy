/**
 The passive-aggressive executor as a transition system: what each timer tick and
 each venue event does to the child slots, the order ledger and the run status.

 An order id is its position in submission order, so ids are fresh by construction;
 a negative id belongs to some other executor on the same connector.
 */
module PassiveAggressive {
  import opened Common

  const MAX_CHILDREN := 200

  type OrderId = int
  type TradeId = int

  datatype Config = Config(
    total: real, childQuantity: real, timeLimit: real, refreshTime: real,
    closing: bool, maxRetries: int)

  datatype ChildStatus = Idle | Active | Canceling | Aggressive | Done | Skipped

  datatype CancelReason = NoReason | Refresh | CycleExpired

  datatype Child = Child(
    target: real, status: ChildStatus, tracked: Option<OrderId>, filled: real,
    cycleStart: Option<real>, refreshStart: Option<real>, retryAt: Option<real>,
    cancelReason: CancelReason)

  datatype Record = Record(
    child: nat, amount: real, fillSum: real, reported: real, credited: real,
    tradeIds: set<TradeId>, terminal: bool)

  datatype OrderKind = Limit(price: real) | Market

  datatype RunStatus = Running | ShuttingDown | Terminated

  datatype CloseType = TimeLimit | EarlyStop | PositionHold | Failed | Completed

  // `sent` and `cancels` are what the venue has been asked to do: the kind of each
  // submitted order, and the orders a cancel request was sent for.
  datatype State = State(
    cfg: Config, children: seq<Child>, idx: nat, filled: real, orders: seq<Record>,
    retries: int, status: RunStatus, closeType: Option<CloseType>,
    lastSweep: Option<real>, sent: seq<OrderKind>, cancels: set<OrderId>)

  // ---- Setup ----------------------------------------------------------------

  function FreshChild(target: real): Child {
    Child(target, Idle, None, 0.0, None, None, None, NoReason)
  }

  // Decimal `//` truncates toward zero.
  function Quotient(q: real, d: real): int
    requires d > 0.0
  {
    if q >= 0.0 then (q / d).Floor else -((-q / d).Floor)
  }

  function BuildChildren(total: real, childQuantity: real): Result<seq<Child>> {
    if childQuantity <= 0.0 then Failure("child_order_quantity must be positive")
    else
      var n := Quotient(total, childQuantity);
      if n > MAX_CHILDREN then Failure("too many children")
      else
        var remainder := total - n as real * childQuantity;
        var slots := seq(if n > 0 then n else 0, _ => FreshChild(childQuantity));
        if remainder <= 0.0 then Success(slots)
        else if slots == [] then Success([FreshChild(remainder)])
        else
          var last := |slots| - 1;
          Success(slots[last := slots[last].(target := slots[last].target + remainder)])
  }

  function Initial(cfg: Config, children: seq<Child>): State {
    State(cfg, children, 0, 0.0, [], 0, Running, None, None, [], {})
  }

  // ---- Ledger queries -------------------------------------------------------

  function Work(r: Record): real {
    if r.terminal then 0.0 else Max(r.amount - r.credited, 0.0)
  }

  function Works(orders: seq<Record>): seq<real> {
    seq(|orders|, i requires 0 <= i < |orders| => Work(orders[i]))
  }

  function Outstanding(orders: seq<Record>): real { Sum(Works(orders)) }

  function Residual(s: State, c: nat): real
    requires c < |s.children|
  {
    Min(s.children[c].target - s.children[c].filled, s.cfg.total - s.filled)
  }

  function Room(s: State, c: nat): real
    requires c < |s.children|
  {
    Residual(s, c) - Outstanding(s.orders)
  }

  predicate Known(s: State, id: OrderId) { 0 <= id < |s.orders| }

  // Lifecycle transitions belong to a child's current order only.
  predicate Tracks(s: State, id: OrderId) {
    Known(s, id)
    && s.orders[id].child < |s.children|
    && s.children[s.orders[id].child].tracked == Some(id)
  }

  function FinalCloseType(s: State): CloseType {
    if s.retries > s.cfg.maxRetries then Failed
    else if s.filled >= s.cfg.total then Completed
    else TimeLimit
  }

  // ---- Order helpers --------------------------------------------------------

  function SetChild(s: State, c: nat, ch: Child): State
    requires c < |s.children|
  {
    s.(children := s.children[c := ch])
  }

  function Close(s: State, closeType: CloseType): State {
    s.(closeType := Some(closeType), status := Terminated)
  }

  function Submit(s: State, c: nat, kind: OrderKind, amount: real): State
    requires c < |s.children|
  {
    SetChild(s, c, s.children[c].(tracked := Some(|s.orders|)))
    .(orders := s.orders + [Record(c, amount, 0.0, 0.0, 0.0, {}, false)],
      sent := s.sent + [kind])
  }

  // `price` is None when the book has no finite price.
  function PlaceLimit(s: State, c: nat, now: real, price: Option<real>): State
    requires c < |s.children|
  {
    if !(price.Some? && price.value > 0.0) then
      SetChild(s, c, s.children[c].(retryAt := Some(now + 1.0)))
    else if Room(s, c) <= 0.0 then
      SetChild(s, c, s.children[c].(status := Done))
    else
      var s1 := Submit(s, c, Limit(price.value), Room(s, c));
      SetChild(s1, c, s1.children[c].(status := Active, refreshStart := Some(now)))
  }

  function PlaceAggressive(s: State, c: nat): State
    requires c < |s.children|
  {
    var s0 := SetChild(s, c, s.children[c].(status := Idle));
    if s0.status != Running then s0
    else if Room(s0, c) <= 0.0 then
      SetChild(s0, c, s0.children[c].(status := Done))
    else
      var s1 := Submit(s0, c, Market, Room(s0, c));
      SetChild(s1, c, s1.children[c].(status := Aggressive))
  }

  function CancelChild(s: State, c: nat, reason: CancelReason): State
    requires c < |s.children|
  {
    var ch := s.children[c];
    if ch.tracked.None? then s
    else SetChild(s, c, ch.(cancelReason := reason, status := Canceling))
         .(cancels := s.cancels + {ch.tracked.value})
  }

  function OpenIds(orders: seq<Record>): set<OrderId> {
    set i | 0 <= i < |orders| && !orders[i].terminal
  }

  function CancelAllOpen(s: State, now: real): State {
    s.(lastSweep := Some(now), cancels := s.cancels + OpenIds(s.orders))
  }

  function Credit(s: State, id: OrderId): State
    requires Known(s, id) && s.orders[id].child < |s.children|
  {
    var r := s.orders[id];
    var delta := Max(r.fillSum, r.reported) - r.credited;
    if delta <= 0.0 then s
    else
      var ch := s.children[r.child];
      s.(orders := s.orders[id := r.(credited := r.credited + delta)],
         children := s.children[r.child := ch.(filled := ch.filled + delta)],
         filled := s.filled + delta)
  }

  // ---- Timer ----------------------------------------------------------------

  predicate Finished(status: ChildStatus) { status.Done? || status.Skipped? }

  function FirstUnfinished(children: seq<Child>, from: nat): (k: nat)
    requires from <= |children|
    ensures from <= k <= |children|
    ensures forall c :: from <= c < k ==> Finished(children[c].status)
    ensures k < |children| ==> !Finished(children[k].status)
    decreases |children| - from
  {
    if from < |children| && Finished(children[from].status)
    then FirstUnfinished(children, from + 1) else from
  }

  function StepChild(s: State, c: nat, now: real, price: Option<real>): State
    requires c < |s.children| && s.children[c].cycleStart.Some?
  {
    var ch := s.children[c];
    var expired := now - ch.cycleStart.value >= s.cfg.timeLimit;
    match ch.status
    case Idle =>
      if expired then SetChild(s, c, ch.(status := Skipped))
      else if ch.retryAt.Some? && now < ch.retryAt.value then s
      else PlaceLimit(SetChild(s, c, ch.(retryAt := None)), c, now, price)
    case Active =>
      if expired then CancelChild(s, c, CycleExpired)
      else if ch.refreshStart.Some? && now - ch.refreshStart.value >= s.cfg.refreshTime
      then CancelChild(s, c, Refresh)
      else s
    case _ => s
  }

  function StartCycle(ch: Child, now: real): Child {
    if ch.cycleStart.None? then ch.(cycleStart := Some(now)) else ch
  }

  function Step(s: State, now: real, price: Option<real>): State
    requires s.idx <= |s.children|
  {
    var s0 := s.(idx := FirstUnfinished(s.children, s.idx));
    if s0.idx == |s0.children| then
      if Outstanding(s0.orders) != 0.0 then s0 else Close(s0, FinalCloseType(s0))
    else
      StepChild(SetChild(s0, s0.idx, StartCycle(s0.children[s0.idx], now)), s0.idx, now, price)
  }

  function Drain(s: State, now: real): State {
    if Outstanding(s.orders) != 0.0 then
      if s.lastSweep.None? || now - s.lastSweep.value >= s.cfg.refreshTime
      then CancelAllOpen(s, now) else s
    else
      Close(s, if s.closeType.Some? then s.closeType.value else FinalCloseType(s))
  }

  function Tick(s: State, now: real, price: Option<real>): State
    requires s.idx <= |s.children|
  {
    match s.status
    case Running => Step(s, now, price)
    case ShuttingDown => Drain(s, now)
    case Terminated => s
  }

  // ---- Venue events ---------------------------------------------------------

  function Reconcile(s: State, id: OrderId): State
    requires s.idx <= |s.children|
  {
    if s.idx < |s.children| && s.children[s.idx].status == Active
       && !Tracks(s, id) && Room(s, s.idx) < 0.0
    then CancelChild(s, s.idx, Refresh) else s
  }

  predicate WellIndexed(s: State) {
    s.idx <= |s.children|
    && forall i :: 0 <= i < |s.orders| ==> s.orders[i].child < |s.children|
  }

  predicate Replayed(s: State, id: OrderId, trade: Option<TradeId>) {
    Known(s, id) && trade.Some? && trade.value in s.orders[id].tradeIds
  }

  function OnFilled(s: State, id: OrderId, trade: Option<TradeId>, amount: real): State
    requires WellIndexed(s)
  {
    if !Known(s, id) || Replayed(s, id, trade) then s
    else
      var r := s.orders[id];
      var ids := if trade.Some? then r.tradeIds + {trade.value} else r.tradeIds;
      var r1 := r.(tradeIds := ids, fillSum := r.fillSum + amount);
      Reconcile(Credit(s.(orders := s.orders[id := r1]), id), id)
  }

  function EndOrder(s: State, id: OrderId): State
    requires Known(s, id)
  {
    s.(orders := s.orders[id := s.orders[id].(terminal := true)])
  }

  function OnCompleted(s: State, id: OrderId, amount: real): State
    requires WellIndexed(s)
  {
    if !Known(s, id) then s
    else
      var r := s.orders[id].(terminal := true, reported := Max(s.orders[id].reported, amount));
      var s1 := Credit(s.(orders := s.orders[id := r]), id);
      if !Tracks(s1, id) then s1
      else SetChild(s1, r.child, s1.children[r.child].(status := Done))
  }

  function OnCanceled(s: State, id: OrderId): State
    requires WellIndexed(s)
  {
    if !Known(s, id) then s
    else
      var s1 := EndOrder(s, id);
      var c := s1.orders[id].child;
      if !Tracks(s1, id) then s1
      else
        var ch := s1.children[c].(tracked := None);
        if ch.cancelReason.CycleExpired? && s.cfg.closing then PlaceAggressive(SetChild(s1, c, ch), c)
        else if ch.cancelReason.CycleExpired? then SetChild(s1, c, ch.(status := Skipped))
        else SetChild(s1, c, ch.(status := Idle))
  }

  function RetryDelay(cfg: Config, retries: int): real {
    var k := if retries < 4 then retries else 4;
    Min(if k == 1 then 2.0 else if k == 2 then 4.0 else if k == 3 then 8.0 else 16.0,
        cfg.refreshTime)
  }

  // `satisfied` is the venue's "reduce only order would increase position" rejection.
  function OnFailed(s: State, id: OrderId, now: real, satisfied: bool): State
    requires WellIndexed(s)
  {
    if !Known(s, id) then s
    else
      var s1 := EndOrder(s, id);
      var c := s1.orders[id].child;
      if !Tracks(s1, id) then s1
      else
        var ch := s1.children[c].(tracked := None);
        if s.cfg.closing && satisfied then
          Close(SetChild(s1, c, ch.(status := Skipped)), EarlyStop)
        else
          var s2 := SetChild(s1, c, ch.(
              status := Idle, retryAt := Some(now + RetryDelay(s.cfg, s.retries + 1))))
            .(retries := s.retries + 1);
          if ch.status == Aggressive && s.status == Running && s2.retries <= s.cfg.maxRetries
          then PlaceAggressive(s2, c) else s2
  }

  function Stop(s: State, now: real, keepPosition: bool): State {
    CancelAllOpen(s, now).(
      closeType := Some(if keepPosition then PositionHold else EarlyStop),
      status := ShuttingDown)
  }
}
