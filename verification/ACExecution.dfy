/**
 The Almgren-Chriss executor as a transition system: the volume schedule resolved on the
 first tick, slices sent at a fixed pace, and failed slices rewound and retried.

 An order id is its position in submission order; other ids belong to other executors.
 */
module ACExecution {
  import opened Common
  import opened ACMath
  import VolumeForecast
  import PA = PassiveAggressive

  const MAX_INTERVALS := 200
  const MIN_INTERVAL_SECONDS := 1.0

  type OrderId = int

  datatype Config = Config(params: Params, opening: bool, volumeForecast: bool, maxRetries: int)

  // What the connector currently shows of an order.
  datatype OrderView = OrderView(done: bool, executed: real)

  // `orders` holds the amount of every order sent; `submitted` the ids not known to have failed.
  datatype State = State(
    cfg: Config, schedule: seq<real>, interval: real, resolved: bool, idx: nat,
    submitted: seq<OrderId>, failed: seq<OrderId>, orders: seq<real>, filled: real,
    started: Option<real>, lastSlice: Option<real>, retries: int,
    status: PA.RunStatus, closeType: Option<PA.CloseType>)

  predicate ValidConfig(cfg: Config) {
    && cfg.opening
    && 1 <= cfg.params.intervals <= MAX_INTERVALS
    && cfg.params.duration > 0.0
    && Tau(cfg.params) >= MIN_INTERVAL_SECONDS
  }

  // Seconds from one slice to the next.
  function IntervalFor(duration: real, schedule: seq<real>): real
    requires schedule != []
  {
    duration / |schedule| as real
  }

  function Create(f: Elementary, cfg: Config): Result<State>
    requires Lawful(f)
  {
    if !ValidConfig(cfg) then Failure("invalid configuration")
    else
      var built := BuildSchedule(f, cfg.params, None);
      if built.Failure? then Failure(built.error)
      else if built.value == [] then Failure("division by zero")
      else
        Success(State(cfg, built.value, IntervalFor(cfg.params.duration, built.value), !cfg.volumeForecast, 0,
                      [], [], [], 0.0, None, None, 0, PA.Running, None))
  }

  // ---- Volume time ------------------------------------------------------------------------

  // Cumulative shares of the volume; the last is 1 by assignment.
  function Fractions(volumes: seq<real>): seq<real>
    requires Sum(volumes) > 0.0
  {
    seq(|volumes| + 1, k requires 0 <= k <= |volumes| =>
      if k == |volumes| then 1.0 else Sum(volumes[..k]) / Sum(volumes))
  }

  // Replaces the clock-time schedule once; any failure keeps it.
  function Resolve(f: Elementary, s: State, candles: Option<seq<VolumeForecast.Candle>>, wall: int): State
    requires Lawful(f)
  {
    if s.resolved then s
    else
      var volumes := VolumeForecast.Forecast(candles, |s.schedule|, s.interval, wall);
      Rescheduled(f, s.(resolved := true), volumes)
  }

  function Rescheduled(f: Elementary, s: State, volumes: Result<seq<real>>): State
    requires Lawful(f)
  {
    if volumes.Failure? || Sum(volumes.value) <= 0.0 then s
    else
      var built := BuildSchedule(f, s.cfg.params, Some(Fractions(volumes.value)));
      if built.Failure? then s
      else if built.value == [] then s.(schedule := [])
      else s.(schedule := built.value, interval := IntervalFor(s.cfg.params.duration, built.value))
  }

  // ---- Slices --------------------------------------------------------------------------------

  // Execution the connector shows on orders that are not done.
  function LiveExecuted(ids: seq<OrderId>, view: OrderId -> OrderView): real {
    if ids == [] then 0.0
    else
      var v := view(ids[|ids| - 1]);
      LiveExecuted(ids[..|ids| - 1], view) + if v.done then 0.0 else v.executed
  }

  predicate AllDone(s: State, view: OrderId -> OrderView) {
    s.idx >= |s.schedule| && forall i :: 0 <= i < |s.submitted| ==> view(s.submitted[i]).done
  }

  function Place(s: State, now: real, amount: real): State {
    s.(orders := s.orders + [amount], submitted := s.submitted + [|s.orders|],
       lastSlice := Some(now), idx := s.idx + 1)
  }

  // The last slice is whatever is not yet filled or executing.
  function SubmitNextSlice(s: State, now: real, view: OrderId -> OrderView): State {
    if s.idx >= |s.schedule| then s
    else if s.idx == |s.schedule| - 1 then
      var amount := s.cfg.params.total - s.filled - LiveExecuted(s.submitted, view);
      if amount <= 0.0 then s.(idx := s.idx + 1) else Place(s, now, amount)
    else Place(s, now, s.schedule[s.idx])
  }

  function FinalCloseType(s: State): PA.CloseType {
    if s.retries > s.cfg.maxRetries then PA.Failed
    else if s.filled >= s.cfg.params.total then PA.Completed
    else PA.TimeLimit
  }

  function CloseBy(s: State, closeType: PA.CloseType): State {
    s.(closeType := Some(closeType), status := PA.Terminated)
  }

  predicate TooSoon(s: State, now: real) {
    s.lastSlice.Some? && now - s.lastSlice.value < s.interval
  }

  // The first tick resolves the schedule and starts the clock.
  function Begun(f: Elementary, s: State, now: real, candles: Option<seq<VolumeForecast.Candle>>, wall: int): State
    requires Lawful(f)
  {
    var r := Resolve(f, s, candles, wall);
    if r.started.None? then r.(started := Some(now)) else r
  }

  function Tick(f: Elementary, before: State, now: real, candles: Option<seq<VolumeForecast.Candle>>, wall: int,
                view: OrderId -> OrderView): State
    requires Lawful(f)
  {
    Ticked(Begun(f, before, now, candles, wall), now, view)
  }

  function Ticked(s: State, now: real, view: OrderId -> OrderView): State {
    if s.idx >= |s.schedule| then
      if AllDone(s, view) then CloseBy(s, FinalCloseType(s)) else s
    else if TooSoon(s, now) then s
    else SubmitNextSlice(s, now, view)
  }

  function Control(f: Elementary, s: State, now: real, candles: Option<seq<VolumeForecast.Candle>>, wall: int,
                   view: OrderId -> OrderView): State
    requires Lawful(f)
  {
    if s.status.Running? then Tick(f, s, now, candles, wall, view)
    else if s.status.ShuttingDown? then
      CloseBy(s, if s.closeType.Some? then s.closeType.value else FinalCloseType(s))
    else s
  }

  // ---- Order events ------------------------------------------------------------------------------

  function OnCompleted(s: State, id: OrderId, executed: real, view: OrderId -> OrderView): State {
    if id !in s.submitted then s
    else
      var t := s.(filled := s.filled + executed);
      if AllDone(t, view) then t.(status := PA.ShuttingDown) else t
  }

  function Without(ids: seq<OrderId>, id: OrderId): seq<OrderId> {
    if ids == [] then []
    else if ids[0] == id then ids[1..]
    else [ids[0]] + Without(ids[1..], id)
  }

  // The slice index steps back, so that the slice is sent again.
  function OnFailed(s: State, id: OrderId): State {
    if id !in s.submitted then s
    else
      s.(failed := s.failed + [id], submitted := Without(s.submitted, id),
         idx := if s.idx > 0 then s.idx - 1 else 0, retries := s.retries + 1)
  }

  function Stop(s: State, keepPosition: bool): State {
    s.(closeType := Some(if keepPosition then PA.PositionHold else PA.EarlyStop), status := PA.ShuttingDown)
  }
}
