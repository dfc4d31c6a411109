/**
 Runs of the Almgren-Chriss executor: ticks interleaved with completions and failures, the
 invariant they keep, and what it says about exposure, pacing and outcome.
 */
module ACExecutionRuns {
  import opened Common
  import opened ACMath
  import opened ACShape
  import opened ACExecution
  import VolumeForecast
  import PA = PassiveAggressive

  // ---- The schedule stays sound, in clock time or volume time ---------------------------------

  lemma {:induction false} PrefixSums(volumes: seq<real>, k: nat)
    requires NonNegative(volumes) && k <= |volumes|
    ensures 0.0 <= Sum(volumes[..k]) <= Sum(volumes)
    decreases |volumes| - k
  {
    SumNonNegative(volumes[..k]);
    if k == |volumes| {
      assert volumes[..k] == volumes;
    } else {
      PrefixSums(volumes, k + 1);
      assert volumes[..k + 1] == volumes[..k] + [volumes[k]];
      SumAppend(volumes[..k], volumes[k]);
    }
  }

  /** Non-negative bucket volumes with a positive sum give fractions rising from 0 to 1. */
  lemma FractionsRise(volumes: seq<real>)
    requires NonNegative(volumes) && Sum(volumes) > 0.0
    ensures FullRise(Fractions(volumes))
  {
    var total := Sum(volumes);
    var fs := Fractions(volumes);
    forall j | 0 <= j < |volumes| ensures 0.0 <= fs[j] <= fs[j + 1] {
      ShareRises(volumes, j, total);
    }
    assert Sum(volumes[..0]) == 0.0;
    assert 0.0 / total == 0.0;
    assert volumes != [];
  }

  lemma ShareRises(volumes: seq<real>, j: nat, total: real)
    requires NonNegative(volumes) && Sum(volumes) == total > 0.0 && j < |volumes|
    ensures 0.0 <= Sum(volumes[..j]) / total <= Sum(volumes[..j + 1]) / total <= 1.0
  {
    var x, y := Sum(volumes[..j]), Sum(volumes[..j + 1]);
    PrefixSums(volumes, j);
    PrefixSums(volumes, j + 1);
    assert volumes[..j + 1] == volumes[..j] + [volumes[j]];
    SumAppend(volumes[..j], volumes[j]);
    hide Sum;
    DivMono(0.0, x, total);
    DivMono(x, y, total);
    DivMono(y, total, total);
    DivSelf(total);
    assert 0.0 / total == 0.0;
  }

  // One interval per slice fills the horizon exactly.
  ghost predicate Spans(interval: real, schedule: seq<real>, duration: real) {
    interval > 0.0 && interval * |schedule| as real == duration
  }

  ghost predicate SoundPlan(cfg: Config, schedule: seq<real>, interval: real) {
    && ValidConfig(cfg) && cfg.params.total > 0.0
    && schedule != [] && SoundSchedule(schedule, cfg.params)
    && Spans(interval, schedule, cfg.params.duration)
  }

  ghost predicate SoundState(s: State) { SoundPlan(s.cfg, s.schedule, s.interval) }

  lemma PaceSpans(duration: real, schedule: seq<real>)
    requires duration > 0.0 && schedule != []
    ensures Spans(IntervalFor(duration, schedule), schedule, duration)
  {
    var n := |schedule| as real;
    DivTimes(duration, n);
    SignOfProduct(duration / n, n);
    assert duration / n != 0.0;
  }

  /** An executor is created exactly for a valid configuration. It starts with the clock-time
      schedule, sound and evenly paced, and looks for a forecast exactly when it should. */
  lemma CreateSound(f: Elementary, cfg: Config)
    requires Lawful(f) && cfg.params.total > 0.0
    ensures Create(f, cfg).Success? <==> ValidConfig(cfg) && ValidParams(cfg.params)
    ensures Create(f, cfg).Success? ==>
              var s := Create(f, cfg).value;
              && SoundState(s) && s.cfg == cfg && Success(s.schedule) == BuildSchedule(f, cfg.params, None)
              && (s.resolved <==> !cfg.volumeForecast)
              && s.idx == 0 && s.orders == [] && s.filled == 0.0 && s.retries == 0 && s.status.Running?
  {
    ScheduleSound(f, cfg.params, None);
    hide BuildSchedule, SoundSchedule, IntervalFor, Spans, Tau;
    if Create(f, cfg).Success? {
      PaceSpans(cfg.params.duration, BuildSchedule(f, cfg.params, None).value);
    }
  }

  /** Whatever the forecast says, the schedule stays sound: fractions that are not a full
      rise from 0 to 1 are refused. */
  lemma RescheduledSound(f: Elementary, s: State, volumes: Result<seq<real>>)
    requires Lawful(f) && SoundState(s)
    ensures SoundState(Rescheduled(f, s, volumes))
  {
    if volumes.Success? && Sum(volumes.value) > 0.0 {
      var fs := Fractions(volumes.value);
      var built := BuildSchedule(f, s.cfg.params, Some(fs));
      if built.Success? {
        assert volumes.value != [];
        assert Sum(volumes.value[..0]) == 0.0;
        assert fs[0] == 0.0 / Sum(volumes.value) == 0.0;
        assert FullRise(fs);
        ScheduleSound(f, s.cfg.params, Some(fs));
        hide BuildSchedule, SoundSchedule, IntervalFor, Spans, Tau;
        PaceSpans(s.cfg.params.duration, built.value);
      }
    }
  }

  /** From candles with non-negative volumes the volume-time schedule is always adopted, and
      is sound. */
  lemma VolumeScheduleAdopted(f: Elementary, s: State, candles: Option<seq<VolumeForecast.Candle>>, wall: int)
    requires Lawful(f) && SoundState(s) && ValidParams(s.cfg.params) && !s.resolved
    requires candles.Some? ==> VolumeForecast.Traded(candles.value)
    ensures SoundState(Resolve(f, s, candles, wall))
    ensures var volumes := VolumeForecast.Forecast(candles, |s.schedule|, s.interval, wall);
            && volumes.Success? && Sum(volumes.value) > 0.0 && FullRise(Fractions(volumes.value))
            && Success(Resolve(f, s, candles, wall).schedule)
               == BuildSchedule(f, s.cfg.params, Some(Fractions(volumes.value)))
  {
    VolumeForecast.ForecastShape(candles, |s.schedule|, s.interval, wall);
    var volumes := VolumeForecast.Forecast(candles, |s.schedule|, s.interval, wall);
    FractionsRise(volumes.value);
    RescheduledSound(f, s.(resolved := true), volumes);
    ScheduleSound(f, s.cfg.params, Some(Fractions(volumes.value)));
  }

  // ---- Runs --------------------------------------------------------------------------------------

  datatype Event =
    | ControlTask(now: real, candles: Option<seq<VolumeForecast.Candle>>, wall: int, view: OrderId -> OrderView)
    | OrderCompleted(id: OrderId, executed: real, view: OrderId -> OrderView)
    | OrderFailed(id: OrderId)
    | StopRequest(keepPosition: bool)

  datatype Outcome = Working | Filled | Unfilled

  /** The executor with what an observer of the venue knows: how every order ended, when it
      was sent, whether a stop was requested, and what completions fell short of their orders.
      `drift` sums what was sent beyond the slices it stood for; `older` says that an order
      failed after a newer one was sent, `rushed` that the last slice was sent with something
      still in flight. */
  datatype World = World(
    exec: State, outcome: seq<Outcome>, times: seq<real>, clock: real, stopped: bool,
    shortfall: real, drift: real, older: bool, rushed: bool)

  function Apply(f: Elementary, s: State, e: Event): State
    requires Lawful(f)
  {
    match e
    case ControlTask(now, candles, wall, view) => Control(f, s, now, candles, wall, view)
    case OrderCompleted(id, executed, view) => OnCompleted(s, id, executed, view)
    case OrderFailed(id) => OnFailed(s, id)
    case StopRequest(keep) => Stop(s, keep)
  }

  predicate Tracked(w: World, id: OrderId) { 0 <= id < |w.outcome| && id < |w.exec.orders| }

  // What a control task that ends in state t sent beyond the slice it counts as sent.
  function Beyond(s: State, t: State): real {
    if s.idx < t.idx <= |t.schedule| then
      (if |t.orders| > |s.orders| then t.orders[|t.orders| - 1] else 0.0) - t.schedule[t.idx - 1]
    else 0.0
  }

  // The world after a control task that left the executor in state t.
  function Advance(w: World, t: State, now: real): World {
    var v := w.(exec := t, clock := now, drift := w.drift + Beyond(w.exec, t));
    if |t.orders| > |w.exec.orders| then
      v.(outcome := w.outcome + [Working], times := w.times + [now],
         rushed := w.rushed || (t.idx == |t.schedule| && !Settled(w.outcome)))
    else v
  }

  // A failure takes back the newest slice counted as sent, and the failed order's amount.
  function TakenBack(s: State, id: nat): real
    requires id < |s.orders|
  {
    (if 0 < s.idx <= |s.schedule| then s.schedule[s.idx - 1] else 0.0) - s.orders[id]
  }

  function Next(f: Elementary, w: World, e: Event): World
    requires Lawful(f)
  {
    var t := Apply(f, w.exec, e);
    match e
    case ControlTask(now, _, _, _) => Advance(w, t, now)
    case OrderCompleted(id, executed, _) =>
      if !Tracked(w, id) then w.(exec := t)
      else
        w.(exec := t, outcome := w.outcome[id := Filled],
           shortfall := w.shortfall + w.exec.orders[id] - executed)
    case OrderFailed(id) =>
      if !Tracked(w, id) then w.(exec := t)
      else
        w.(exec := t, outcome := w.outcome[id := Unfilled],
           drift := w.drift + TakenBack(w.exec, id), older := w.older || id != |w.outcome| - 1)
    case StopRequest(_) => w.(exec := t, stopped := true)
  }

  predicate Settled(outcome: seq<Outcome>) { forall i :: 0 <= i < |outcome| ==> !outcome[i].Working? }

  // The connector shows an order as done exactly from its completion on, and never shows
  // more executed than was sent.
  ghost predicate Honest(outcome: seq<Outcome>, orders: seq<real>, view: OrderId -> OrderView) {
    && |outcome| == |orders|
    && forall i :: 0 <= i < |outcome| ==>
         && (outcome[i].Filled? ==> view(i).done)
         && (outcome[i].Working? ==> !view(i).done && 0.0 <= view(i).executed <= orders[i])
  }

  /** The environment: time does not run backwards, and every order ends once, by a
      completion of at most its amount or by failing unfilled. */
  ghost predicate Legal(f: Elementary, w: World, e: Event)
    requires Lawful(f)
  {
    match e
    case ControlTask(now, _, _, view) => now >= w.clock && Honest(w.outcome, w.exec.orders, view)
    case OrderCompleted(id, executed, view) =>
      id < |w.outcome| && |w.outcome| == |w.exec.orders|
      && (0 <= id ==> w.outcome[id].Working? && 0.0 <= executed <= w.exec.orders[id]
                      && Honest(w.outcome[id := Filled], w.exec.orders, view))
    case OrderFailed(id) => id < |w.outcome| && (0 <= id ==> w.outcome[id].Working?)
    case StopRequest(_) => !w.exec.status.Terminated?
  }

  ghost predicate LegalRun(f: Elementary, w: World, es: seq<Event>)
    requires Lawful(f)
    decreases |es|
  {
    es == [] || (Legal(f, w, es[0]) && LegalRun(f, Next(f, w, es[0]), es[1..]))
  }

  ghost function RunOf(f: Elementary, w: World, es: seq<Event>): World
    requires Lawful(f)
    decreases |es|
  {
    if es == [] then w else RunOf(f, Next(f, w, es[0]), es[1..])
  }

  lemma {:induction false} RunConcat(f: Elementary, w: World, a: seq<Event>, b: seq<Event>)
    requires Lawful(f) && LegalRun(f, w, a) && LegalRun(f, RunOf(f, w, a), b)
    ensures LegalRun(f, w, a + b) && RunOf(f, w, a + b) == RunOf(f, RunOf(f, w, a), b)
    decreases |a|
  {
    hide Next, Legal;
    if a == [] {
      assert [] + b == b;
    } else {
      assert (a + b)[1..] == a[1..] + b;
      RunConcat(f, Next(f, w, a[0]), a[1..], b);
    }
  }

  lemma RunOne(f: Elementary, w: World, e: Event)
    requires Lawful(f) && Legal(f, w, e)
    ensures LegalRun(f, w, [e]) && RunOf(f, w, [e]) == Next(f, w, e)
  {
    hide Next, Legal;
    assert [e][1..] == [] && LegalRun(f, Next(f, w, e), []);
  }

  function Start(s: State, clock: real): World { World(s, [], [], clock, false, 0.0, 0.0, false, false) }

  // ---- Exposure --------------------------------------------------------------------------------------

  function InFlight(outcome: seq<Outcome>, orders: seq<real>): seq<real>
    requires |outcome| == |orders|
  {
    seq(|orders|, i requires 0 <= i < |orders| => if outcome[i].Working? then orders[i] else 0.0)
  }

  // Everything filled plus everything that may still fill.
  function Committed(w: World): real
    requires |w.outcome| == |w.exec.orders|
  {
    w.exec.filled + Sum(InFlight(w.outcome, w.exec.orders))
  }

  function Pending(outcome: seq<Outcome>): seq<OrderId> {
    if outcome == [] then []
    else
      var n := |outcome| - 1;
      Pending(outcome[..n]) + if outcome[n].Unfilled? then [] else [n]
  }

  lemma {:induction false} PendingIds(outcome: seq<Outcome>, id: OrderId)
    ensures id in Pending(outcome) <==> 0 <= id < |outcome| && !outcome[id].Unfilled?
  {
    if outcome != [] { PendingIds(outcome[..|outcome| - 1], id); }
  }

  lemma {:induction false} PendingUpdate(outcome: seq<Outcome>, id: nat)
    requires id < |outcome| && outcome[id].Working?
    ensures Pending(outcome[id := Filled]) == Pending(outcome)
  {
    var n := |outcome| - 1;
    if id < n {
      assert outcome[id := Filled][..n] == outcome[..n][id := Filled];
      PendingUpdate(outcome[..n], id);
    } else {
      assert outcome[id := Filled][..n] == outcome[..n];
    }
  }

  lemma {:induction false} WithoutPrefix(a: seq<OrderId>, b: seq<OrderId>, id: OrderId)
    ensures id in a ==> Without(a + b, id) == Without(a, id) + b && |Without(a, id)| == |a| - 1
    ensures id !in a ==> Without(a + b, id) == a + Without(b, id)
  {
    if a == [] {
      assert a + b == b;
    } else {
      assert (a + b)[1..] == a[1..] + b;
      WithoutPrefix(a[1..], b, id);
    }
  }

  lemma {:induction false} PendingFailed(outcome: seq<Outcome>, id: nat)
    requires id < |outcome| && outcome[id].Working?
    ensures Pending(outcome[id := Unfilled]) == Without(Pending(outcome), id)
    ensures |Pending(outcome[id := Unfilled])| == |Pending(outcome)| - 1
  {
    var n := |outcome| - 1;
    var before := Pending(outcome[..n]);
    PendingIds(outcome[..n], id);
    if id < n {
      assert outcome[id := Unfilled][..n] == outcome[..n][id := Unfilled];
      PendingFailed(outcome[..n], id);
      WithoutPrefix(before, if outcome[n].Unfilled? then [] else [n], id);
    } else {
      assert outcome[id := Unfilled][..n] == outcome[..n];
      WithoutPrefix(before, [n], id);
    }
  }

  lemma LiveAppend(ids: seq<OrderId>, id: OrderId, view: OrderId -> OrderView)
    ensures LiveExecuted(ids + [id], view) == LiveExecuted(ids, view) + if view(id).done then 0.0 else view(id).executed
  {
    assert (ids + [id])[..|ids|] == ids;
  }

  // What the connector shows executing is in flight, and nothing is when all orders ended.
  lemma {:induction false} LiveBounds(outcome: seq<Outcome>, orders: seq<real>, view: OrderId -> OrderView)
    requires Honest(outcome, orders, view)
    ensures LiveExecuted(Pending(outcome), view) <= Sum(InFlight(outcome, orders))
    ensures Settled(outcome) ==> LiveExecuted(Pending(outcome), view) == 0.0
  {
    if outcome != [] {
      var n := |outcome| - 1;
      assert InFlight(outcome, orders)[..n] == InFlight(outcome[..n], orders[..n]);
      LiveBounds(outcome[..n], orders[..n], view);
      var before := Pending(outcome[..n]);
      if outcome[n].Unfilled? {
        assert Pending(outcome) == before;
      } else {
        assert Pending(outcome) == before + [n];
        LiveAppend(before, n, view);
      }
      assert Settled(outcome) ==> forall i :: 0 <= i < n ==> !outcome[..n][i].Working?;
    }
  }

  lemma InFlightPlaced(outcome: seq<Outcome>, orders: seq<real>, amount: real)
    requires |outcome| == |orders|
    ensures Sum(InFlight(outcome + [Working], orders + [amount])) == Sum(InFlight(outcome, orders)) + amount
  {
    assert InFlight(outcome + [Working], orders + [amount]) == InFlight(outcome, orders) + [amount];
    SumAppend(InFlight(outcome, orders), amount);
  }

  lemma InFlightEnded(outcome: seq<Outcome>, orders: seq<real>, id: nat, how: Outcome)
    requires |outcome| == |orders| && id < |outcome| && outcome[id].Working? && !how.Working?
    ensures Sum(InFlight(outcome[id := how], orders)) == Sum(InFlight(outcome, orders)) - orders[id]
  {
    assert InFlight(outcome[id := how], orders) == InFlight(outcome, orders)[id := 0.0];
    SumUpdate(InFlight(outcome, orders), id, 0.0);
  }

  lemma InFlightSign(outcome: seq<Outcome>, orders: seq<real>)
    requires |outcome| == |orders| && NonNegative(orders)
    ensures Sum(InFlight(outcome, orders)) >= 0.0
    ensures Settled(outcome) ==> Sum(InFlight(outcome, orders)) == 0.0
  {
    SumNonNegative(InFlight(outcome, orders));
    if Settled(outcome) { SumZero(InFlight(outcome, orders)); }
  }

  // ---- The invariant -----------------------------------------------------------------------------------

  ghost predicate Ledger(w: World) {
    var s := w.exec;
    && |w.outcome| == |s.orders| == |w.times|
    && s.submitted == Pending(w.outcome)
    && NonNegative(s.orders)
    && s.retries == |s.failed|
    && s.idx <= |s.schedule|
    && |s.submitted| <= s.idx
    && w.shortfall >= 0.0
    && (!s.resolved ==> s.idx == 0 && s.orders == [] && !w.older && !w.rushed)
  }

  ghost predicate Spaced(times: seq<real>, interval: real) {
    forall i :: 0 <= i < |times| - 1 ==> times[i + 1] - times[i] >= interval
  }

  ghost predicate Pacing(w: World) {
    && w.exec.lastSlice == (if w.times == [] then None else Some(w.times[|w.times| - 1]))
    && Spaced(w.times, w.exec.interval)
  }

  ghost predicate Ending(w: World) {
    var s := w.exec;
    && (w.stopped ==> !s.status.Running? && (s.closeType == Some(PA.EarlyStop) || s.closeType == Some(PA.PositionHold)))
    && (!w.stopped && !s.status.Running? ==> s.idx == |s.schedule| && Settled(w.outcome))
    && (!w.stopped ==> s.closeType == if s.status.Terminated? then Some(FinalCloseType(s)) else None)
  }

  ghost predicate Inv(w: World) {
    SoundState(w.exec) && Ledger(w) && Pacing(w) && Ending(w)
  }

  lemma SchedulePrefix(s: seq<real>, k: nat)
    requires NonNegative(s) && k <= |s|
    ensures 0.0 <= Sum(s[..k]) <= Sum(s)
    ensures k < |s| ==> Sum(s[..k + 1]) == Sum(s[..k]) + s[k]
  {
    PrefixSums(s, k);
    if k < |s| {
      assert s[..k + 1] == s[..k] + [s[k]];
      SumAppend(s[..k], s[k]);
    }
  }

  // ---- Each event keeps it --------------------------------------------------------------------------------

  lemma ResolveKeeps(f: Elementary, w: World, candles: Option<seq<VolumeForecast.Candle>>, wall: int)
    requires Lawful(f) && Inv(w) && w.exec.status.Running?
    ensures Inv(w.(exec := Resolve(f, w.exec, candles, wall)))
  {
    var s := w.exec;
    if !s.resolved {
      RescheduledSound(f, s.(resolved := true), VolumeForecast.Forecast(candles, |s.schedule|, s.interval, wall));
      assert w.exec.orders == [] && w.times == [];
    }
  }

  // Resolving changes the schedule and its pace, nothing else, and only before the first slice.
  lemma ResolveFrame(f: Elementary, s: State, candles: Option<seq<VolumeForecast.Candle>>, wall: int)
    requires Lawful(f)
    ensures var r := Resolve(f, s, candles, wall);
            r.resolved && r == s.(resolved := true, schedule := r.schedule, interval := r.interval)
            && (s.resolved ==> r == s)
  {
    hide BuildSchedule;
  }

  lemma BegunKeeps(f: Elementary, w: World, now: real, candles: Option<seq<VolumeForecast.Candle>>, wall: int)
    requires Lawful(f) && Inv(w) && w.exec.status.Running?
    ensures var b := Begun(f, w.exec, now, candles, wall);
            && Inv(w.(exec := b)) && b.resolved && (w.exec.resolved ==> b.schedule == w.exec.schedule)
            && b == w.exec.(resolved := true, schedule := b.schedule, interval := b.interval, started := b.started)
  {
    ResolveKeeps(f, w, candles, wall);
    ResolveFrame(f, w.exec, candles, wall);
    hide Resolve, SoundPlan, Sum, Pending, InFlight, Spaced, Settled, NonNegative;
    var r := Resolve(f, w.exec, candles, wall);
    var b := Begun(f, w.exec, now, candles, wall);
    assert b == r.(started := b.started);
  }

  lemma PlacedKeeps(w: World, now: real, amount: real)
    requires Inv(w) && w.exec.status.Running? && w.exec.resolved && w.exec.idx < |w.exec.schedule|
    requires amount >= 0.0 && !TooSoon(w.exec, now)
    ensures Inv(Advance(w, Place(w.exec, now, amount), now))
  {
    hide SoundPlan, Beyond;
    var t := Advance(w, Place(w.exec, now, amount), now);
    PlacedSpaced(w.times, now, w.exec.interval);
    assert t.outcome[..|w.outcome|] == w.outcome;
  }

  lemma PlacedSpaced(times: seq<real>, now: real, interval: real)
    requires Spaced(times, interval) && (times != [] ==> now - times[|times| - 1] >= interval)
    ensures Spaced(times + [now], interval)
  {
  }

  // All submitted orders shown as done: nothing is in flight.
  lemma DoneSettles(w: World, view: OrderId -> OrderView)
    requires Ledger(w) && Honest(w.outcome, w.exec.orders, view)
    requires forall i :: 0 <= i < |w.exec.submitted| ==> view(w.exec.submitted[i]).done
    ensures Settled(w.outcome)
  {
    assert forall id :: id in w.exec.submitted ==> view(id).done;
    forall i | 0 <= i < |w.outcome| ensures !w.outcome[i].Working? {
      PendingIds(w.outcome, i);
    }
  }

  // One slice sent, skipped or nothing, on a resolved running state.
  lemma SubmitKeeps(w: World, now: real, view: OrderId -> OrderView)
    requires Inv(w) && w.exec.status.Running? && w.exec.resolved && w.exec.idx < |w.exec.schedule|
    requires Honest(w.outcome, w.exec.orders, view) && !TooSoon(w.exec, now)
    ensures Inv(Advance(w, SubmitNextSlice(w.exec, now, view), now))
  {
    hide Sum, Pending, InFlight, LiveExecuted, Spaced, Beyond, Settled;
    var s := w.exec;
    if s.idx == |s.schedule| - 1 {
      var amount := s.cfg.params.total - s.filled - LiveExecuted(s.submitted, view);
      if amount > 0.0 { PlacedKeeps(w, now, amount); }
    } else {
      PlacedKeeps(w, now, s.schedule[s.idx]);
    }
  }

  // Every slice has been sent: the run closes once all orders are done.
  lemma SentKeeps(w: World, now: real, view: OrderId -> OrderView)
    requires Inv(w) && w.exec.status.Running? && Honest(w.outcome, w.exec.orders, view)
    requires w.exec.idx >= |w.exec.schedule|
    ensures Inv(Advance(w, Ticked(w.exec, now, view), now))
  {
    hide SoundPlan, Sum, Pending, InFlight, Spaced, NonNegative, Honest, Settled, Beyond;
    if AllDone(w.exec, view) { DoneSettles(w, view); }
  }

  lemma TickedKeeps(w: World, now: real, view: OrderId -> OrderView)
    requires Inv(w) && w.exec.status.Running? && w.exec.resolved && Honest(w.outcome, w.exec.orders, view)
    ensures Inv(Advance(w, Ticked(w.exec, now, view), now))
    ensures Ticked(w.exec, now, view).cfg == w.exec.cfg
  {
    hide SoundPlan, Sum, Pending, InFlight, Spaced, NonNegative, Honest, AllDone, LiveExecuted, Settled, Beyond;
    var s := w.exec;
    if s.idx >= |s.schedule| {
      SentKeeps(w, now, view);
    } else if !TooSoon(s, now) {
      SubmitKeeps(w, now, view);
    }
  }

  // Resolving first does not change what the tick then sends and counts.
  lemma TickFromBegun(f: Elementary, w: World, e: Event)
    requires Lawful(f) && Inv(w) && e.ControlTask? && w.exec.status.Running?
    ensures var b := Begun(f, w.exec, e.now, e.candles, e.wall);
            Next(f, w, e) == Advance(w.(exec := b), Ticked(b, e.now, e.view), e.now)
  {
    ResolveFrame(f, w.exec, e.candles, e.wall);
    hide Resolve, Ticked, Inv;
  }

  lemma RunningKeeps(f: Elementary, w: World, e: Event)
    requires Lawful(f) && Inv(w) && e.ControlTask? && Legal(f, w, e) && w.exec.status.Running?
    ensures Inv(Next(f, w, e)) && Next(f, w, e).exec.cfg == w.exec.cfg
  {
    hide Inv, Next, Ticked, Begun, Honest;
    BegunKeeps(f, w, e.now, e.candles, e.wall);
    TickFromBegun(f, w, e);
    TickedKeeps(w.(exec := Begun(f, w.exec, e.now, e.candles, e.wall)), e.now, e.view);
  }

  lemma ControlKeeps(f: Elementary, w: World, e: Event)
    requires Lawful(f) && Inv(w) && e.ControlTask? && Legal(f, w, e)
    ensures Inv(Next(f, w, e)) && Next(f, w, e).exec.cfg == w.exec.cfg
  {
    hide Inv, Next, Legal;
    if w.exec.status.Running? { RunningKeeps(f, w, e); } else { ClosingKeeps(f, w, e); }
  }

  lemma ClosingKeeps(f: Elementary, w: World, e: Event)
    requires Lawful(f) && Inv(w) && e.ControlTask? && !w.exec.status.Running?
    ensures Inv(Next(f, w, e)) && Next(f, w, e).exec.cfg == w.exec.cfg
  {
    hide SoundPlan, Sum, Pending, InFlight, Tick, NonNegative;
  }

  lemma CompletedKeeps(f: Elementary, w: World, e: Event)
    requires Lawful(f) && Inv(w) && e.OrderCompleted? && Legal(f, w, e)
    ensures Inv(Next(f, w, e)) && Next(f, w, e).exec.cfg == w.exec.cfg
  {
    hide SoundPlan, Sum, Pending, InFlight, Without;
    var s := w.exec;
    PendingIds(w.outcome, e.id);
    if 0 <= e.id {
      var t := Next(f, w, e);
      PendingUpdate(w.outcome, e.id);
      if AllDone(s.(filled := s.filled + e.executed), e.view) {
        DoneSettles(w.(outcome := t.outcome), e.view);
      }
    }
  }

  lemma FailedKeeps(f: Elementary, w: World, e: Event)
    requires Lawful(f) && Inv(w) && e.OrderFailed? && Legal(f, w, e)
    ensures Inv(Next(f, w, e)) && Next(f, w, e).exec.cfg == w.exec.cfg
  {
    hide SoundPlan, Sum, Pending, InFlight, Without, NonNegative, TakenBack;
    PendingIds(w.outcome, e.id);
    if 0 <= e.id { PendingFailed(w.outcome, e.id); }
  }

  lemma NextKeeps(f: Elementary, w: World, e: Event)
    requires Lawful(f) && Inv(w) && Legal(f, w, e)
    ensures Inv(Next(f, w, e)) && Next(f, w, e).exec.cfg == w.exec.cfg
  {
    match e
    case ControlTask(_, _, _, _) => ControlKeeps(f, w, e);
    case OrderCompleted(_, _, _) => CompletedKeeps(f, w, e);
    case OrderFailed(_) => FailedKeeps(f, w, e);
    case StopRequest(_) =>
  }

  lemma {:induction false} RunKeeps(f: Elementary, w: World, es: seq<Event>)
    requires Lawful(f) && Inv(w) && LegalRun(f, w, es)
    ensures Inv(RunOf(f, w, es)) && RunOf(f, w, es).exec.cfg == w.exec.cfg
    decreases |es|
  {
    hide Inv, Next, Legal;
    if es != [] {
      NextKeeps(f, w, es[0]);
      RunKeeps(f, Next(f, w, es[0]), es[1..]);
    }
  }
}
