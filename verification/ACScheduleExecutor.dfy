/**
 The Almgren-Chriss executor object: its timer and callbacks update the fields in place,
 and each one is proved to take the transition the theorems are about.
 */
module ACScheduleExecutorClass {
  import opened Common
  import ACMath
  import ACSchedule
  import VolumeForecast
  import AC = ACExecution
  import PA = PassiveAggressive

  class ACScheduleExecutor {
    const config: AC.Config
    const math: ACMath.Elementary
    var schedule: seq<real>
    var intervalSeconds: real
    var scheduleResolved: bool
    var sliceIdx: nat
    var submitted: seq<AC.OrderId>
    var failed: seq<AC.OrderId>
    var cumulativeFilled: real
    var startTimestamp: Option<real>
    var lastSliceTimestamp: Option<real>
    var currentRetries: int
    var status: PA.RunStatus
    var closeType: Option<PA.CloseType>
    // The connector's side: the amount of every order placed; an order's id is its index.
    var orders: seq<real>

    ghost function View(): AC.State
      reads this
    {
      AC.State(config, schedule, intervalSeconds, scheduleResolved, sliceIdx, submitted, failed, orders,
               cumulativeFilled, startTimestamp, lastSliceTimestamp, currentRetries, status, closeType)
    }

    ghost predicate Valid() { ACMath.Lawful(math) }

    constructor (math: ACMath.Elementary, config: AC.Config, schedule: seq<real>)
      requires ACMath.Lawful(math) && schedule != []
      ensures Valid() && this.math == math
      ensures View() == AC.State(
        config, schedule, AC.IntervalFor(config.params.duration, schedule), !config.volumeForecast,
        0, [], [], [], 0.0, None, None, 0, PA.Running, None)
    {
      this.config := config;
      this.math := math;
      this.schedule := schedule;
      intervalSeconds := config.params.duration / |schedule| as real;
      scheduleResolved := !config.volumeForecast;
      sliceIdx := 0;
      submitted := [];
      failed := [];
      cumulativeFilled := 0.0;
      startTimestamp := None;
      lastSliceTimestamp := None;
      currentRetries := 0;
      status := PA.Running;
      closeType := None;
      orders := [];
    }

    // Rejects an invalid configuration, and an empty schedule when it divides by its length.
    static method Create(math: ACMath.Elementary, config: AC.Config) returns (r: Result<ACScheduleExecutor>)
      requires ACMath.Lawful(math)
      ensures r.Failure? <==> AC.Create(math, config).Failure?
      ensures r.Failure? ==> r.error == AC.Create(math, config).error
      ensures r.Success? ==>
        fresh(r.value) && r.value.Valid() && AC.Create(math, config) == Success(r.value.View())
    {
      if !AC.ValidConfig(config) { return Failure("invalid configuration"); }
      var built := ACSchedule.Build(math, config.params, None);
      if built.Failure? { return Failure(built.error); }
      if built.value == [] { return Failure("division by zero"); }
      var executor := new ACScheduleExecutor(math, config, built.value);
      r := Success(executor);
    }

    // Volume fractions from the running sum; the last is set to 1.
    method VolumeFractions(volumes: seq<real>) returns (fractions: seq<real>)
      requires Sum(volumes) > 0.0
      ensures fractions == AC.Fractions(volumes)
    {
      var total := Sum(volumes);
      var cum := 0.0;
      fractions := [0.0];
      assert 0.0 / total == 0.0;
      for i := 0 to |volumes|
        invariant |fractions| == i + 1 && cum == Sum(volumes[..i])
        invariant forall k :: 0 <= k <= i ==> fractions[k] == Sum(volumes[..k]) / total
      {
        assert volumes[..i + 1] == volumes[..i] + [volumes[i]];
        SumAppend(volumes[..i], volumes[i]);
        cum := cum + volumes[i];
        fractions := fractions + [cum / total];
      }
      fractions := fractions[|fractions| - 1 := 1.0];
    }

    method MaybeResolveVolumeSchedule(candles: Option<seq<VolumeForecast.Candle>>, wall: int)
      requires Valid()
      modifies this
      ensures View() == AC.Resolve(math, old(View()), candles, wall)
    {
      if scheduleResolved { return; }
      scheduleResolved := true;
      var volumes := VolumeForecast.ForecastVolumes(candles, |schedule|, intervalSeconds, wall);
      if volumes.Failure? || Sum(volumes.value) <= 0.0 { return; }
      var fractions := VolumeFractions(volumes.value);
      var built := ACSchedule.Build(math, config.params, Some(fractions));
      if built.Failure? { return; }
      schedule := built.value;
      if schedule == [] { return; }
      intervalSeconds := AC.IntervalFor(config.params.duration, schedule);
    }

    method ControlTask(
        now: real, candles: Option<seq<VolumeForecast.Candle>>, wall: int, view: AC.OrderId -> AC.OrderView)
      requires Valid()
      modifies this
      ensures View() == AC.Control(math, old(View()), now, candles, wall, view)
    {
      if status == PA.Running {
        Tick(now, candles, wall, view);
      } else if status == PA.ShuttingDown {
        CloseExecutionBy(if closeType.Some? then closeType.value else FinalCloseType());
      }
    }

    method Tick(now: real, candles: Option<seq<VolumeForecast.Candle>>, wall: int, view: AC.OrderId -> AC.OrderView)
      requires Valid()
      modifies this
      ensures View() == AC.Tick(math, old(View()), now, candles, wall, view)
    {
      MaybeResolveVolumeSchedule(candles, wall);
      if startTimestamp.None? { startTimestamp := Some(now); }
      if sliceIdx >= |schedule| {
        var done := AllDone(view);
        if done { CloseExecutionBy(FinalCloseType()); }
        return;
      }
      if lastSliceTimestamp.Some? && now - lastSliceTimestamp.value < intervalSeconds { return; }
      SubmitNextSlice(now, view);
    }

    method SubmitNextSlice(now: real, view: AC.OrderId -> AC.OrderView)
      modifies this
      ensures View() == AC.SubmitNextSlice(old(View()), now, view)
    {
      if sliceIdx >= |schedule| { return; }
      var amount;
      if sliceIdx == |schedule| - 1 {
        var live := 0.0;
        for i := 0 to |submitted|
          invariant live == AC.LiveExecuted(submitted[..i], view)
        {
          assert submitted[..i + 1][..i] == submitted[..i];
          if !view(submitted[i]).done { live := live + view(submitted[i]).executed; }
        }
        assert submitted[..|submitted|] == submitted;
        amount := config.params.total - cumulativeFilled - live;
        if amount <= 0.0 {
          sliceIdx := sliceIdx + 1;
          return;
        }
      } else {
        amount := schedule[sliceIdx];
      }
      var id := |orders|;
      orders := orders + [amount];
      submitted := submitted + [id];
      lastSliceTimestamp := Some(now);
      sliceIdx := sliceIdx + 1;
    }

    method AllDone(view: AC.OrderId -> AC.OrderView) returns (done: bool)
      ensures done == AC.AllDone(View(), view)
    {
      if sliceIdx < |schedule| { return false; }
      for i := 0 to |submitted|
        invariant forall k :: 0 <= k < i ==> view(submitted[k]).done
      {
        if !view(submitted[i]).done { return false; }
      }
      done := true;
    }

    method ProcessOrderCompletedEvent(id: AC.OrderId, executed: real, view: AC.OrderId -> AC.OrderView)
      modifies this
      ensures View() == AC.OnCompleted(old(View()), id, executed, view)
    {
      if id in submitted {
        cumulativeFilled := cumulativeFilled + executed;
        var done := AllDone(view);
        if done { status := PA.ShuttingDown; }
      }
    }

    method ProcessOrderFailedEvent(id: AC.OrderId)
      modifies this
      ensures View() == AC.OnFailed(old(View()), id)
    {
      if id in submitted {
        failed := failed + [id];
        submitted := AC.Without(submitted, id);
        sliceIdx := if sliceIdx > 0 then sliceIdx - 1 else 0;
        currentRetries := currentRetries + 1;
      }
    }

    method EarlyStop(keepPosition: bool)
      modifies this
      ensures View() == AC.Stop(old(View()), keepPosition)
    {
      closeType := Some(if keepPosition then PA.PositionHold else PA.EarlyStop);
      status := PA.ShuttingDown;
    }

    method CloseExecutionBy(kind: PA.CloseType)
      modifies this
      ensures View() == AC.CloseBy(old(View()), kind)
    {
      closeType := Some(kind);
      status := PA.Terminated;
    }

    function FinalCloseType(): PA.CloseType
      reads this
    {
      if currentRetries > config.maxRetries then PA.Failed
      else if cumulativeFilled >= config.params.total then PA.Completed
      else PA.TimeLimit
    }
  }
}
