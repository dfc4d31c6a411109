/**
 The executor object: its callbacks and timer update the fields in place, and each one is
 proved to take exactly the transition that the theorems are about.
 */
module PassiveAggressiveExecutorClass {
  import opened Common
  import PA = PassiveAggressive

  class PassiveAggressiveExecutor {
    const config: PA.Config
    var children: seq<PA.Child>
    var childIdx: nat
    var cumulativeFilled: real
    var orders: seq<PA.Record>
    var currentRetries: int
    var status: PA.RunStatus
    var closeType: Option<PA.CloseType>
    var lastCancelSweep: Option<real>
    // The venue's side: kinds of the submitted orders, and cancels requested.
    var sent: seq<PA.OrderKind>
    var cancels: set<PA.OrderId>

    ghost function View(): PA.State
      reads this
    {
      PA.State(config, children, childIdx, cumulativeFilled, orders, currentRetries, status,
               closeType, lastCancelSweep, sent, cancels)
    }

    ghost predicate Valid()
      reads this
    {
      PA.WellIndexed(View())
    }

    constructor (config: PA.Config, slots: seq<PA.Child>)
      ensures View() == PA.Initial(config, slots) && Valid()
    {
      this.config := config;
      children := slots;
      childIdx := 0;
      cumulativeFilled := 0.0;
      orders := [];
      currentRetries := 0;
      status := PA.Running;
      closeType := None;
      lastCancelSweep := None;
      sent := [];
      cancels := {};
    }

    // Construction fails exactly when the child slots cannot be built.
    static method Create(config: PA.Config) returns (r: Result<PassiveAggressiveExecutor>)
      ensures var built := PA.BuildChildren(config.total, config.childQuantity);
              && (r.Success? <==> built.Success?)
              && (r.Success? ==> fresh(r.value) && r.value.Valid()
                                 && r.value.View() == PA.Initial(config, built.value))
    {
      var built := PA.BuildChildren(config.total, config.childQuantity);
      if built.Failure? {
        return Failure(built.error);
      }
      var executor := new PassiveAggressiveExecutor(config, built.value);
      return Success(executor);
    }

    // ---- Queries --------------------------------------------------------------

    function Outstanding(): real
      reads this
    {
      PA.Outstanding(orders)
    }

    function Room(c: nat): (r: real)
      requires c < |children|
      reads this
      ensures r == PA.Room(View(), c)
    {
      Min(children[c].target - children[c].filled, config.total - cumulativeFilled) - Outstanding()
    }

    predicate IsActive(id: PA.OrderId)
      requires 0 <= id < |orders| && orders[id].child < |children|
      reads this
    {
      children[orders[id].child].tracked == Some(id)
    }

    function FinalCloseType(): PA.CloseType
      reads this
    {
      if currentRetries > config.maxRetries then PA.Failed
      else if cumulativeFilled >= config.total then PA.Completed
      else PA.TimeLimit
    }

    // ---- Order helpers ----------------------------------------------------------

    method Submit(c: nat, kind: PA.OrderKind, amount: real) returns (id: PA.OrderId)
      requires Valid() && c < |children|
      modifies this
      ensures Valid() && View() == PA.Submit(old(View()), c, kind, amount) && id == old(|orders|)
    {
      id := |orders|;
      sent := sent + [kind];
      orders := orders + [PA.Record(c, amount, 0.0, 0.0, 0.0, {}, false)];
      children := children[c := children[c].(tracked := Some(id))];
    }

    method PlaceLimit(c: nat, now: real, price: Option<real>)
      requires Valid() && c < |children|
      modifies this
      ensures Valid() && View() == PA.PlaceLimit(old(View()), c, now, price)
    {
      if !(price.Some? && price.value > 0.0) {
        children := children[c := children[c].(retryAt := Some(now + 1.0))];
        return;
      }
      var remaining := Room(c);
      if remaining <= 0.0 {
        children := children[c := children[c].(status := PA.Done)];
        return;
      }
      var id := Submit(c, PA.Limit(price.value), remaining);
      children := children[c := children[c].(status := PA.Active, refreshStart := Some(now))];
    }

    method PlaceAggressive(c: nat)
      requires Valid() && c < |children|
      modifies this
      ensures Valid() && View() == PA.PlaceAggressive(old(View()), c)
    {
      children := children[c := children[c].(status := PA.Idle)];
      if status != PA.Running {
        return;
      }
      var remaining := Room(c);
      if remaining <= 0.0 {
        children := children[c := children[c].(status := PA.Done)];
        return;
      }
      var id := Submit(c, PA.Market, remaining);
      children := children[c := children[c].(status := PA.Aggressive)];
    }

    method CancelChild(c: nat, reason: PA.CancelReason)
      requires Valid() && c < |children|
      modifies this
      ensures Valid() && View() == PA.CancelChild(old(View()), c, reason)
    {
      if children[c].tracked.Some? {
        cancels := cancels + {children[c].tracked.value};
        children := children[c := children[c].(cancelReason := reason, status := PA.Canceling)];
      }
    }

    method CancelAllOpen(now: real)
      requires Valid()
      modifies this
      ensures Valid() && View() == PA.CancelAllOpen(old(View()), now)
    {
      lastCancelSweep := Some(now);
      for i := 0 to |orders|
        invariant Valid()
        invariant View() == old(View()).(
                              lastSweep := Some(now),
                              cancels := old(cancels) + PA.OpenIds(old(orders)[..i]))
      {
        if !orders[i].terminal {
          cancels := cancels + {i};
        }
      }
      assert old(orders)[..|orders|] == orders;
    }

    method CloseExecutionBy(closeType: PA.CloseType)
      requires Valid()
      modifies this
      ensures Valid() && View() == PA.Close(old(View()), closeType)
    {
      this.closeType := Some(closeType);
      status := PA.Terminated;
    }

    method Credit(id: PA.OrderId)
      requires Valid() && 0 <= id < |orders|
      modifies this
      ensures Valid() && View() == PA.Credit(old(View()), id)
    {
      var record := orders[id];
      var delta := Max(record.fillSum, record.reported) - record.credited;
      if delta <= 0.0 {
        return;
      }
      orders := orders[id := record.(credited := record.credited + delta)];
      var child := children[record.child];
      children := children[record.child := child.(filled := child.filled + delta)];
      cumulativeFilled := cumulativeFilled + delta;
    }

    // ---- Timer --------------------------------------------------------------------

    method ControlTask(now: real, price: Option<real>)
      requires Valid()
      modifies this
      ensures Valid() && View() == PA.Tick(old(View()), now, price)
    {
      if status == PA.Running {
        Step(now, price);
      } else if status == PA.ShuttingDown {
        if Outstanding() != 0.0 {
          if lastCancelSweep.None? || now - lastCancelSweep.value >= config.refreshTime {
            CancelAllOpen(now);
          }
          return;
        }
        CloseExecutionBy(if closeType.Some? then closeType.value else FinalCloseType());
      }
    }

    method Step(now: real, price: Option<real>)
      requires Valid()
      modifies this
      ensures Valid() && View() == PA.Step(old(View()), now, price)
    {
      while childIdx < |children| && PA.Finished(children[childIdx].status)
        invariant Valid() && old(childIdx) <= childIdx
        invariant PA.FirstUnfinished(children, childIdx) == PA.FirstUnfinished(children, old(childIdx))
        invariant View() == old(View()).(idx := childIdx)
        decreases |children| - childIdx
      {
        childIdx := childIdx + 1;
      }
      if childIdx >= |children| {
        if Outstanding() == 0.0 {
          CloseExecutionBy(FinalCloseType());
        }
        return;
      }
      var c := childIdx;
      if children[c].cycleStart.None? {
        children := children[c := children[c].(cycleStart := Some(now))];
      }
      assert View() == PA.SetChild(old(View()).(idx := c), c, PA.StartCycle(old(children)[c], now));
      StepChild(c, now, price);
    }

    method StepChild(c: nat, now: real, price: Option<real>)
      requires Valid() && c < |children| && children[c].cycleStart.Some?
      modifies this
      ensures Valid() && View() == PA.StepChild(old(View()), c, now, price)
    {
      var cycleElapsed := now - children[c].cycleStart.value;
      if children[c].status == PA.Idle {
        if cycleElapsed >= config.timeLimit {
          children := children[c := children[c].(status := PA.Skipped)];
        } else if children[c].retryAt.Some? && now < children[c].retryAt.value {
          return;
        } else {
          children := children[c := children[c].(retryAt := None)];
          PlaceLimit(c, now, price);
        }
      } else if children[c].status == PA.Active {
        if cycleElapsed >= config.timeLimit {
          CancelChild(c, PA.CycleExpired);
        } else if children[c].refreshStart.Some?
                  && now - children[c].refreshStart.value >= config.refreshTime {
          CancelChild(c, PA.Refresh);
        }
      }
    }

    // ---- Venue callbacks ------------------------------------------------------------

    method ProcessOrderFilled(id: PA.OrderId, trade: Option<PA.TradeId>, amount: real)
      requires Valid()
      modifies this
      ensures Valid() && View() == PA.OnFilled(old(View()), id, trade, amount)
    {
      hide PA.Room, PA.Residual, PA.Outstanding, PA.CancelChild, PA.OpenIds;
      if !(0 <= id < |orders|) {
        return;
      }
      var record := orders[id];
      if trade.Some? {
        if trade.value in record.tradeIds {
          return;
        }
        record := record.(tradeIds := record.tradeIds + {trade.value});
      }
      record := record.(fillSum := record.fillSum + amount);
      orders := orders[id := record];
      Credit(id);
      if childIdx < |children| && children[childIdx].status == PA.Active
         && !IsActive(id) && Room(childIdx) < 0.0 {
        CancelChild(childIdx, PA.Refresh);
      }
    }

    method ProcessOrderCompleted(id: PA.OrderId, amount: real)
      requires Valid()
      modifies this
      ensures Valid() && View() == PA.OnCompleted(old(View()), id, amount)
    {
      if !(0 <= id < |orders|) {
        return;
      }
      var record := orders[id].(terminal := true);
      record := record.(reported := Max(record.reported, amount));
      orders := orders[id := record];
      Credit(id);
      if IsActive(id) {
        children := children[record.child := children[record.child].(status := PA.Done)];
      }
    }

    method ProcessOrderCanceled(id: PA.OrderId)
      requires Valid()
      modifies this
      ensures Valid() && View() == PA.OnCanceled(old(View()), id)
    {
      if !(0 <= id < |orders|) {
        return;
      }
      orders := orders[id := orders[id].(terminal := true)];
      if !IsActive(id) {
        return;
      }
      var c := orders[id].child;
      children := children[c := children[c].(tracked := None)];
      if children[c].cancelReason == PA.CycleExpired && config.closing {
        PlaceAggressive(c);
      } else if children[c].cancelReason == PA.CycleExpired {
        children := children[c := children[c].(status := PA.Skipped)];
      } else {
        children := children[c := children[c].(status := PA.Idle)];
      }
    }

    method ProcessOrderFailed(id: PA.OrderId, now: real, satisfied: bool)
      requires Valid()
      modifies this
      ensures Valid() && View() == PA.OnFailed(old(View()), id, now, satisfied)
    {
      if !(0 <= id < |orders|) {
        return;
      }
      orders := orders[id := orders[id].(terminal := true)];
      if !IsActive(id) {
        return;
      }
      var c := orders[id].child;
      if config.closing && satisfied {
        children := children[c := children[c].(tracked := None, status := PA.Skipped)];
        CloseExecutionBy(PA.EarlyStop);
        return;
      }
      var wasAggressive := children[c].status == PA.Aggressive;
      currentRetries := currentRetries + 1;
      var delay := PA.RetryDelay(config, currentRetries);
      children := children[c := children[c].(
          status := PA.Idle, tracked := None, retryAt := Some(now + delay))];
      if wasAggressive && status == PA.Running && currentRetries <= config.maxRetries {
        PlaceAggressive(c);
      }
    }

    method EarlyStop(now: real, keepPosition: bool)
      requires Valid()
      modifies this
      ensures Valid() && View() == PA.Stop(old(View()), now, keepPosition)
    {
      closeType := Some(if keepPosition then PA.PositionHold else PA.EarlyStop);
      CancelAllOpen(now);
      status := PA.ShuttingDown;
    }
  }
}
