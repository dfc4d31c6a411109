/**
 The executor object driven through a whole run: its own fields keep the guarantees proved
 of the transitions.
 */
module PassiveAggressiveDrive {
  import opened Common
  import opened PassiveAggressive
  import opened PassiveAggressiveRuns
  import opened PassiveAggressiveExecutorClass
  import Safety = PassiveAggressiveSafety
  import Theorems = PassiveAggressiveTheorems

  // The timer and the venue's events, each handed to its callback.
  method Deliver(executor: PassiveAggressiveExecutor, e: Event)
    requires executor.Valid()
    modifies executor
    ensures executor.Valid() && executor.View() == Apply(old(executor.View()), e)
  {
    match e {
      case Timer(now, price) => executor.ControlTask(now, price);
      case Filled(id, trade, amount) => executor.ProcessOrderFilled(id, trade, amount);
      case OrderCompleted(id, amount) => executor.ProcessOrderCompleted(id, amount);
      case OrderCanceled(id) => executor.ProcessOrderCanceled(id);
      case OrderFailed(id, now, satisfied) => executor.ProcessOrderFailed(id, now, satisfied);
      case StopRequest(now, keep) => executor.EarlyStop(now, keep);
    }
  }

  /** A new executor driven through any legal run never over-executes its total by more than
      the late credit, has one order working at most, and its books agree. */
  method Drive(config: Config, es: seq<Event>, ghost clock: real)
    returns (r: Result<PassiveAggressiveExecutor>, ghost w: World)
    requires forall w0: World :: Theorems.StartOf(config, clock, w0) ==> LegalRun(w0, es)
    ensures r.Success? <==> BuildChildren(config.total, config.childQuantity).Success?
    ensures r.Success? ==>
      && Theorems.Reaches(config, es, w) && r.value.View() == w.exec
      && r.value.cumulativeFilled + r.value.Outstanding() <= Max(config.total, 0.0) + w.lateSinceSubmit
      && r.value.cumulativeFilled == Sum(Safety.Fills(r.value.children)) == Sum(Safety.Credits(r.value.orders))
      && Theorems.SingleWorking(r.value.View())
  {
    r := PassiveAggressiveExecutor.Create(config);
    if r.Success? {
      var built := BuildChildren(config.total, config.childQuantity);
      ghost var w0 := Start(config, built.value, clock);
      assert Theorems.StartOf(config, clock, w0);
      w := w0;
      var executor := r.value;
      for i := 0 to |es|
        invariant fresh(executor) && executor.Valid() && executor.View() == w.exec
        invariant LegalRun(w, es[i..]) && RunOf(w, es[i..]) == RunOf(w0, es)
      {
        assert es[i..][0] == es[i] && es[i..][1..] == es[i + 1..];
        Deliver(executor, es[i]);
        w := Next(w, es[i]);
      }
      assert Theorems.Reaches(config, es, w);
      Theorems.OverExecutionBound(config, es, w);
      Theorems.Conservation(config, es, w);
      Theorems.SingleWorkingOrder(config, es, w);
    } else {
      w := Start(config, [], clock);
    }
  }
}
