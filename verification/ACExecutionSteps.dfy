/**
 What one event does to a reachable Almgren-Chriss executor, exactly: when a control task
 sends, how much, when the run leaves RUNNING, and what a stop reports.
 */
module ACExecutionSteps {
  import opened Common
  import opened ACMath
  import opened ACShape
  import opened ACExecution
  import opened ACExecutionRuns
  import opened ACExecutionTheorems
  import PA = PassiveAggressive

  // ---- What a control task sends ---------------------------------------------------------------

  // What the connector shows executed, order by order, of the orders still working.
  function Executing(outcome: seq<Outcome>, view: OrderId -> OrderView): seq<real> {
    seq(|outcome|, i requires 0 <= i < |outcome| => if outcome[i].Working? then view(i).executed else 0.0)
  }

  lemma {:induction false} LiveIsExecuting(outcome: seq<Outcome>, orders: seq<real>, view: OrderId -> OrderView)
    requires Honest(outcome, orders, view)
    ensures LiveExecuted(Pending(outcome), view) == Sum(Executing(outcome, view))
  {
    if outcome != [] {
      var n := |outcome| - 1;
      LiveIsExecuting(outcome[..n], orders[..n], view);
      assert Executing(outcome, view) == Executing(outcome[..n], view) + [Executing(outcome, view)[n]];
      SumAppend(Executing(outcome[..n], view), Executing(outcome, view)[n]);
      var before := Pending(outcome[..n]);
      if outcome[n].Unfilled? {
        assert Pending(outcome) == before;
      } else {
        assert Pending(outcome) == before + [n];
        LiveAppend(before, n, view);
      }
    }
  }

  // What the run has still to send: the total, less what is filled or shown executing.
  function Remainder(w: World, view: OrderId -> OrderView): real {
    w.exec.cfg.params.total - w.exec.filled - Sum(Executing(w.outcome, view))
  }

  // One interval has passed since the newest order was sent.
  predicate Elapsed(times: seq<real>, interval: real, now: real) {
    times == [] || now - times[|times| - 1] >= interval
  }

  // What a control task sends of slice w.exec.idx of schedule and what it counts as sent.
  ghost predicate Sends(w: World, t: World, now: real, view: OrderId -> OrderView) {
    var i, n, k := w.exec.idx, |w.exec.orders|, |t.exec.schedule|;
    var open := i < k && Elapsed(w.times, t.exec.interval, now);
    && (|t.exec.orders| > n <==> open && (i == k - 1 ==> Remainder(w, view) > 0.0))
    && (i < k && |t.exec.orders| > n ==>
          && t.exec.orders == w.exec.orders + [if i == k - 1 then Remainder(w, view) else t.exec.schedule[i]]
          && t.times == w.times + [now])
    && (|t.exec.orders| <= n ==> t.exec.orders == w.exec.orders && t.times == w.times)
    && t.exec.idx == i + (if open then 1 else 0)
  }

  /** A control task of a running executor sends exactly when a slice is left, an interval has
      passed since the newest order, and, for the last slice, something remains. It sends the
      slice the schedule holds for it, and for the last one what remains. Whatever was due is
      counted as sent; the schedule changes on the first control task only. */
  lemma TickSendsExactly(f: Elementary, cfg: Config, es: seq<Event>, w: World, e: Event)
    requires Lawful(f) && cfg.params.total > 0.0 && Reaches(f, cfg, es, w)
    requires Legal(f, w, e) && e.ControlTask? && w.exec.status.Running?
    ensures var t := Next(f, w, e);
            && t.exec.resolved && Sends(w, t, e.now, e.view)
            && (w.exec.resolved ==> t.exec.schedule == w.exec.schedule && t.exec.interval == w.exec.interval)
  {
    hide Reaches, Inv, Begun, Ticked, Next, Sends, ACExecutionExposure.Exposed;
    ReachesInv(f, cfg, es, w);
    RunningSends(f, w, e);
  }

  lemma RunningSends(f: Elementary, w: World, e: Event)
    requires Lawful(f) && Inv(w) && Legal(f, w, e) && e.ControlTask? && w.exec.status.Running?
    ensures var t := Next(f, w, e);
            && t.exec.resolved && Sends(w, t, e.now, e.view)
            && (w.exec.resolved ==> t.exec.schedule == w.exec.schedule && t.exec.interval == w.exec.interval)
  {
    hide Inv, Ledger, Pacing, Ticked, Next, Sends, Resolve, Executing;
    BegunKeeps(f, w, e.now, e.candles, e.wall);
    TickFromBegun(f, w, e);
    BegunPace(f, w.exec, e);
    var b := w.(exec := Begun(f, w.exec, e.now, e.candles, e.wall));
    KeptParts(b);
    TickedSends(b, e.now, e.view);
    SameSends(w, b, Next(f, w, e), e.now, e.view);
  }

  lemma KeptParts(w: World)
    requires Inv(w)
    ensures Ledger(w) && Pacing(w)
  {
  }

  lemma BegunPace(f: Elementary, s: State, e: Event)
    requires Lawful(f) && e.ControlTask?
    ensures s.resolved ==> Begun(f, s, e.now, e.candles, e.wall).interval == s.interval
  {
    hide BuildSchedule;
  }

  lemma SameSends(w: World, b: World, t: World, now: real, view: OrderId -> OrderView)
    requires Sends(b, t, now, view)
    requires b.exec.idx == w.exec.idx && b.exec.orders == w.exec.orders && b.times == w.times
    requires b.outcome == w.outcome && b.exec.filled == w.exec.filled && b.exec.cfg == w.exec.cfg
    ensures Sends(w, t, now, view)
  {
    hide Executing, Sum;
  }

  lemma TickedSends(w: World, now: real, view: OrderId -> OrderView)
    requires Ledger(w) && Pacing(w) && Honest(w.outcome, w.exec.orders, view)
    ensures Sends(w, Advance(w, Ticked(w.exec, now, view), now), now, view)
    ensures Ticked(w.exec, now, view).resolved == w.exec.resolved
    ensures Ticked(w.exec, now, view).schedule == w.exec.schedule
    ensures Ticked(w.exec, now, view).interval == w.exec.interval
  {
    hide Pending, Spaced, NonNegative, Honest, AllDone, LiveExecuted, Settled, Beyond, Remainder, SubmitNextSlice;
    if w.exec.idx < |w.exec.schedule| && !TooSoon(w.exec, now) { DueSends(w, now, view); }
  }

  // A slice that is due is sent, unless it is the last and nothing remains.
  lemma DueSends(w: World, now: real, view: OrderId -> OrderView)
    requires Ledger(w) && Pacing(w) && Honest(w.outcome, w.exec.orders, view)
    requires w.exec.idx < |w.exec.schedule| && !TooSoon(w.exec, now)
    ensures var t := SubmitNextSlice(w.exec, now, view);
            && t.resolved == w.exec.resolved && t.schedule == w.exec.schedule && t.interval == w.exec.interval
            && Sends(w, Advance(w, t, now), now, view)
  {
    hide Pending, Spaced, NonNegative, Honest, LiveExecuted, Settled, Beyond, Sum, Executing;
    LiveIsExecuting(w.outcome, w.exec.orders, view);
  }

  // ---- When the run ends -------------------------------------------------------------------------

  /** A running executor is terminated by a control task exactly when every slice counts as
      sent and no order is still working, and starts shutting down on a completion under the
      same condition. A control task closes an executor that is shutting down. Failures and
      foreign orders never end a run. */
  lemma EndsExactly(f: Elementary, cfg: Config, es: seq<Event>, w: World, e: Event)
    requires Lawful(f) && cfg.params.total > 0.0 && Reaches(f, cfg, es, w) && Legal(f, w, e) && !e.StopRequest?
    ensures var t := Next(f, w, e);
            var ended := t.exec.idx == |t.exec.schedule| && Settled(t.outcome);
            && (w.exec.status.Running? ==>
                  && (t.exec.status.Terminated? <==>
                        e.ControlTask? && w.exec.idx == |t.exec.schedule| && Settled(w.outcome))
                  && (t.exec.status.ShuttingDown? <==> e.OrderCompleted? && e.id >= 0 && ended))
            && (w.exec.status.ShuttingDown? ==> (t.exec.status.Terminated? <==> e.ControlTask?))
  {
    hide Reaches, Inv, Next, Legal, Settled, ACExecutionExposure.Exposed;
    ReachesInv(f, cfg, es, w);
    match e
    case ControlTask(_, _, _, _) => ControlEnds(f, w, e);
    case OrderCompleted(_, _, _) => CompletionEnds(f, w, e);
    case OrderFailed(_) => FailureGoesOn(f, w, e);
  }

  lemma ControlEnds(f: Elementary, w: World, e: Event)
    requires Lawful(f) && Inv(w) && Legal(f, w, e) && e.ControlTask?
    ensures var t := Next(f, w, e);
            && (w.exec.status.Running? ==>
                  && (t.exec.status.Terminated? <==> w.exec.idx == |t.exec.schedule| && Settled(w.outcome))
                  && !t.exec.status.ShuttingDown?)
            && (w.exec.status.ShuttingDown? ==> t.exec.status.Terminated?)
  {
    hide Inv, Settled, Begun, Honest, AllDone, LiveExecuted, Beyond;
    if w.exec.status.Running? {
      BegunKeeps(f, w, e.now, e.candles, e.wall);
      TickFromBegun(f, w, e);
      var b := w.(exec := Begun(f, w.exec, e.now, e.candles, e.wall));
      TickedEnds(b, e.now, e.view);
    }
  }

  lemma TickedEnds(w: World, now: real, view: OrderId -> OrderView)
    requires Inv(w) && Honest(w.outcome, w.exec.orders, view) && w.exec.status.Running?
    ensures var t := Ticked(w.exec, now, view);
            && (t.status.Terminated? <==> w.exec.idx == |t.schedule| && Settled(w.outcome))
            && !t.status.ShuttingDown?
  {
    hide SoundPlan, Pending, Honest, AllDone, Settled, LiveExecuted;
    DoneIsSettled(w, view);
  }

  lemma CompletionEnds(f: Elementary, w: World, e: Event)
    requires Lawful(f) && Inv(w) && Legal(f, w, e) && e.OrderCompleted?
    ensures var t := Next(f, w, e);
            && (w.exec.status.Running? ==>
                  && !t.exec.status.Terminated?
                  && (t.exec.status.ShuttingDown? <==>
                        e.id >= 0 && t.exec.idx == |t.exec.schedule| && Settled(t.outcome)))
            && (w.exec.status.ShuttingDown? ==> !t.exec.status.Terminated?)
  {
    hide SoundPlan, Pending, Honest, AllDone, Settled, LiveExecuted, Ending, Pacing;
    PendingIds(w.outcome, e.id);
    if 0 <= e.id {
      PendingUpdate(w.outcome, e.id);
      var s := w.exec.(filled := w.exec.filled + e.executed);
      DoneIsSettled(w.(exec := s, outcome := w.outcome[e.id := Filled]), e.view);
    }
  }

  lemma FailureGoesOn(f: Elementary, w: World, e: Event)
    requires Lawful(f) && e.OrderFailed?
    ensures Next(f, w, e).exec.status == w.exec.status
  {
    hide Without, TakenBack;
  }

  // ---- A run without failures ------------------------------------------------------------------------

  predicate Unfailed(outcome: seq<Outcome>) { forall i :: 0 <= i < |outcome| ==> !outcome[i].Unfilled? }

  // The slices before the last that count as sent.
  function Early(w: World): nat {
    if w.exec.idx < |w.exec.schedule| then w.exec.idx else if w.exec.schedule == [] then 0 else |w.exec.schedule| - 1
  }

  ghost predicate FollowsPlan(w: World) {
    Unfailed(w.outcome) ==>
      && Early(w) <= |w.exec.orders| <= w.exec.idx && Early(w) <= |w.exec.schedule|
      && w.exec.orders[..Early(w)] == w.exec.schedule[..Early(w)]
  }

  /** In a run where no order fails, the orders sent before the last slice are the slices of the
      schedule in force, one for one and in order. */
  lemma UnfailedFollowsPlan(f: Elementary, cfg: Config, es: seq<Event>, w: World)
    requires Lawful(f) && cfg.params.total > 0.0 && Reaches(f, cfg, es, w) && Unfailed(w.outcome)
    ensures Early(w) <= |w.exec.orders| <= w.exec.idx && Early(w) <= |w.exec.schedule|
    ensures w.exec.orders[..Early(w)] == w.exec.schedule[..Early(w)]
  {
    hide Inv, Create, BuildSchedule;
    var clock: real, s: State :|
      Create(f, cfg) == Success(s) && LegalRun(f, Start(s, clock), es) && w == RunOf(f, Start(s, clock), es);
    StartKeeps(f, cfg, s, clock);
    CreateEmpty(f, cfg, s);
    RunFollowsPlan(f, Start(s, clock), es);
  }

  lemma CreateEmpty(f: Elementary, cfg: Config, s: State)
    requires Lawful(f) && Create(f, cfg) == Success(s)
    ensures s.idx == 0 && s.orders == [] && s.schedule != []
  {
    hide BuildSchedule;
  }

  lemma {:induction false} RunFollowsPlan(f: Elementary, w: World, es: seq<Event>)
    requires Lawful(f) && Inv(w) && FollowsPlan(w) && LegalRun(f, w, es)
    ensures FollowsPlan(RunOf(f, w, es))
    decreases |es|
  {
    hide Inv, Next, Legal, FollowsPlan;
    if es != [] {
      NextKeeps(f, w, es[0]);
      NextFollowsPlan(f, w, es[0]);
      RunFollowsPlan(f, Next(f, w, es[0]), es[1..]);
    }
  }

  lemma NextFollowsPlan(f: Elementary, w: World, e: Event)
    requires Lawful(f) && Inv(w) && FollowsPlan(w) && Legal(f, w, e)
    ensures FollowsPlan(Next(f, w, e))
  {
    match e
    case ControlTask(_, _, _, _) => ControlFollowsPlan(f, w, e);
    case OrderCompleted(_, _, _) => CompletionFollowsPlan(f, w, e);
    case OrderFailed(_) => FailureFollowsPlan(f, w, e);
    case StopRequest(_) =>
  }

  lemma CompletionFollowsPlan(f: Elementary, w: World, e: Event)
    requires Lawful(f) && Inv(w) && FollowsPlan(w) && Legal(f, w, e) && e.OrderCompleted?
    ensures FollowsPlan(Next(f, w, e))
  {
    hide Inv, Next, Legal, Unfailed;
    CompletionFrame(f, w, e);
    if e.id >= 0 { FilledUnfailed(w.outcome, e.id); }
  }

  lemma CompletionFrame(f: Elementary, w: World, e: Event)
    requires Lawful(f) && Legal(f, w, e) && e.OrderCompleted?
    ensures var t := Next(f, w, e);
            && t.exec.orders == w.exec.orders && t.exec.idx == w.exec.idx && t.exec.schedule == w.exec.schedule
            && (e.id < 0 ==> t.outcome == w.outcome)
            && (e.id >= 0 ==> e.id < |w.outcome| && w.outcome[e.id].Working? && t.outcome == w.outcome[e.id := Filled])
  {
    hide Honest, AllDone;
  }

  lemma FilledUnfailed(outcome: seq<Outcome>, id: nat)
    requires id < |outcome| && outcome[id].Working?
    ensures Unfailed(outcome[id := Filled]) <==> Unfailed(outcome)
  {
    var t := outcome[id := Filled];
    if Unfailed(t) {
      forall i | 0 <= i < |outcome| ensures !outcome[i].Unfilled? { assert !t[i].Unfilled?; }
    }
  }

  lemma FailureFollowsPlan(f: Elementary, w: World, e: Event)
    requires Lawful(f) && Ledger(w) && FollowsPlan(w) && Legal(f, w, e) && e.OrderFailed?
    ensures FollowsPlan(Next(f, w, e))
  {
    hide TakenBack, Without, Pending;
    PendingIds(w.outcome, e.id);
    if e.id >= 0 { assert Next(f, w, e).outcome[e.id].Unfilled?; }
  }

  lemma ControlFollowsPlan(f: Elementary, w: World, e: Event)
    requires Lawful(f) && Inv(w) && FollowsPlan(w) && Legal(f, w, e) && e.ControlTask?
    ensures FollowsPlan(Next(f, w, e))
  {
    hide SoundPlan, Pacing, Ending, Honest, Settled, Begun, Ticked, Next, Sum, Pending, NonNegative, Executing;
    if w.exec.status.Running? {
      RunningSends(f, w, e);
      NextKeeps(f, w, e);
      ControlOutcome(f, w, e);
      SentFollowsPlan(w, Next(f, w, e), e.now, e.view);
    } else {
      ClosedFrame(f, w, e);
    }
  }

  lemma ControlOutcome(f: Elementary, w: World, e: Event)
    requires Lawful(f) && e.ControlTask?
    ensures var t := Next(f, w, e);
            t.outcome == if |t.exec.orders| > |w.exec.orders| then w.outcome + [Working] else w.outcome
  {
    hide Control, Beyond, Settled;
  }

  lemma ClosedFrame(f: Elementary, w: World, e: Event)
    requires Lawful(f) && e.ControlTask? && !w.exec.status.Running?
    ensures var t := Next(f, w, e);
            && t.exec.orders == w.exec.orders && t.exec.idx == w.exec.idx && t.exec.schedule == w.exec.schedule
            && t.outcome == w.outcome
  {
    hide Tick, Beyond, Settled;
  }

  lemma SentFollowsPlan(w: World, t: World, now: real, view: OrderId -> OrderView)
    requires FollowsPlan(w) && Sends(w, t, now, view) && Ledger(w) && Ledger(t)
    requires w.exec.resolved ==> t.exec.schedule == w.exec.schedule
    requires t.outcome == if |t.exec.orders| > |w.exec.orders| then w.outcome + [Working] else w.outcome
    ensures FollowsPlan(t)
  {
    hide Executing, Sum, Pending, NonNegative, Elapsed, Remainder;
    if Unfailed(t.outcome) {
      assert Unfailed(w.outcome) by {
        forall i | 0 <= i < |w.outcome| ensures !w.outcome[i].Unfilled? { assert t.outcome[i] == w.outcome[i]; }
      }
      var k := Early(t);
      forall i | 0 <= i < k && i < |t.exec.orders| ensures t.exec.orders[i] == t.exec.schedule[i] {
        if i < Early(w) {
          assert w.exec.orders[..Early(w)][i] == w.exec.schedule[..Early(w)][i];
        }
      }
    }
  }

  // ---- What a stop reports -----------------------------------------------------------------------------

  /** A stop leaves RUNNING at once and is reported as POSITION_HOLD when the position is kept
      and as EARLY_STOP otherwise, from then on, until another stop. */
  lemma StopIsNamed(f: Elementary, w: World, e: Event, es: seq<Event>)
    requires Lawful(f) && e.StopRequest? && LegalRun(f, Next(f, w, e), es)
    requires forall k :: 0 <= k < |es| ==> !es[k].StopRequest?
    ensures Next(f, w, e).exec.status.ShuttingDown? && Next(f, w, e).exec.orders == w.exec.orders
    ensures var end := RunOf(f, Next(f, w, e), es).exec;
            && !end.status.Running? && end.orders == w.exec.orders
            && end.closeType == Some(if e.keepPosition then PA.PositionHold else PA.EarlyStop)
  {
    hide LegalRun, RunOf;
    RunNamed(f, Next(f, w, e), es);
  }

  lemma {:induction false} RunNamed(f: Elementary, w: World, es: seq<Event>)
    requires Lawful(f) && LegalRun(f, w, es) && !w.exec.status.Running? && w.exec.closeType.Some?
    requires forall k :: 0 <= k < |es| ==> !es[k].StopRequest?
    ensures var end := RunOf(f, w, es).exec;
            !end.status.Running? && end.closeType == w.exec.closeType && end.orders == w.exec.orders
    decreases |es|
  {
    hide Next, Legal;
    if es != [] {
      KeepsName(f, w, es[0]);
      RunNamed(f, Next(f, w, es[0]), es[1..]);
    }
  }

  lemma KeepsName(f: Elementary, w: World, e: Event)
    requires Lawful(f) && !e.StopRequest? && !w.exec.status.Running? && w.exec.closeType.Some?
    ensures var t := Next(f, w, e).exec;
            !t.status.Running? && t.closeType == w.exec.closeType && t.orders == w.exec.orders
  {
    hide Tick, Beyond, Settled, TakenBack, Without, AllDone;
  }
}
