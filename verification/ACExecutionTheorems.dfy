/**
 The guarantees of the Almgren-Chriss executor, stated for every legal run from a valid
 configuration.
 */
module ACExecutionTheorems {
  import opened Common
  import opened ACMath
  import opened ACShape
  import opened ACExecution
  import opened ACExecutionRuns
  import opened ACExecutionExposure
  import PA = PassiveAggressive

  // ---- Reachable worlds -----------------------------------------------------------------------------------

  ghost predicate Reaches(f: Elementary, cfg: Config, es: seq<Event>, w: World)
    requires Lawful(f)
  {
    exists clock: real, s: State ::
      Create(f, cfg) == Success(s) && LegalRun(f, Start(s, clock), es) && w == RunOf(f, Start(s, clock), es)
  }

  lemma StartKeeps(f: Elementary, cfg: Config, s: State, clock: real)
    requires Lawful(f) && cfg.params.total > 0.0 && Create(f, cfg) == Success(s)
    ensures Inv(Start(s, clock)) && Exposed(Start(s, clock))
  {
    CreateSound(f, cfg);
    hide BuildSchedule, SoundSchedule, Spans;
    assert s.schedule[..0] == [] && Pending([]) == [];
    assert Taken([], []) == [] && InFlight([], []) == [];
  }

  lemma ReachesInv(f: Elementary, cfg: Config, es: seq<Event>, w: World)
    requires Lawful(f) && cfg.params.total > 0.0 && Reaches(f, cfg, es, w)
    ensures Inv(w) && Exposed(w) && w.exec.cfg == cfg
  {
    hide BuildSchedule, Inv, Exposed, Create;
    var clock: real, s: State :|
      Create(f, cfg) == Success(s) && LegalRun(f, Start(s, clock), es) && w == RunOf(f, Start(s, clock), es);
    StartKeeps(f, cfg, s, clock);
    CreateConfig(f, cfg, s);
    RunKeeps(f, Start(s, clock), es);
    RunExposed(f, Start(s, clock), es);
  }

  lemma CreateConfig(f: Elementary, cfg: Config, s: State)
    requires Lawful(f) && Create(f, cfg) == Success(s)
    ensures s.cfg == cfg
  {
    hide BuildSchedule;
  }

  // ---- Exposure --------------------------------------------------------------------------------------------

  lemma SumSplits(s: seq<real>, k: nat)
    requires k <= |s|
    ensures Sum(s) == Sum(s[..k]) + Sum(s[k..])
  {
    assert s == s[..k] + s[k..];
    SumConcat(s[..k], s[k..]);
  }

  lemma CommittedParts(w: World)
    requires Inv(w) && Balanced(w)
    ensures |w.outcome| == |w.exec.orders| && w.exec.idx <= |w.exec.schedule|
    ensures Committed(w) == Sum(w.exec.schedule[..w.exec.idx]) + w.drift - w.shortfall
    ensures w.exec.cfg.params.total == Sum(w.exec.schedule[..w.exec.idx]) + Sum(w.exec.schedule[w.exec.idx..])
  {
    hide Pacing, Ending, Sum, Taken, InFlight, Pending;
    PlanPrefix(w.exec, w.exec.idx);
    SumSplits(w.exec.schedule, w.exec.idx);
  }

  /** In every run, whatever fails and whatever is in flight: filled plus in flight is the
      slices counted as sent, plus the drift, less what completions fell short. It exceeds
      the total exactly when the drift exceeds the slices still to send and the shortfall. */
  lemma CommitmentExactly(f: Elementary, cfg: Config, es: seq<Event>, w: World)
    requires Lawful(f) && cfg.params.total > 0.0 && Reaches(f, cfg, es, w)
    ensures |w.outcome| == |w.exec.orders| && w.exec.idx <= |w.exec.schedule|
    ensures Committed(w) == Sum(w.exec.schedule[..w.exec.idx]) + w.drift - w.shortfall
    ensures Committed(w) > cfg.params.total <==> w.drift > Sum(w.exec.schedule[w.exec.idx..]) + w.shortfall
  {
    hide Reaches, Inv, Exposed, Sum, Committed;
    ReachesInv(f, cfg, es, w);
    ExposedIsBalanced(w);
    CommittedParts(w);
  }

  /** A failure and the slice sent after it change the commitment by the slice re-sent less
      the order failed. The code re-sends the newest slice, not the failed one, so this is
      nothing when the newest order failed, and otherwise the total is exceeded exactly when
      the old commitment leaves less room than the difference. */
  lemma ResendExactly(f: Elementary, cfg: Config, es: seq<Event>, w: World, failure: Event, e: Event)
    requires Lawful(f) && cfg.params.total > 0.0 && Reaches(f, cfg, es, w)
    requires Legal(f, w, failure) && failure.OrderFailed? && failure.id >= 0
    requires w.exec.resolved && w.exec.idx < |w.exec.schedule|
    requires e.ControlTask? && Legal(f, Next(f, w, failure), e)
    requires |Next(f, Next(f, w, failure), e).exec.orders| > |w.exec.orders|
    ensures w.exec.idx > 0 && |w.outcome| == |w.exec.orders|
    ensures var t := Next(f, Next(f, w, failure), e);
            var change := w.exec.schedule[w.exec.idx - 1] - w.exec.orders[failure.id];
            && |t.outcome| == |t.exec.orders| && t.exec.orders[|w.exec.orders|] == w.exec.schedule[w.exec.idx - 1]
            && Committed(t) == Committed(w) + change
            && (Committed(t) > cfg.params.total <==> Committed(w) + change > cfg.params.total)
  {
    hide Reaches, Inv, Exposed, Legal, Next, Resolve;
    ReachesInv(f, cfg, es, w);
    ExposedIsBalanced(w);
    Resend(f, w, failure, e);
  }

  lemma ExposedIsBalanced(w: World)
    requires Inv(w) && Exposed(w)
    ensures Balanced(w)
  {
  }

  lemma Resend(f: Elementary, w: World, failure: Event, e: Event)
    requires Lawful(f) && Inv(w) && Balanced(w) && Legal(f, w, failure) && failure.OrderFailed? && failure.id >= 0
    requires w.exec.resolved && w.exec.idx < |w.exec.schedule|
    requires e.ControlTask? && Legal(f, Next(f, w, failure), e)
    requires |Next(f, Next(f, w, failure), e).exec.orders| > |w.exec.orders|
    ensures w.exec.idx > 0 && |w.outcome| == |w.exec.orders|
    ensures var t := Next(f, Next(f, w, failure), e);
            var change := w.exec.schedule[w.exec.idx - 1] - w.exec.orders[failure.id];
            && |t.outcome| == |t.exec.orders| && t.exec.orders[|w.exec.orders|] == w.exec.schedule[w.exec.idx - 1]
            && Committed(t) == Committed(w) + change
  {
    hide Sum, Taken, InFlight, Pending, Spaced, NonNegative, SoundPlan, AllDone, LiveExecuted, Without;
    var v := Next(f, w, failure);
    NextKeeps(f, w, failure);
    NextKeeps(f, v, e);
    EndedBalanced(f, w, failure);
    PendingIds(w.outcome, failure.id);
    PendingSize(w.outcome, failure.id);
    ResentSlice(f, v, e);
  }

  lemma ResentSlice(f: Elementary, v: World, e: Event)
    requires Lawful(f) && Inv(v) && Legal(f, v, e) && e.ControlTask? && Inv(Next(f, v, e)) && Balanced(v)
    requires v.exec.resolved && v.exec.idx < |v.exec.schedule| - 1
    requires |Next(f, v, e).exec.orders| > |v.exec.orders|
    ensures Committed(Next(f, v, e)) == Committed(v) + v.exec.schedule[v.exec.idx]
    ensures |Next(f, v, e).exec.orders| == |v.exec.orders| + 1
    ensures Next(f, v, e).exec.orders[|v.exec.orders|] == v.exec.schedule[v.exec.idx]
    ensures Next(f, v, e).exec.orders[..|v.exec.orders|] == v.exec.orders
  {
    hide Sum, Taken, Pending, Spaced, SoundPlan, Resolve, Begun, AllDone, Honest, BuildSchedule;
    BegunKeeps(f, v, e.now, e.candles, e.wall);
    TickFromBegun(f, v, e);
    InFlightPlaced(v.outcome, v.exec.orders, v.exec.schedule[v.exec.idx]);
  }

  /** Filled plus in flight never exceeds the total in any run that sends its last slice with
      nothing in flight, if only newest orders fail, or if the schedule is sheltered: then
      whichever orders fail, in whatever order. */
  lemma NeverOverCommitted(f: Elementary, cfg: Config, es: seq<Event>, w: World)
    requires Lawful(f) && cfg.params.total > 0.0 && Reaches(f, cfg, es, w)
    ensures |w.outcome| == |w.exec.orders|
    ensures !w.rushed && (!w.older || Sheltered(w.exec.schedule)) ==>
              Committed(w) <= cfg.params.total && w.exec.filled <= cfg.params.total
  {
    ReachesInv(f, cfg, es, w);
    hide Reaches, Pacing, Ending, Balanced;
    InFlightSign(w.outcome, w.exec.orders);
  }

  /** An unmerged clock-time schedule falls, so its runs never exceed the total whichever
      orders fail. */
  lemma ClockNeverOverCommitted(f: Elementary, cfg: Config, es: seq<Event>, w: World)
    requires Lawful(f) && cfg.params.total > 0.0 && Reaches(f, cfg, es, w)
    requires !cfg.volumeForecast && cfg.params.minSize.None? && !w.rushed
    ensures |w.outcome| == |w.exec.orders| && Committed(w) <= cfg.params.total
  {
    hide Inv, Exposed, BuildSchedule, Falling, Sheltered;
    var clock: real, s: State :|
      Create(f, cfg) == Success(s) && LegalRun(f, Start(s, clock), es) && w == RunOf(f, Start(s, clock), es);
    StartKeeps(f, cfg, s, clock);
    CreateFalls(f, cfg, s);
    RunKeepsPlan(f, Start(s, clock), es);
    SoundSchedules(f, cfg, s);
    FallingSheltered(s.schedule);
    NeverOverCommitted(f, cfg, es, w);
  }

  lemma CreateFalls(f: Elementary, cfg: Config, s: State)
    requires Lawful(f) && cfg.params.total > 0.0 && Create(f, cfg) == Success(s)
    requires !cfg.volumeForecast && cfg.params.minSize.None?
    ensures s.resolved && Falling(s.schedule)
  {
    CreateSound(f, cfg);
    var p := cfg.params;
    if p.riskAversion > 0.0 && p.volatility > 0.0 {
      ClockShape(f, p);
    } else {
      ZeroRiskIsEven(f, p);
      EqualFalls(s.schedule, p.intervals, p.total);
    }
  }

  lemma SoundSchedules(f: Elementary, cfg: Config, s: State)
    requires Lawful(f) && cfg.params.total > 0.0 && Create(f, cfg) == Success(s)
    ensures NonNegative(s.schedule) && s.schedule != []
  {
    CreateSound(f, cfg);
  }

  lemma EqualFalls(s: seq<real>, n: int, total: real)
    requires n > 0 && forall j :: 0 <= j < |s| ==> EqualPart(s[j], n, total)
    ensures Falling(s)
  {
    forall i, j | 0 <= i < j < |s| ensures s[i] >= s[j] {
      assert EqualPart(s[i], n, total) && EqualPart(s[j], n, total);
      MulLess(s[j], s[i], n as real);
    }
  }

  lemma TickedKeepsPlan(s: State, now: real, view: OrderId -> OrderView)
    ensures Ticked(s, now, view).resolved == s.resolved && Ticked(s, now, view).schedule == s.schedule
  {
    hide AllDone, LiveExecuted;
  }

  lemma NextKeepsPlan(f: Elementary, w: World, e: Event)
    requires Lawful(f) && w.exec.resolved
    ensures Next(f, w, e).exec.resolved && Next(f, w, e).exec.schedule == w.exec.schedule
  {
    hide BuildSchedule, Lawful, Sum, AllDone, Ticked, Beyond, TakenBack, Settled;
    if e.ControlTask? { TickedKeepsPlan(Begun(f, w.exec, e.now, e.candles, e.wall), e.now, e.view); }
  }

  lemma {:induction false} RunKeepsPlan(f: Elementary, w: World, es: seq<Event>)
    requires Lawful(f) && Inv(w) && LegalRun(f, w, es) && w.exec.resolved
    ensures RunOf(f, w, es).exec.schedule == w.exec.schedule
    decreases |es|
  {
    hide Inv, Next, Legal;
    if es != [] {
      NextKeeps(f, w, es[0]);
      NextKeepsPlan(f, w, es[0]);
      RunKeepsPlan(f, Next(f, w, es[0]), es[1..]);
    }
  }

  // ---- Outcome -----------------------------------------------------------------------------------------------

  /** A run that was not stopped ends only with every slice sent and every order ended. What
      is filled is then the total plus the drift less the shortfall, and COMPLETED is reported
      exactly when that reaches the total and the retries did not run out. */
  lemma RunsToCompletion(f: Elementary, cfg: Config, es: seq<Event>, w: World)
    requires Lawful(f) && cfg.params.total > 0.0 && Reaches(f, cfg, es, w)
    requires !w.stopped && !w.exec.status.Running?
    ensures w.exec.idx == |w.exec.schedule| && Settled(w.outcome)
    ensures w.exec.filled == cfg.params.total + w.drift - w.shortfall
    ensures !w.rushed && (!w.older || Sheltered(w.exec.schedule)) && w.shortfall == 0.0 ==>
              w.exec.filled == cfg.params.total
    ensures w.exec.status.Terminated? ==>
              && (w.exec.closeType == Some(PA.Failed) <==> w.exec.retries > cfg.maxRetries)
              && (w.exec.closeType == Some(PA.Completed) <==>
                    w.exec.retries <= cfg.maxRetries && w.exec.filled >= cfg.params.total)
              && (w.exec.closeType == Some(PA.TimeLimit) <==>
                    w.exec.retries <= cfg.maxRetries && w.exec.filled < cfg.params.total)
  {
    ReachesInv(f, cfg, es, w);
    hide Reaches, Pacing, BeforeLast, LastSent, Sum, Taken, Pending, InFlight;
    InFlightSign(w.outcome, w.exec.orders);
    PlanPrefix(w.exec, w.exec.idx);
  }

  /** A requested stop is what the executor reports, however the open orders end. */
  lemma StopIsReported(f: Elementary, cfg: Config, es: seq<Event>, w: World)
    requires Lawful(f) && cfg.params.total > 0.0 && Reaches(f, cfg, es, w) && w.stopped
    ensures w.exec.closeType == Some(PA.EarlyStop) || w.exec.closeType == Some(PA.PositionHold)
    ensures !w.exec.status.Running?
  {
    ReachesInv(f, cfg, es, w);
  }

  // The k-th entry comes at least k intervals after the first.
  ghost predicate After(times: seq<real>, k: nat, interval: real)
    requires k < |times|
  {
    times[k] - times[0] >= k as real * interval
  }

  /** Slices, retries included, are at least one interval apart, so the k-th order is sent
      no earlier than k intervals after the first. */
  lemma SlicesPaced(f: Elementary, cfg: Config, es: seq<Event>, w: World, k: nat)
    requires Lawful(f) && cfg.params.total > 0.0 && Reaches(f, cfg, es, w)
    requires k < |w.times|
    ensures |w.times| == |w.exec.orders| && Spans(w.exec.interval, w.exec.schedule, cfg.params.duration)
    ensures After(w.times, k, w.exec.interval)
  {
    ReachesInv(f, cfg, es, w);
    hide Reaches, Spans, Sum, SoundSchedule, Exposed, Ending, Spaced, Pending, After;
    SpacedSum(w.times, w.exec.interval, k);
  }

  lemma {:induction false} SpacedSum(times: seq<real>, interval: real, k: nat)
    requires Spaced(times, interval) && k < |times|
    ensures After(times, k, interval)
  {
    if k > 0 {
      SpacedSum(times, interval, k - 1);
      assert (k - 1) as real * interval == k as real * interval - interval;
      assert times[k - 1 + 1] - times[k - 1] >= interval;
    }
  }

  // A control task that sends the last slice.
  predicate SendsLast(f: Elementary, s: State, e: Event)
    requires Lawful(f)
  {
    |Apply(f, s, e).orders| > |s.orders| && Apply(f, s, e).idx == |Apply(f, s, e).schedule|
  }

  /** The last slice, in any state: afterwards the commitment misses the total by exactly
      what the other orders in flight have not executed yet. It exceeds the total exactly
      when they have something left to execute. */
  lemma LastSliceExactly(f: Elementary, w: World, e: Event)
    requires Lawful(f) && |w.outcome| == |w.exec.orders| && e.ControlTask? && SendsLast(f, w.exec, e)
    ensures var unexecuted := Sum(InFlight(w.outcome, w.exec.orders)) - LiveExecuted(w.exec.submitted, e.view);
            && |Next(f, w, e).outcome| == |Next(f, w, e).exec.orders|
            && Committed(Next(f, w, e)) == w.exec.cfg.params.total + unexecuted
            && (Committed(Next(f, w, e)) > w.exec.cfg.params.total <==> unexecuted > 0.0)
  {
    hide Resolve, Sum, InFlight, LiveExecuted, AllDone, Beyond, Settled;
    ResolveFrame(f, w.exec, e.candles, e.wall);
    var s := w.exec;
    var amount := s.cfg.params.total - s.filled - LiveExecuted(s.submitted, e.view);
    InFlightPlaced(w.outcome, s.orders, amount);
  }

  function Unexecuted(id: OrderId): OrderView { OrderView(false, 0.0) }

  function TickAt(now: real): Event { ControlTask(now, None, 0, Unexecuted) }

  lemma FirstOfTwo(f: Elementary, cfg: Config, s: State)
    requires Lawful(f) && cfg.params.total > 0.0 && Create(f, cfg) == Success(s)
    requires s.resolved && |s.schedule| == 2 && s.schedule[0] > 0.0
    ensures var w1 := Next(f, Start(s, 0.0), TickAt(0.0));
            && Legal(f, Start(s, 0.0), TickAt(0.0)) && w1.exec == Place(s.(started := Some(0.0)), 0.0, s.schedule[0])
            && w1.outcome == [Working] && w1.exec.orders == [s.schedule[0]] && w1.exec.submitted == [0]
            && w1.exec.cfg == cfg && w1.exec.filled == 0.0
            && |w1.exec.schedule| == 2 && w1.exec.idx == 1 && SendsLast(f, w1.exec, TickAt(s.interval))
            && w1.clock == 0.0
  {
    hide BuildSchedule, Tau;
    var e1 := TickAt(0.0);
    assert Apply(f, s, e1) == Place(s.(started := Some(0.0)), 0.0, s.schedule[0]);
    var w1 := Next(f, Start(s, 0.0), e1);
    LiveAppend([], 0, Unexecuted);
    assert [] + [0] == w1.exec.submitted;
  }

  lemma OneWorking(amount: real)
    ensures Sum(InFlight([Working], [amount])) == amount && LiveExecuted([0], Unexecuted) == 0.0
    ensures Honest([], [], Unexecuted) && (amount >= 0.0 ==> Honest([Working], [amount], Unexecuted))
  {
    LiveAppend([], 0, Unexecuted);
    assert [] + [0] == [0];
    assert InFlight([Working], [amount]) == [amount] && [amount] == [] + [amount];
    SumAppend([], amount);
  }

  lemma SecondOfTwo(f: Elementary, w1: World, first: real, now: real)
    requires Lawful(f)
    requires w1.outcome == [Working] && w1.exec.orders == [first] && w1.exec.submitted == [0]
    requires SendsLast(f, w1.exec, TickAt(now))
    ensures var w2 := Next(f, w1, TickAt(now));
            |w2.outcome| == |w2.exec.orders| && Committed(w2) == w1.exec.cfg.params.total + first
  {
    hide Resolve, Sum, LiveExecuted, InFlight, SendsLast, Committed, Next, Lawful;
    OneWorking(first);
    LastSliceExactly(f, w1, TickAt(now));
  }

  function TwoTicks(interval: real): seq<Event> { [TickAt(0.0), TickAt(interval)] }

  /** With the first of two slices still working when the second is due, the executor sends
      the whole total again: a legal run commits the total and the first slice. */
  lemma TwoSlicesOvertrade(f: Elementary, cfg: Config, s: State) returns (w: World)
    requires Lawful(f) && cfg.params.total > 0.0 && Create(f, cfg) == Success(s)
    requires s.resolved && |s.schedule| == 2 && s.schedule[0] > 0.0
    ensures Reaches(f, cfg, TwoTicks(s.interval), w)
    ensures |w.outcome| == |w.exec.orders| && Committed(w) == cfg.params.total + s.schedule[0]
  {
    hide Create, BuildSchedule, Next, Honest, LiveExecuted, Committed, SendsLast, Resolve;
    CreateSound(f, cfg);
    FirstOfTwo(f, cfg, s);
    OneWorking(s.schedule[0]);
    var w0, e1, e2 := Start(s, 0.0), TickAt(0.0), TickAt(s.interval);
    var w1 := Next(f, w0, e1);
    SecondOfTwo(f, w1, s.schedule[0], s.interval);
    RunOne(f, w0, e1);
    RunOne(f, w1, e2);
    RunConcat(f, w0, [e1], [e2]);
    w := Next(f, w1, e2);
    assert [e1] + [e2] == TwoTicks(s.interval);
  }

  // Under an honest view every order is done exactly when none is in flight.
  lemma DoneIsSettled(w: World, view: OrderId -> OrderView)
    requires Ledger(w) && Honest(w.outcome, w.exec.orders, view)
    ensures AllDone(w.exec, view) <==> w.exec.idx == |w.exec.schedule| && Settled(w.outcome)
  {
    if AllDone(w.exec, view) { DoneSettles(w, view); }
    if Settled(w.outcome) {
      forall i | 0 <= i < |w.exec.submitted| ensures view(w.exec.submitted[i]).done {
        PendingIds(w.outcome, w.exec.submitted[i]);
      }
    }
  }

  lemma CompletionReopens(f: Elementary, w: World, e: Event)
    requires Lawful(f) && Inv(w) && Legal(f, w, e) && w.exec.status.Terminated? && e.OrderCompleted?
    ensures !Next(f, w, e).exec.status.Terminated? <==>
              0 <= e.id && w.exec.idx == |w.exec.schedule| && Settled(Next(f, w, e).outcome)
  {
    hide BuildSchedule, Pacing, Ending, SoundPlan, AllDone;
    PendingIds(w.outcome, e.id);
    if 0 <= e.id {
      PendingUpdate(w.outcome, e.id);
      var filled := w.exec.(filled := w.exec.filled + e.executed);
      DoneIsSettled(w.(outcome := w.outcome[e.id := Filled], exec := filled), e.view);
    }
  }

  /** A terminated executor stays terminated unless it was stopped with its whole schedule
      sent and this completion ends the last open order: the callback then puts it back
      into SHUTTING_DOWN. */
  lemma ReopensExactly(f: Elementary, cfg: Config, es: seq<Event>, w: World, e: Event)
    requires Lawful(f) && cfg.params.total > 0.0 && Reaches(f, cfg, es, w)
    requires Legal(f, w, e) && w.exec.status.Terminated?
    ensures !Next(f, w, e).exec.status.Terminated? <==>
              && e.OrderCompleted? && 0 <= e.id && w.exec.idx == |w.exec.schedule|
              && Settled(Next(f, w, e).outcome)
    ensures !w.stopped ==> Next(f, w, e).exec.status.Terminated?
  {
    hide BuildSchedule, Reaches, Exposed, Pacing, SoundPlan, AllDone, Pending, Sum;
    ReachesInv(f, cfg, es, w);
    if e.OrderCompleted? { CompletionReopens(f, w, e); }
  }

  // ---- A run that fills completes ----------------------------------------------------------------------------

  function Shown(id: OrderId): OrderView { OrderView(true, 0.0) }

  ghost predicate Idle(w: World) {
    && Inv(w) && Exposed(w) && Calm(w) && w.exec.resolved && Settled(w.outcome)
    && !w.stopped && w.shortfall == 0.0 && w.exec.retries <= w.exec.cfg.maxRetries
  }

  ghost predicate Complete(w: World) {
    w.exec.status.Terminated? && w.exec.closeType == Some(PA.Completed) && w.exec.filled == w.exec.cfg.params.total
  }

  function DueTick(w: World): Event {
    ControlTask(
      if w.exec.lastSlice.Some? then Max(w.clock, w.exec.lastSlice.value + w.exec.interval) else w.clock,
      None, 0, Shown)
  }

  // One order went out, and it is the only one in flight.
  ghost predicate Sent(w: World, w1: World) {
    && |w1.outcome| == |w.outcome| + 1 == |w1.exec.orders|
    && w1.outcome == w.outcome + [Working]
  }

  // What a due tick keeps of an idle world.
  ghost predicate Continues(w: World, w1: World) {
    && Inv(w1) && Exposed(w1) && Calm(w1) && w1.exec.resolved && !w1.stopped && w1.shortfall == 0.0
    && w1.exec.retries == w.exec.retries && w1.exec.cfg == w.exec.cfg && w1.exec.schedule == w.exec.schedule
  }

  lemma IdleTick(f: Elementary, w: World)
    requires Lawful(f) && Idle(w) && w.exec.status.Running?
    ensures var w1 := Next(f, w, DueTick(w));
            && Legal(f, w, DueTick(w)) && Continues(w, w1)
            && if w.exec.idx == |w.exec.schedule| then Complete(w1)
               else w1.exec.status.Running? && w1.exec.idx == w.exec.idx + 1
                    && (Settled(w1.outcome) || Sent(w, w1))
  {
    hide Legal, Pending, Spaced, NonNegative, Balanced, Within, InFlight, Sum, SoundPlan;
    var e := DueTick(w);
    DueIsLegal(f, w);
    NextExposed(f, w, e);
    BegunKeeps(f, w, e.now, None, 0);
    TickFromBegun(f, w, e);
    DueTicked(w, Begun(f, w.exec, e.now, None, 0), e.now);
  }

  lemma DueTicked(w: World, b: State, now: real)
    requires Idle(w) && w.exec.status.Running? && !TooSoon(w.exec, now) && Honest(w.outcome, w.exec.orders, Shown)
    requires b == w.exec.(started := b.started)
    ensures var w1 := Advance(w.(exec := b), Ticked(b, now, Shown), now);
            && w1.rushed == w.rushed && w1.older == w.older && w1.stopped == w.stopped && w1.shortfall == w.shortfall
            && w1.exec.resolved && w1.exec.retries == w.exec.retries && w1.exec.cfg == w.exec.cfg
            && w1.exec.schedule == w.exec.schedule
            && if w.exec.idx == |w.exec.schedule| then Complete(w1)
               else w1.exec.status.Running? && w1.exec.idx == w.exec.idx + 1
                    && (Settled(w1.outcome) || Sent(w, w1))
  {
    hide Pending, Spaced, NonNegative, Balanced, Sum, InFlight, SoundPlan, Pacing, BeforeLast, LastSent;
    if w.exec.idx == |w.exec.schedule| {
      DoneIsSettled(w, Shown);
      InFlightSign(w.outcome, w.exec.orders);
    }
  }

  lemma DueIsLegal(f: Elementary, w: World)
    requires Lawful(f) && Idle(w)
    ensures Legal(f, w, DueTick(w)) && Honest(w.outcome, w.exec.orders, Shown)
    ensures DueTick(w).now >= w.clock && !TooSoon(w.exec, DueTick(w).now)
  {
    hide Sum, Begun, Ticked, Exposed, Ending, SoundState, Pacing;
  }

  lemma IdleFill(f: Elementary, w: World, w1: World)
    requires Lawful(f) && Inv(w1) && Exposed(w1) && Calm(w1) && w1.exec.resolved && w1.exec.status.Running?
    requires Settled(w.outcome) && Sent(w, w1)
    requires !w1.stopped && w1.shortfall == 0.0 && w1.exec.retries <= w1.exec.cfg.maxRetries
    ensures var e := OrderCompleted(|w.outcome|, w1.exec.orders[|w.outcome|], Shown);
            var w2 := Next(f, w1, e);
            && Legal(f, w1, e) && Idle(w2) && w2.exec.idx == w1.exec.idx && w2.exec.schedule == w1.exec.schedule
            && (w2.exec.status.Running? || w2.exec.status.ShuttingDown?)
  {
    hide Exposed, Sum, Sheltered, Pacing, SoundPlan, Pending, AllDone;
    var e := OrderCompleted(|w.outcome|, w1.exec.orders[|w.outcome|], Shown);
    NextExposed(f, w1, e);
    PendingIds(w1.outcome, e.id);
  }

  /** From any reachable state with nothing in flight, in a run that stayed within its total,
      sending what is due and filling it in full ends with the whole total filled and the
      executor COMPLETED. */
  lemma FullFillsComplete(f: Elementary, cfg: Config, es: seq<Event>, w: World) returns (rest: seq<Event>)
    requires Lawful(f) && cfg.params.total > 0.0 && Reaches(f, cfg, es, w)
    requires w.exec.resolved && Settled(w.outcome) && !w.exec.status.Terminated?
    requires !w.rushed && (!w.older || Sheltered(w.exec.schedule))
    requires !w.stopped && w.shortfall == 0.0 && w.exec.retries <= cfg.maxRetries
    ensures LegalRun(f, w, rest) && Complete(RunOf(f, w, rest))
  {
    ReachesInv(f, cfg, es, w);
    hide Reaches, Inv, Exposed, Complete;
    rest := IdleCompletes(f, w);
  }

  lemma {:induction false} IdleCompletes(f: Elementary, w: World) returns (es: seq<Event>)
    requires Lawful(f) && Idle(w) && (w.exec.status.Running? || w.exec.status.ShuttingDown?)
    ensures LegalRun(f, w, es) && Complete(RunOf(f, w, es))
    decreases |w.exec.schedule| - w.exec.idx, if w.exec.status.Running? then 1 else 0
  {
    hide Inv, Exposed, Legal, Next, Complete, Calm;
    var e := DueTick(w);
    var w1 := Next(f, w, e);
    if w.exec.status.ShuttingDown? {
      ClosingCompletes(f, w);
      es := [e];
      assert LegalRun(f, w1, []) && es[1..] == [];
    } else {
      IdleTick(f, w);
      Bounded(w);
      if w.exec.idx == |w.exec.schedule| {
        es := [e];
        assert LegalRun(f, w1, []) && es[1..] == [];
      } else if Settled(w1.outcome) {
        var rest := IdleCompletes(f, w1);
        es := [e] + rest;
        assert es[1..] == rest;
      } else {
        IdleFill(f, w, w1);
        var e2 := OrderCompleted(|w.outcome|, w1.exec.orders[|w.outcome|], Shown);
        var rest := IdleCompletes(f, Next(f, w1, e2));
        es := [e] + ([e2] + rest);
        assert es[1..] == [e2] + rest && ([e2] + rest)[1..] == rest;
      }
    }
  }

  lemma Bounded(w: World)
    requires Inv(w)
    ensures w.exec.idx <= |w.exec.schedule|
  {
  }

  lemma ClosingCompletes(f: Elementary, w: World)
    requires Lawful(f) && Idle(w) && w.exec.status.ShuttingDown?
    ensures Legal(f, w, DueTick(w)) && Complete(Next(f, w, DueTick(w)))
  {
    InFlightSign(w.outcome, w.exec.orders);
  }

  // ---- The connector must show an order as done ---------------------------------------------------------------

  ghost function ApplyAll(f: Elementary, s: State, es: seq<Event>): State
    requires Lawful(f)
  {
    if es == [] then s else Apply(f, ApplyAll(f, s, es[..|es| - 1]), es[|es| - 1])
  }

  // No view shows order id as done, nobody stops the run, and the order is not failed.
  predicate Unshown(e: Event, id: OrderId) {
    match e
    case ControlTask(_, _, _, view) => !view(id).done
    case OrderCompleted(_, _, view) => !view(id).done
    case OrderFailed(x) => x != id
    case StopRequest(_) => false
  }

  /** Nothing in the executor attaches a connector order to the tracked one. While no view
      shows some submitted order as done, and it has not failed, a running executor keeps
      running for ever, completions of all its orders reported or not. */
  lemma {:induction false} UnshownNeverEnds(f: Elementary, s: State, es: seq<Event>, id: OrderId)
    requires Lawful(f) && s.status.Running? && id in s.submitted
    requires forall k :: 0 <= k < |es| ==> Unshown(es[k], id)
    ensures ApplyAll(f, s, es).status.Running? && id in ApplyAll(f, s, es).submitted
  {
    if es != [] {
      var before := es[..|es| - 1];
      UnshownNeverEnds(f, s, before, id);
      UnshownStep(f, ApplyAll(f, s, before), es[|es| - 1], id);
    }
  }

  lemma UnshownStep(f: Elementary, s: State, e: Event, id: OrderId)
    requires Lawful(f) && s.status.Running? && id in s.submitted && Unshown(e, id)
    ensures Apply(f, s, e).status.Running? && id in Apply(f, s, e).submitted
  {
    hide BuildSchedule, Without, LiveExecuted;
    match e
    case ControlTask(_, _, _, _) =>
    case OrderCompleted(_, _, _) =>
    case OrderFailed(x) => StillIn(s.submitted, x, id);
    case StopRequest(_) =>
  }

  lemma {:induction false} StillIn(ids: seq<OrderId>, x: OrderId, id: OrderId)
    requires id in ids && x != id
    ensures id in Without(ids, x)
  {
    if ids[0] != x && ids[0] != id { StillIn(ids[1..], x, id); }
  }
}
