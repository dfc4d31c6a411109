/**
 Exactly which schedules keep the total: the worst that failures of older orders can do to a
 schedule, and a run that does it.
 */
module ACExecutionShelter {
  import opened Common
  import opened ACMath
  import opened ACShape
  import opened ACExecution
  import opened ACExecutionRuns
  import opened ACExecutionExposure
  import opened ACExecutionTheorems

  // ---- Sending a slice, and failing an order -----------------------------------------------

  // Nothing has filled, the last slice has not been sent, and every slice counted as sent is
  // in flight.
  ghost predicate Loose(w: World) {
    && Inv(w) && w.exec.resolved && w.exec.status.Running? && !w.rushed
    && |w.exec.submitted| == w.exec.idx < |w.exec.schedule|
    && forall i :: 0 <= i < |w.outcome| ==> !w.outcome[i].Filled?
  }

  // The amounts in flight, oldest first.
  ghost function Flying(w: World): seq<real>
    requires Ledger(w)
  {
    PendingRange(w.outcome);
    seq(|w.exec.submitted|, r requires 0 <= r < |w.exec.submitted| => w.exec.orders[w.exec.submitted[r]])
  }

  lemma LooseLedger(w: World)
    requires Loose(w)
    ensures Ledger(w) && |w.outcome| == |w.exec.orders| && !w.rushed && |Flying(w)| == w.exec.idx
  {
  }

  ghost predicate SamePlan(w: World, v: World) {
    v.exec.schedule == w.exec.schedule && v.exec.cfg == w.exec.cfg
  }

  function NextTick(w: World): Event {
    ControlTask(if w.exec.lastSlice.Some? then Max(w.clock, w.exec.lastSlice.value + w.exec.interval) else w.clock,
                None, 0, Unexecuted)
  }

  lemma Push(f: Elementary, w: World)
    requires Lawful(f) && Loose(w) && Balanced(w) && w.exec.idx < |w.exec.schedule| - 1
    ensures Legal(f, w, NextTick(w))
    ensures var v := Next(f, w, NextTick(w)); var x := w.exec.schedule[w.exec.idx];
            && Loose(v) && Balanced(v) && SamePlan(w, v)
            && Flying(v) == Flying(w) + [x] && Committed(v) == Committed(w) + x
  {
    hide Balanced, SoundPlan, Sum, InFlight, Spaced, Resolve, Ticked, LiveExecuted, Settled, Ending;
    var e, s := NextTick(w), w.exec;
    PushLegal(f, w);
    ResolveFrame(f, s, None, 0);
    NextBalanced(f, w, e);
    BegunKeeps(f, w, e.now, None, 0);
    TickFromBegun(f, w, e);
    BegunBalanced(f, w, e);
    var b := w.(exec := Begun(f, s, e.now, None, 0));
    PushPlaced(b, e.now, Unexecuted);
  }

  lemma PushLegal(f: Elementary, w: World)
    requires Lawful(f) && Loose(w)
    ensures Legal(f, w, NextTick(w)) && Honest(w.outcome, w.exec.orders, Unexecuted)
    ensures !TooSoon(w.exec, NextTick(w).now)
  {
    hide Sum, Pending, SoundState, Pacing, Ending;
  }

  lemma PushPlaced(b: World, now: real, view: OrderId -> OrderView)
    requires Loose(b) && Balanced(b) && b.exec.idx < |b.exec.schedule| - 1 && !TooSoon(b.exec, now)
    requires var v := Advance(b, Ticked(b.exec, now, view), now); Inv(v)
    ensures var v := Advance(b, Ticked(b.exec, now, view), now); var x := b.exec.schedule[b.exec.idx];
            && Loose(v) && SamePlan(b, v)
            && Flying(v) == Flying(b) + [x] && Committed(v) == Committed(b) + x
  {
    hide Balanced, SoundPlan, Sum, InFlight, Spaced, LiveExecuted, Settled, Pacing, Ending, AllDone;
    var x := b.exec.schedule[b.exec.idx];
    var v := Advance(b, Place(b.exec, now, x), now);
    PlacedBalanced(b, now, x);
    PendingRange(b.outcome);
    assert Pending(b.outcome + [Working]) == Pending(b.outcome) + [|b.outcome|] by {
      assert (b.outcome + [Working])[..|b.outcome|] == b.outcome;
    }
  }

  lemma Drop(f: Elementary, w: World, r: nat)
    requires Lawful(f) && Loose(w) && Balanced(w) && r < w.exec.idx
    ensures var e := OrderFailed(w.exec.submitted[r]);
            && Legal(f, w, e)
            && var v := Next(f, w, e);
               && Loose(v) && Balanced(v) && SamePlan(w, v)
               && Flying(v) == Flying(w)[..r] + Flying(w)[r + 1..]
               && Committed(v) == Committed(w) - Flying(w)[r]
  {
    hide Balanced, SoundPlan, Sum, InFlight, Spaced, Pacing, Ending, Without, Pending;
    var id := w.exec.submitted[r];
    var e := OrderFailed(id);
    PendingRange(w.outcome);
    PendingIds(w.outcome, id);
    NextBalanced(f, w, e);
    EndedBalanced(f, w, e);
    PendingFailed(w.outcome, id);
    PendingDistinct(w.outcome, r);
    var v := Next(f, w, e);
    PendingRange(v.outcome);
    assert v.exec.submitted == w.exec.submitted[..r] + w.exec.submitted[r + 1..];
  }

  // Ids are listed once, in order.
  lemma {:induction false} PendingRises(outcome: seq<Outcome>)
    ensures forall i, j :: 0 <= i < j < |Pending(outcome)| ==> Pending(outcome)[i] < Pending(outcome)[j]
  {
    if outcome != [] {
      PendingRises(outcome[..|outcome| - 1]);
      PendingRange(outcome[..|outcome| - 1]);
    }
  }

  lemma PendingDistinct(outcome: seq<Outcome>, r: nat)
    requires r < |Pending(outcome)|
    ensures var p := Pending(outcome); Without(p, p[r]) == p[..r] + p[r + 1..]
  {
    hide Pending, Without;
    PendingRises(outcome);
    var p := Pending(outcome);
    var k := WithoutAt(p, p[r]);
  }

  // ---- The worst run -----------------------------------------------------------------------

  // Slice j in place of the next one: send all up to it, then fail those between.
  lemma {:induction false} Lift(f: Elementary, w: World, j: nat) returns (es: seq<Event>)
    requires Lawful(f) && Loose(w) && Balanced(w) && w.exec.idx <= j < |w.exec.schedule| - 1
    ensures LegalRun(f, w, es)
    ensures var v := RunOf(f, w, es); var x := w.exec.schedule[j];
            && Loose(v) && Balanced(v) && SamePlan(w, v)
            && Flying(v) == Flying(w) + [x] && Committed(v) == Committed(w) + x
    decreases j - w.exec.idx
  {
    hide Balanced, Next, Legal, Inv, Pending, NextTick;
    var e := NextTick(w);
    Push(f, w);
    RunOne(f, w, e);
    if j == w.exec.idx {
      es := [e];
    } else {
      var v := Next(f, w, e);
      var rest := Lift(f, v, j);
      var u := RunOf(f, v, rest);
      var r := w.exec.idx;
      LooseLedger(w);
      Drop(f, u, r);
      var failure := OrderFailed(u.exec.submitted[r]);
      RunOne(f, u, failure);
      RunConcat(f, v, rest, [failure]);
      RunConcat(f, w, [e], rest + [failure]);
      es := [e] + (rest + [failure]);
    }
  }

  lemma PeakAt(schedule: seq<real>, r: nat) returns (j: nat)
    requires r < |schedule| - 1
    ensures r <= j < |schedule| - 1 && |Peaks(schedule)| == |schedule| - 1 && schedule[j] == Peaks(schedule)[r]
  {
    var early := schedule[..|schedule| - 1];
    j :| r <= j < |early| && early[j] == Peak(early, r);
  }

  // The largest slice still possible in every place, up to the last slice.
  lemma {:induction false} LiftAll(f: Elementary, w: World) returns (es: seq<Event>)
    requires Lawful(f) && Loose(w) && Balanced(w)
    ensures LegalRun(f, w, es)
    ensures var v := RunOf(f, w, es); var peaks := Peaks(w.exec.schedule);
            && Loose(v) && SamePlan(w, v) && w.exec.idx <= |peaks|
            && Committed(v) == Committed(w) + Sum(peaks) - Sum(peaks[..w.exec.idx])
    decreases |w.exec.schedule| - w.exec.idx
  {
    hide Balanced, Next, Legal, Inv, Pending, Sum, Peaks, Committed;
    PeaksFall(w.exec.schedule);
    var s, r := w.exec.schedule, w.exec.idx;
    var peaks := Peaks(s);
    if r == |s| - 1 {
      es := [];
      assert peaks[..r] == peaks;
    } else {
      var j := PeakAt(s, r);
      var first := Lift(f, w, j);
      var v := RunOf(f, w, first);
      var rest := LiftAll(f, v);
      RunConcat(f, w, first, rest);
      es := first + rest;
      assert peaks[..r + 1] == peaks[..r] + [peaks[r]];
      SumAppend(peaks[..r], peaks[r]);
    }
  }

  // The runs that follow a first control task.
  ghost predicate Follows(f: Elementary, w: World, es: seq<Event>)
    requires Lawful(f)
  {
    LegalRun(f, w, es) && !RunOf(f, w, es).rushed
  }

  /** The first tick fixes the schedule. With two slices at least, some run after it that
      never rushes its last slice commits every peak of that schedule at once. */
  lemma WorstIsReached(f: Elementary, cfg: Config, s: State, clock: real, e: Event) returns (es: seq<Event>)
    requires Lawful(f) && cfg.params.total > 0.0 && Create(f, cfg) == Success(s)
    requires e.ControlTask? && Legal(f, Start(s, clock), e) && |Next(f, Start(s, clock), e).exec.schedule| >= 2
    ensures var w := Next(f, Start(s, clock), e);
            && Follows(f, w, es)
            && var v := RunOf(f, w, es);
               |v.outcome| == |v.exec.orders| && Committed(v) == Sum(Peaks(w.exec.schedule))
  {
    hide Balanced, Next, Legal, Inv, Pending, Sum, Create, Peaks, Committed;
    var w := Next(f, Start(s, clock), e);
    FirstTick(f, cfg, s, clock, e);
    var failure := OrderFailed(w.exec.submitted[0]);
    Drop(f, w, 0);
    RunOne(f, w, failure);
    var v := Next(f, w, failure);
    var rest := LiftAll(f, v);
    RunConcat(f, w, [failure], rest);
    es := [failure] + rest;
    assert Peaks(w.exec.schedule)[..0] == [];
    SumZero([]);
    LooseLedger(RunOf(f, w, es));
  }

  // After the first tick the first slice is in flight, and nothing else.
  lemma FirstTick(f: Elementary, cfg: Config, s: State, clock: real, e: Event)
    requires Lawful(f) && cfg.params.total > 0.0 && Create(f, cfg) == Success(s)
    requires e.ControlTask? && Legal(f, Start(s, clock), e) && |Next(f, Start(s, clock), e).exec.schedule| >= 2
    ensures var w := Next(f, Start(s, clock), e);
            Loose(w) && Balanced(w) && w.exec.idx == 1 && Committed(w) == Flying(w)[0] && |Flying(w)| == 1
  {
    hide Create, BuildSchedule, SoundPlan, Exposed, Sum, InFlight, Balanced, Spaced, Begun, Ticked, LiveExecuted,
         Ending, Pacing, Beyond, Advance, Next, Honest, Resolve;
    var w0 := Start(s, clock);
    StartKeeps(f, cfg, s, clock);
    ExposedIsBalanced(w0);
    StartFresh(f, cfg, s);
    NextBalanced(f, w0, e);
    BegunKeeps(f, w0, e.now, e.candles, e.wall);
    TickFromBegun(f, w0, e);
    BegunBalanced(f, w0, e);
    var b := w0.(exec := Begun(f, s, e.now, e.candles, e.wall));
    TickedKeepsPlan(b.exec, e.now, e.view);
    AdvancedExec(b, Ticked(b.exec, e.now, e.view), e.now);
    NothingCommitted(w0);
    PushPlaced(b, e.now, e.view);
  }

  lemma AdvancedExec(w: World, t: State, now: real)
    ensures Advance(w, t, now).exec == t
  {
  }

  lemma NothingCommitted(w: World)
    requires w.exec.orders == [] && w.outcome == [] && w.exec.filled == 0.0
    ensures Committed(w) == 0.0
  {
    SumZero(InFlight(w.outcome, w.exec.orders));
  }

  lemma StartFresh(f: Elementary, cfg: Config, s: State)
    requires Lawful(f) && Create(f, cfg) == Success(s)
    ensures s.status.Running? && s.orders == [] && s.lastSlice.None? && s.filled == 0.0 && s.idx == 0
  {
    hide BuildSchedule;
  }

  // No run that never rushes its last slice commits more than the total.
  ghost predicate Kept(f: Elementary, w: World)
    requires Lawful(f)
  {
    forall es :: Follows(f, w, es) ==>
      var v := RunOf(f, w, es);
      |v.outcome| == |v.exec.orders| && Committed(v) <= w.exec.cfg.params.total
  }

  /** Whichever orders fail, in whatever order, no run that sends its last slice with nothing
      in flight exceeds the total, if and only if the schedule that the first tick fixed is
      sheltered. */
  lemma ShelteredExactly(f: Elementary, cfg: Config, s: State, clock: real, e: Event)
    requires Lawful(f) && cfg.params.total > 0.0 && Create(f, cfg) == Success(s)
    requires e.ControlTask? && Legal(f, Start(s, clock), e)
    ensures var w := Next(f, Start(s, clock), e); Kept(f, w) <==> Sheltered(w.exec.schedule)
  {
    hide Next, Legal, Inv, Exposed, Create, Sheltered, RunOf, LegalRun, Committed;
    var w := Next(f, Start(s, clock), e);
    if Sheltered(w.exec.schedule) {
      forall es | Follows(f, w, es)
        ensures var v := RunOf(f, w, es);
                |v.outcome| == |v.exec.orders| && Committed(v) <= w.exec.cfg.params.total
      {
        ShelteredKeeps(f, cfg, s, clock, e, es);
      }
    } else {
      UnshelteredBreaks(f, cfg, s, clock, e);
    }
  }

  lemma PlanOf(f: Elementary, cfg: Config, s: State, clock: real, e: Event)
    requires Lawful(f) && cfg.params.total > 0.0 && Create(f, cfg) == Success(s)
    requires e.ControlTask? && Legal(f, Start(s, clock), e)
    ensures var w := Next(f, Start(s, clock), e);
            && Inv(w) && w.exec.resolved && w.exec.cfg == cfg && w.exec.schedule != []
            && Sum(w.exec.schedule) == cfg.params.total
  {
    StartKeeps(f, cfg, s, clock);
    CreateConfig(f, cfg, s);
    StartFresh(f, cfg, s);
    NextKeeps(f, Start(s, clock), e);
    hide Create, BuildSchedule, Exposed, Sum, Balanced, Spaced, Begun, Ticked, Ending, Pacing, Pending;
    BegunKeeps(f, Start(s, clock), e.now, e.candles, e.wall);
    TickFromBegun(f, Start(s, clock), e);
  }

  lemma ShelteredKeeps(f: Elementary, cfg: Config, s: State, clock: real, e: Event, es: seq<Event>)
    requires Lawful(f) && cfg.params.total > 0.0 && Create(f, cfg) == Success(s)
    requires e.ControlTask? && Legal(f, Start(s, clock), e)
    requires var w := Next(f, Start(s, clock), e); Follows(f, w, es) && Sheltered(w.exec.schedule)
    ensures var w := Next(f, Start(s, clock), e); var v := RunOf(f, w, es);
            |v.outcome| == |v.exec.orders| && Committed(v) <= w.exec.cfg.params.total
  {
    hide Next, Legal, Inv, Exposed, Create, Sheltered, Committed;
    var w0 := Start(s, clock);
    var w := Next(f, w0, e);
    PlanOf(f, cfg, s, clock, e);
    RunOne(f, w0, e);
    RunConcat(f, w0, [e], es);
    assert Reaches(f, cfg, [e] + es, RunOf(f, w, es));
    RunKeepsPlan(f, w, es);
    NeverOverCommitted(f, cfg, [e] + es, RunOf(f, w, es));
  }

  lemma OnlySlice(schedule: seq<real>)
    requires |schedule| == 1 && Sum(schedule) >= 0.0
    ensures Sheltered(schedule)
  {
    SumZero(Peaks(schedule));
  }

  lemma UnshelteredBreaks(f: Elementary, cfg: Config, s: State, clock: real, e: Event)
    requires Lawful(f) && cfg.params.total > 0.0 && Create(f, cfg) == Success(s)
    requires e.ControlTask? && Legal(f, Start(s, clock), e)
    requires !Sheltered(Next(f, Start(s, clock), e).exec.schedule)
    ensures !Kept(f, Next(f, Start(s, clock), e))
  {
    hide Next, Legal, Inv, Create, RunOf, LegalRun, Committed;
    var w := Next(f, Start(s, clock), e);
    PlanOf(f, cfg, s, clock, e);
    if |w.exec.schedule| == 1 { OnlySlice(w.exec.schedule); }
    var es := WorstIsReached(f, cfg, s, clock, e);
    assert Follows(f, w, es);
  }
}
