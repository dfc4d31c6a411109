/**
 What the Almgren-Chriss executor has committed: an exact account for every legal run, and
 the runs in which the commitment stays within the total.
 */
module ACExecutionExposure {
  import opened Common
  import opened ACMath
  import opened ACShape
  import opened ACExecution
  import opened ACExecutionRuns

  // ---- The account ------------------------------------------------------------------------

  // The amounts of the orders not known to have failed.
  function Taken(outcome: seq<Outcome>, orders: seq<real>): seq<real>
    requires |outcome| == |orders|
  {
    seq(|orders|, i requires 0 <= i < |orders| => if outcome[i].Unfilled? then 0.0 else orders[i])
  }

  // Filled and in flight are the orders not failed less what completions fell short; and
  // those orders are the slices counted as sent, but for the drift.
  ghost predicate Balanced(w: World)
    requires Ledger(w)
  {
    var taken := Sum(Taken(w.outcome, w.exec.orders));
    Committed(w) == taken - w.shortfall && taken == Sum(w.exec.schedule[..w.exec.idx]) + w.drift
  }

  lemma TakenPlaced(outcome: seq<Outcome>, orders: seq<real>, amount: real)
    requires |outcome| == |orders|
    ensures Sum(Taken(outcome + [Working], orders + [amount])) == Sum(Taken(outcome, orders)) + amount
  {
    assert Taken(outcome + [Working], orders + [amount]) == Taken(outcome, orders) + [amount];
    SumAppend(Taken(outcome, orders), amount);
  }

  lemma TakenEnded(outcome: seq<Outcome>, orders: seq<real>, id: nat)
    requires |outcome| == |orders| && id < |outcome| && outcome[id].Working?
    ensures Taken(outcome[id := Filled], orders) == Taken(outcome, orders)
    ensures Sum(Taken(outcome[id := Unfilled], orders)) == Sum(Taken(outcome, orders)) - orders[id]
  {
    assert Taken(outcome[id := Unfilled], orders) == Taken(outcome, orders)[id := 0.0];
    SumUpdate(Taken(outcome, orders), id, 0.0);
  }

  lemma PlacedBalanced(w: World, now: real, amount: real)
    requires Inv(w) && Balanced(w) && w.exec.resolved && w.exec.idx < |w.exec.schedule| && amount >= 0.0
    requires var t := Advance(w, Place(w.exec, now, amount), now); Ledger(t)
    ensures var t := Advance(w, Place(w.exec, now, amount), now);
            Balanced(t) && Committed(t) == Committed(w) + amount
  {
    hide Sum, Taken, InFlight, Pending, SoundPlan, Pacing, Ending, Spaced, NonNegative;
    InFlightPlaced(w.outcome, w.exec.orders, amount);
    TakenPlaced(w.outcome, w.exec.orders, amount);
    PlanPrefix(w.exec, w.exec.idx);
  }

  lemma PlanPrefix(s: State, k: nat)
    requires SoundState(s) && k <= |s.schedule|
    ensures 0.0 <= Sum(s.schedule[..k]) <= s.cfg.params.total
    ensures k < |s.schedule| ==> Sum(s.schedule[..k + 1]) == Sum(s.schedule[..k]) + s.schedule[k]
    ensures s.schedule[..|s.schedule|] == s.schedule && Sum(s.schedule) == s.cfg.params.total
  {
    SchedulePrefix(s.schedule, k);
  }

  lemma SkippedBalanced(w: World, now: real)
    requires Inv(w) && Balanced(w) && w.exec.resolved && w.exec.idx < |w.exec.schedule|
    requires var t := Advance(w, w.exec.(idx := w.exec.idx + 1), now); Ledger(t)
    ensures var t := Advance(w, w.exec.(idx := w.exec.idx + 1), now);
            Balanced(t) && Committed(t) == Committed(w)
  {
    hide Sum, Taken, InFlight, Pending, SoundPlan, Pacing, Ending, Spaced, NonNegative;
    PlanPrefix(w.exec, w.exec.idx);
  }

  lemma SubmitBalanced(w: World, now: real, view: OrderId -> OrderView)
    requires Inv(w) && Balanced(w) && w.exec.resolved && w.exec.idx < |w.exec.schedule|
    requires w.exec.status.Running? && Honest(w.outcome, w.exec.orders, view) && !TooSoon(w.exec, now)
    requires Inv(Advance(w, SubmitNextSlice(w.exec, now, view), now))
    ensures Balanced(Advance(w, SubmitNextSlice(w.exec, now, view), now))
  {
    hide Sum, Pending, InFlight, LiveExecuted, Spaced, Beyond, Settled, Balanced, Pacing, Ending, Taken;
    var s := w.exec;
    if s.idx == |s.schedule| - 1 {
      var amount := s.cfg.params.total - s.filled - LiveExecuted(s.submitted, view);
      if amount > 0.0 { PlacedBalanced(w, now, amount); } else { SkippedBalanced(w, now); }
    } else {
      PlacedBalanced(w, now, s.schedule[s.idx]);
    }
  }

  lemma TickedBalanced(w: World, now: real, view: OrderId -> OrderView)
    requires Inv(w) && Balanced(w) && w.exec.resolved && w.exec.status.Running?
    requires Honest(w.outcome, w.exec.orders, view)
    requires Inv(Advance(w, Ticked(w.exec, now, view), now))
    ensures Balanced(Advance(w, Ticked(w.exec, now, view), now))
  {
    hide Sum, Pending, InFlight, LiveExecuted, Spaced, Settled, Pacing, Ending, Taken, SoundPlan, Honest,
         SubmitNextSlice, AllDone;
    var s := w.exec;
    if s.idx < |s.schedule| && !TooSoon(s, now) {
      SubmitBalanced(w, now, view);
    } else {
      assert Committed(Advance(w, Ticked(s, now, view), now)) == Committed(w);
    }
  }

  // Before the first slice nothing depends on the schedule.
  lemma BegunBalanced(f: Elementary, w: World, e: Event)
    requires Lawful(f) && Inv(w) && Balanced(w) && e.ControlTask? && w.exec.status.Running?
    requires var b := Begun(f, w.exec, e.now, e.candles, e.wall); Inv(w.(exec := b))
    ensures var b := Begun(f, w.exec, e.now, e.candles, e.wall);
            Balanced(w.(exec := b)) && Committed(w.(exec := b)) == Committed(w)
  {
    BegunKeeps(f, w, e.now, e.candles, e.wall);
    hide Begun, SoundPlan, Pending, Spaced, Taken, Ending, Pacing, Honest;
    var b := Begun(f, w.exec, e.now, e.candles, e.wall);
    if !w.exec.resolved { assert b.schedule[..0] == [] == w.exec.schedule[..0]; }
  }

  lemma NextBalanced(f: Elementary, w: World, e: Event)
    requires Lawful(f) && Inv(w) && Legal(f, w, e) && Balanced(w)
    ensures Inv(Next(f, w, e)) && Balanced(Next(f, w, e))
  {
    NextKeeps(f, w, e);
    hide Inv, Legal, Next, Balanced;
    match e
    case ControlTask(_, _, _, _) => ControlBalanced(f, w, e);
    case OrderCompleted(_, _, _) => EndedBalanced(f, w, e);
    case OrderFailed(_) => EndedBalanced(f, w, e);
    case StopRequest(_) => StoppedBalanced(f, w, e);
  }

  lemma StoppedBalanced(f: Elementary, w: World, e: Event)
    requires Lawful(f) && Inv(w) && Balanced(w) && e.StopRequest? && Inv(Next(f, w, e))
    ensures Balanced(Next(f, w, e))
  {
    hide Sum, Pending, InFlight, Taken, SoundPlan, Pacing, Ending;
    assert Committed(Next(f, w, e)) == Committed(w);
  }

  lemma ControlBalanced(f: Elementary, w: World, e: Event)
    requires Lawful(f) && Inv(w) && Legal(f, w, e) && Balanced(w) && e.ControlTask? && Inv(Next(f, w, e))
    ensures Balanced(Next(f, w, e))
  {
    hide Sum, Pending, InFlight, Taken, SoundPlan, Pacing, Ending, Begun, Ticked, Balanced, Honest, Lawful, Resolve;
    if w.exec.status.Running? {
      BegunKeeps(f, w, e.now, e.candles, e.wall);
      BegunBalanced(f, w, e);
      TickFromBegun(f, w, e);
      TickedBalanced(w.(exec := Begun(f, w.exec, e.now, e.candles, e.wall)), e.now, e.view);
    } else {
      ClosedBalanced(f, w, e);
    }
  }

  lemma ClosedBalanced(f: Elementary, w: World, e: Event)
    requires Lawful(f) && Inv(w) && Balanced(w) && e.ControlTask? && !w.exec.status.Running? && Inv(Next(f, w, e))
    ensures Balanced(Next(f, w, e)) && Committed(Next(f, w, e)) == Committed(w)
  {
    hide Sum, Pending, InFlight, Taken, SoundPlan, Pacing, Ending, Tick;
    assert Committed(Next(f, w, e)) == Committed(w);
  }

  lemma EndedBalanced(f: Elementary, w: World, e: Event)
    requires Lawful(f) && Inv(w) && Legal(f, w, e) && Balanced(w) && Inv(Next(f, w, e))
    requires e.OrderCompleted? || e.OrderFailed?
    ensures Balanced(Next(f, w, e))
    ensures 0 <= e.id ==>
              Committed(Next(f, w, e))
              == Committed(w) - w.exec.orders[e.id] + (if e.OrderCompleted? then e.executed else 0.0)
  {
    hide Sum, Pending, InFlight, Taken, SoundPlan, Pacing, Ending, Without, AllDone, Honest, NonNegative;
    PendingIds(w.outcome, e.id);
    if 0 <= e.id {
      InFlightEnded(w.outcome, w.exec.orders, e.id, if e.OrderCompleted? then Filled else Unfilled);
      TakenEnded(w.outcome, w.exec.orders, e.id);
      PendingSize(w.outcome, e.id);
      PlanPrefix(w.exec, w.exec.idx - 1);
    }
  }

  lemma PendingSize(outcome: seq<Outcome>, id: nat)
    requires id < |outcome| && !outcome[id].Unfilled?
    ensures |Pending(outcome)| >= 1
  {
    PendingIds(outcome, id);
  }

  // ---- When the commitment stays within the total --------------------------------------------

  function Peak(s: seq<real>, r: nat): (p: real)
    requires r < |s|
    ensures forall j :: r <= j < |s| ==> s[j] <= p
    ensures exists j :: r <= j < |s| && s[j] == p
    decreases |s| - r
  {
    if r == |s| - 1 then s[r] else Max(s[r], Peak(s, r + 1))
  }

  // For each slice before the last, the largest slice from it on, the last one apart.
  function Peaks(schedule: seq<real>): seq<real> {
    if schedule == [] then []
    else
      var early := schedule[..|schedule| - 1];
      seq(|early|, r requires 0 <= r < |early| => Peak(early, r))
  }

  /** Were every slice before the last replaced by the largest one from it on, the schedule
      would still not exceed its total. */
  ghost predicate Sheltered(schedule: seq<real>) { Sum(Peaks(schedule)) <= Sum(schedule) }

  lemma PeaksFall(schedule: seq<real>)
    requires schedule != []
    ensures Falling(Peaks(schedule)) && |Peaks(schedule)| == |schedule| - 1
    ensures forall r, j :: 0 <= r <= j < |schedule| - 1 ==> schedule[j] <= Peaks(schedule)[r]
  {
    var early := schedule[..|schedule| - 1];
    forall r, j | 0 <= r <= j < |early| ensures schedule[j] <= Peaks(schedule)[r] { assert early[j] == schedule[j]; }
    forall i, j | 0 <= i < j < |early| ensures Peaks(schedule)[i] >= Peaks(schedule)[j] {
      var k :| j <= k < |early| && early[k] == Peak(early, j);
    }
  }

  lemma FallingSheltered(schedule: seq<real>)
    requires Falling(schedule) && NonNegative(schedule)
    ensures Sheltered(schedule)
  {
    if schedule != [] {
      var n := |schedule| - 1;
      var early := schedule[..n];
      forall r | 0 <= r < n ensures Peaks(schedule)[r] == early[r] {
        var k :| r <= k < n && early[k] == Peak(early, r);
      }
      assert Peaks(schedule) == early;
    }
  }

  // Order by order, no later failure apart, what was taken is within the caps.
  ghost predicate Ranked(outcome: seq<Outcome>, orders: seq<real>, caps: seq<real>)
    requires |outcome| == |orders|
  {
    var p := Pending(outcome);
    |p| <= |caps| && forall r :: 0 <= r < |p| ==> 0 <= p[r] < |orders| && orders[p[r]] <= caps[r]
  }

  // What the r-th order still taken may be worth: its own slice, or after failures of older
  // orders any later one.
  function Caps(w: World): seq<real> {
    if w.older then Peaks(w.exec.schedule)
    else if w.exec.schedule == [] then [] else w.exec.schedule[..|w.exec.schedule| - 1]
  }

  // The last slice was sent with nothing else in flight, and only newest orders failed, or
  // the schedule is sheltered.
  ghost predicate Calm(w: World) { !w.rushed && (!w.older || Sheltered(w.exec.schedule)) }

  lemma CapsWithin(w: World)
    requires SoundState(w.exec) && Calm(w) && w.exec.schedule != []
    ensures |Caps(w)| == |w.exec.schedule| - 1
    ensures NonNegative(Caps(w)) && Sum(Caps(w)) <= w.exec.cfg.params.total
  {
    hide Sum;
    var s := w.exec.schedule;
    PlanPrefix(w.exec, |s| - 1);
    PeaksFall(s);
  }

  // The newest order, if it is still working, can be taken back by a failure.
  predicate NewestWorks(outcome: seq<Outcome>) { outcome != [] && outcome[|outcome| - 1].Working? }

  ghost predicate BeforeLast(w: World)
    requires Ledger(w)
  {
    var n := |w.exec.schedule|;
    && Ranked(w.outcome, w.exec.orders, Caps(w))
    && (|w.exec.submitted| == w.exec.idx || w.older || w.exec.idx == n
        || (w.exec.idx == n - 1 && !NewestWorks(w.outcome)))
  }

  ghost predicate LastSent(w: World)
    requires Ledger(w)
  {
    var last := |w.outcome| - 1;
    && w.exec.idx == |w.exec.schedule| && last >= 0 && !w.outcome[last].Unfilled?
    && Settled(w.outcome[..last]) && Ranked(w.outcome[..last], w.exec.orders[..last], Caps(w))
  }

  ghost predicate Within(w: World)
    requires Ledger(w)
  {
    var total := w.exec.cfg.params.total;
    && Committed(w) <= total
    && (w.exec.idx == |w.exec.schedule| && w.shortfall == 0.0 ==> Committed(w) == total)
    && (BeforeLast(w) || LastSent(w))
  }

  ghost predicate Exposed(w: World)
    requires Ledger(w)
  {
    Balanced(w) && (Calm(w) ==> Within(w))
  }

  lemma RankedInit(outcome: seq<Outcome>, orders: seq<real>, caps: seq<real>)
    requires |outcome| == |orders| > 0 && Ranked(outcome, orders, caps)
    ensures var n := |outcome| - 1; var r := |Pending(outcome[..n])|;
            && Ranked(outcome[..n], orders[..n], caps)
            && (outcome[n].Unfilled? ==> Pending(outcome) == Pending(outcome[..n]))
            && (!outcome[n].Unfilled? ==>
                  |Pending(outcome)| == r + 1 && r < |caps| && orders[n] <= caps[r])
  {
    var n := |outcome| - 1;
    var before := Pending(outcome[..n]);
    PendingRange(outcome[..n]);
    assert forall r :: 0 <= r < |before| ==> before[r] == Pending(outcome)[r];
    if !outcome[n].Unfilled? { assert Pending(outcome)[|before|] == n; }
  }

  lemma {:induction false} RankSum(outcome: seq<Outcome>, orders: seq<real>, caps: seq<real>)
    requires |outcome| == |orders| && Ranked(outcome, orders, caps)
    ensures |Pending(outcome)| <= |caps| && Sum(Taken(outcome, orders)) <= Sum(caps[..|Pending(outcome)|])
  {
    if outcome == [] {
      assert Taken(outcome, orders) == [] && caps[..0] == [];
    } else {
      hide Ranked, Pending;
      var n := |outcome| - 1;
      RankedInit(outcome, orders, caps);
      RankSum(outcome[..n], orders[..n], caps);
      assert Taken(outcome, orders)[..n] == Taken(outcome[..n], orders[..n]);
      var r := |Pending(outcome[..n])|;
      if !outcome[n].Unfilled? {
        assert caps[..r + 1] == caps[..r] + [caps[r]];
        SumAppend(caps[..r], caps[r]);
      }
    }
  }

  lemma PendingRange(outcome: seq<Outcome>)
    ensures forall r :: 0 <= r < |Pending(outcome)| ==> 0 <= Pending(outcome)[r] < |outcome|
  {
    forall r | 0 <= r < |Pending(outcome)| ensures 0 <= Pending(outcome)[r] < |outcome| {
      PendingIds(outcome, Pending(outcome)[r]);
    }
  }

  // Removing an id closes the gap it leaves.
  lemma {:induction false} WithoutAt(ids: seq<OrderId>, id: OrderId) returns (r: nat)
    requires id in ids
    ensures r < |ids| && ids[r] == id && Without(ids, id) == ids[..r] + ids[r + 1..]
  {
    if ids[0] == id {
      r := 0;
    } else {
      var k := WithoutAt(ids[1..], id);
      r := k + 1;
      assert ids[..r] == [ids[0]] + ids[1..][..k] && ids[r + 1..] == ids[1..][k + 1..];
    }
  }

  // A failure lets later orders move up a rank, where they still fit under the peaks.
  lemma RankedFailed(w: World, id: nat, caps: seq<real>)
    requires |w.outcome| == |w.exec.orders| && Ranked(w.outcome, w.exec.orders, Caps(w)) && w.exec.schedule != []
    requires id < |w.outcome| && w.outcome[id].Working?
    requires caps == if id == |w.outcome| - 1 then Caps(w) else Peaks(w.exec.schedule)
    ensures Ranked(w.outcome[id := Unfilled], w.exec.orders, caps)
  {
    hide Falling, Pending, Peaks;
    PeaksFall(w.exec.schedule);
    if id == |w.outcome| - 1 {
      NewestFailed(w.outcome, w.exec.orders, caps);
    } else {
      OlderFailed(w.outcome, w.exec.orders, caps, id);
    }
  }

  lemma NewestFailed(outcome: seq<Outcome>, orders: seq<real>, caps: seq<real>)
    requires |outcome| == |orders| > 0 && Ranked(outcome, orders, caps) && outcome[|outcome| - 1].Working?
    ensures Ranked(outcome[|outcome| - 1 := Unfilled], orders, caps)
  {
    var n := |outcome| - 1;
    var before := Pending(outcome[..n]);
    assert outcome[n := Unfilled][..n] == outcome[..n];
    assert Pending(outcome[n := Unfilled]) == before;
    forall r | 0 <= r < |before| ensures 0 <= before[r] < |orders| && orders[before[r]] <= caps[r] {
      assert before[r] == Pending(outcome)[r];
    }
  }

  // Under falling caps the orders that move up a rank still fit.
  lemma OlderFailed(outcome: seq<Outcome>, orders: seq<real>, caps: seq<real>, id: nat)
    requires |outcome| == |orders| && Ranked(outcome, orders, caps)
    requires id < |outcome| && outcome[id].Working? && Falling(caps)
    ensures Ranked(outcome[id := Unfilled], orders, caps)
  {
    hide Pending, Without;
    PendingFailed(outcome, id);
    PendingIds(outcome, id);
    var p := Pending(outcome);
    var r := WithoutAt(p, id);
    var q := Without(p, id);
    forall k | 0 <= k < |q| ensures 0 <= q[k] < |orders| && orders[q[k]] <= caps[k] {
      if k < r { assert q[k] == p[k]; } else { assert q[k] == p[k + 1] && caps[k + 1] <= caps[k]; }
    }
  }

  lemma RankedPlaced(outcome: seq<Outcome>, orders: seq<real>, caps: seq<real>, amount: real)
    requires |outcome| == |orders| && Ranked(outcome, orders, caps)
    requires |Pending(outcome)| < |caps| && amount <= caps[|Pending(outcome)|]
    ensures Ranked(outcome + [Working], orders + [amount], caps)
    ensures |Pending(outcome + [Working])| == |Pending(outcome)| + 1
  {
    assert (outcome + [Working])[..|outcome|] == outcome;
  }

  lemma RankedFilled(outcome: seq<Outcome>, orders: seq<real>, caps: seq<real>, id: nat)
    requires |outcome| == |orders| && Ranked(outcome, orders, caps) && id < |outcome| && outcome[id].Working?
    ensures Ranked(outcome[id := Filled], orders, caps)
  {
    PendingUpdate(outcome, id);
  }

  // A ranked ledger commits no more than the total.
  lemma RankedWithin(w: World)
    requires Inv(w) && Balanced(w) && Calm(w) && w.exec.schedule != [] && Ranked(w.outcome, w.exec.orders, Caps(w))
    ensures Committed(w) <= w.exec.cfg.params.total
  {
    hide Ranked, Taken, InFlight, Sum, Pending, Caps, Calm, Pacing, Ending;
    RankSum(w.outcome, w.exec.orders, Caps(w));
    CapsWithin(w);
    SchedulePrefix(Caps(w), |Pending(w.outcome)|);
  }

  // ---- Each event keeps it ------------------------------------------------------------------------

  lemma SliceWithin(w: World, now: real)
    requires Inv(w) && Exposed(w) && w.exec.resolved && w.exec.idx < |w.exec.schedule| - 1
    requires var t := Advance(w, Place(w.exec, now, w.exec.schedule[w.exec.idx]), now); Inv(t) && Balanced(t)
    ensures Exposed(Advance(w, Place(w.exec, now, w.exec.schedule[w.exec.idx]), now))
  {
    hide Sum, Taken, InFlight, Balanced, Spaced, Pacing, Ending, SoundPlan, Ranked, Pending, Settled, Peaks, Sheltered;
    var s := w.exec;
    var t := Advance(w, Place(s, now, s.schedule[s.idx]), now);
    if Calm(w) {
      PeaksFall(s.schedule);
      RankedPlaced(w.outcome, s.orders, Caps(w), s.schedule[s.idx]);
      RankedWithin(t);
    }
  }

  lemma LastWithin(w: World, now: real, amount: real)
    requires Inv(w) && Exposed(w) && w.exec.resolved && w.exec.idx == |w.exec.schedule| - 1
    requires Settled(w.outcome) ==> amount == w.exec.cfg.params.total - Committed(w)
    requires var t := Advance(w, Place(w.exec, now, amount), now);
             Inv(t) && Balanced(t) && Committed(t) == Committed(w) + amount
    ensures Exposed(Advance(w, Place(w.exec, now, amount), now))
  {
    hide Sum, Taken, InFlight, Balanced, Spaced, Pacing, Ending, SoundPlan, Ranked, Pending;
    var t := Advance(w, Place(w.exec, now, amount), now);
    assert t.outcome[..|w.outcome|] == w.outcome && t.exec.orders[..|w.exec.orders|] == w.exec.orders;
  }

  lemma SkipWithin(w: World, now: real, view: OrderId -> OrderView)
    requires Inv(w) && Exposed(w) && w.exec.resolved && w.exec.idx == |w.exec.schedule| - 1
    requires Honest(w.outcome, w.exec.orders, view)
    requires w.exec.cfg.params.total - w.exec.filled - LiveExecuted(w.exec.submitted, view) <= 0.0
    requires var t := Advance(w, w.exec.(idx := w.exec.idx + 1), now);
             Inv(t) && Balanced(t) && Committed(t) == Committed(w)
    ensures Exposed(Advance(w, w.exec.(idx := w.exec.idx + 1), now))
  {
    hide Sum, Taken, InFlight, Balanced, Spaced, Pacing, Ending, SoundPlan, Ranked, Pending, LiveExecuted;
    LiveBounds(w.outcome, w.exec.orders, view);
  }

  lemma SubmitWithin(w: World, now: real, view: OrderId -> OrderView)
    requires Inv(w) && Exposed(w) && w.exec.resolved && w.exec.idx < |w.exec.schedule|
    requires w.exec.status.Running? && Honest(w.outcome, w.exec.orders, view) && !TooSoon(w.exec, now)
    requires Inv(Advance(w, SubmitNextSlice(w.exec, now, view), now))
    ensures Exposed(Advance(w, SubmitNextSlice(w.exec, now, view), now))
  {
    hide Sum, Pending, InFlight, LiveExecuted, Spaced, Beyond, Settled, Balanced, Pacing, Ending, Taken, Calm, Within;
    var s := w.exec;
    if s.idx == |s.schedule| - 1 {
      var amount := s.cfg.params.total - s.filled - LiveExecuted(s.submitted, view);
      LiveBounds(w.outcome, s.orders, view);
      InFlightSign(w.outcome, s.orders);
      if amount > 0.0 {
        PlacedBalanced(w, now, amount);
        LastWithin(w, now, amount);
      } else {
        SkippedBalanced(w, now);
        SkipWithin(w, now, view);
      }
    } else {
      PlacedBalanced(w, now, s.schedule[s.idx]);
      SliceWithin(w, now);
    }
  }

  // Nothing but clocks, flags and the close type changes.
  ghost predicate SameBooks(w: World, t: World) {
    && t.exec.cfg == w.exec.cfg && t.exec.schedule == w.exec.schedule && t.exec.idx == w.exec.idx
    && t.exec.orders == w.exec.orders && t.exec.submitted == w.exec.submitted && t.exec.filled == w.exec.filled
    && t.outcome == w.outcome && t.shortfall == w.shortfall && t.drift == w.drift
    && t.older == w.older && t.rushed == w.rushed
  }

  lemma SameExposed(w: World, t: World)
    requires Ledger(w) && Ledger(t) && Exposed(w) && SameBooks(w, t)
    ensures Exposed(t)
  {
    hide Sum, Taken, InFlight, Pending, Ranked;
    assert Committed(t) == Committed(w);
  }

  lemma TickedExposed(w: World, now: real, view: OrderId -> OrderView)
    requires Inv(w) && Exposed(w) && w.exec.resolved && w.exec.status.Running?
    requires Honest(w.outcome, w.exec.orders, view)
    requires Inv(Advance(w, Ticked(w.exec, now, view), now))
    ensures Exposed(Advance(w, Ticked(w.exec, now, view), now))
  {
    hide Sum, Pending, InFlight, LiveExecuted, Spaced, Settled, Pacing, Ending, Taken, SoundPlan, Honest,
         SubmitNextSlice, AllDone, Exposed, Ledger;
    var s := w.exec;
    if s.idx < |s.schedule| && !TooSoon(s, now) {
      SubmitWithin(w, now, view);
    } else {
      SameExposed(w, Advance(w, Ticked(s, now, view), now));
    }
  }

  lemma BegunExposed(f: Elementary, w: World, e: Event)
    requires Lawful(f) && Inv(w) && Exposed(w) && e.ControlTask? && w.exec.status.Running?
    requires var b := Begun(f, w.exec, e.now, e.candles, e.wall); Inv(w.(exec := b))
    ensures Exposed(w.(exec := Begun(f, w.exec, e.now, e.candles, e.wall)))
  {
    hide Begun, SoundPlan, Spaced, Taken, Ending, Pacing, Honest, Balanced, Sum, InFlight, Falling, Settled;
    BegunKeeps(f, w, e.now, e.candles, e.wall);
    BegunBalanced(f, w, e);
    var v := w.(exec := Begun(f, w.exec, e.now, e.candles, e.wall));
    if w.exec.resolved { SameExposed(w, v); } else { UnsentExposed(w, v); }
  }

  lemma UnsentExposed(w: World, v: World)
    requires Inv(w) && Inv(v) && Exposed(w) && Balanced(v) && Committed(v) == Committed(w)
    requires !w.exec.resolved && v == w.(exec := v.exec) && v.exec.idx == 0 && v.exec.cfg == w.exec.cfg
    requires v.exec.orders == []
    ensures Exposed(v)
  {
    hide Spaced, Taken, Ending, Pacing, Balanced, Sum, InFlight, Falling, Settled;
    assert Pending(w.outcome) == [];
  }

  lemma ControlExposed(f: Elementary, w: World, e: Event)
    requires Lawful(f) && Inv(w) && Legal(f, w, e) && Exposed(w) && e.ControlTask? && Inv(Next(f, w, e))
    ensures Exposed(Next(f, w, e))
  {
    hide Sum, Pending, InFlight, Taken, SoundPlan, Pacing, Ending, Begun, Ticked, Exposed, Honest, Lawful, Resolve;
    if w.exec.status.Running? {
      BegunKeeps(f, w, e.now, e.candles, e.wall);
      BegunExposed(f, w, e);
      TickFromBegun(f, w, e);
      TickedExposed(w.(exec := Begun(f, w.exec, e.now, e.candles, e.wall)), e.now, e.view);
    } else {
      SameExposed(w, Next(f, w, e));
    }
  }

  lemma CompletedExposed(f: Elementary, w: World, e: Event)
    requires Lawful(f) && Inv(w) && Legal(f, w, e) && Exposed(w) && e.OrderCompleted? && Inv(Next(f, w, e))
    ensures Exposed(Next(f, w, e))
  {
    hide Sum, Pending, InFlight, Taken, SoundPlan, Pacing, Ending, Honest, NonNegative, Balanced, AllDone, Ranked,
         Falling;
    EndedBalanced(f, w, e);
    PendingIds(w.outcome, e.id);
    var t := Next(f, w, e);
    if e.id < 0 {
      SameExposed(w, t);
    } else if Calm(w) {
      PendingUpdate(w.outcome, e.id);
      if BeforeLast(w) {
        RankedFilled(w.outcome, w.exec.orders, Caps(w), e.id);
      } else {
        assert w.outcome[..|w.outcome| - 1] == t.outcome[..|w.outcome| - 1];
      }
    }
  }

  lemma FailedExposed(f: Elementary, w: World, e: Event)
    requires Lawful(f) && Inv(w) && Legal(f, w, e) && Exposed(w) && e.OrderFailed? && Inv(Next(f, w, e))
    ensures Exposed(Next(f, w, e))
  {
    hide Sum, Pending, InFlight, Taken, SoundPlan, Pacing, Ending, Balanced, Ranked, Falling, Without;
    EndedBalanced(f, w, e);
    PendingIds(w.outcome, e.id);
    var t := Next(f, w, e);
    if e.id < 0 {
      SameExposed(w, t);
    } else if Calm(t) {
      PendingFailed(w.outcome, e.id);
      FailedWithin(w, t, e.id);
    }
  }

  lemma FailedWithin(w: World, t: World, id: nat)
    requires Ledger(w) && Ledger(t) && Within(w) && id < |w.outcome| && w.outcome[id].Working?
    requires t.older == (w.older || id != |w.outcome| - 1) && w.exec.schedule != []
    requires t.exec.cfg == w.exec.cfg && t.exec.schedule == w.exec.schedule && t.exec.orders == w.exec.orders
    requires t.exec.idx == w.exec.idx - 1 && t.outcome == w.outcome[id := Unfilled] && Committed(t) <= Committed(w)
    requires |t.exec.submitted| == |w.exec.submitted| - 1
    ensures Within(t)
  {
    hide Sum, InFlight, Taken, NonNegative, Without, Committed, Peaks, Ranked, Pending;
    if BeforeLast(w) {
      RankedFailed(w, id, Caps(t));
    } else {
      FailedLast(w, t, id);
    }
  }

  // The last slice fails: what is left is what it found settled.
  lemma FailedLast(w: World, t: World, id: nat)
    requires Ledger(w) && LastSent(w) && id < |w.outcome| && w.outcome[id].Working?
    requires t.older == (w.older || id != |w.outcome| - 1)
    requires t.exec.schedule == w.exec.schedule && t.exec.orders == w.exec.orders
    requires t.outcome == w.outcome[id := Unfilled]
    ensures id == |w.outcome| - 1 && Ranked(t.outcome, t.exec.orders, Caps(t))
  {
    hide Sum, InFlight, Taken, NonNegative, Without, Peaks;
    var last := |w.outcome| - 1;
    assert forall i :: 0 <= i < last ==> w.outcome[..last][i] == w.outcome[i];
    assert t.outcome[..last] == w.outcome[..last];
    assert Pending(t.outcome) == Pending(w.outcome[..last]);
    var p := Pending(t.outcome);
    forall r | 0 <= r < |p| ensures 0 <= p[r] < |t.exec.orders| && t.exec.orders[p[r]] <= Caps(t)[r] {
      assert w.exec.orders[..last][p[r]] == w.exec.orders[p[r]];
    }
  }

  lemma NextExposed(f: Elementary, w: World, e: Event)
    requires Lawful(f) && Inv(w) && Legal(f, w, e) && Exposed(w)
    ensures Inv(Next(f, w, e)) && Exposed(Next(f, w, e))
  {
    NextKeeps(f, w, e);
    hide Inv, Legal, Next, Exposed;
    match e
    case ControlTask(_, _, _, _) => ControlExposed(f, w, e);
    case OrderCompleted(_, _, _) => CompletedExposed(f, w, e);
    case OrderFailed(_) => FailedExposed(f, w, e);
    case StopRequest(_) => StopExposed(f, w, e);
  }

  lemma StopExposed(f: Elementary, w: World, e: Event)
    requires Lawful(f) && Inv(w) && Exposed(w) && e.StopRequest? && Inv(Next(f, w, e))
    ensures Exposed(Next(f, w, e))
  {
    hide Sum, Pending, InFlight, Taken, SoundPlan, Pacing, Ending, Exposed, Ledger;
    SameExposed(w, Next(f, w, e));
  }

  lemma {:induction false} RunExposed(f: Elementary, w: World, es: seq<Event>)
    requires Lawful(f) && Inv(w) && LegalRun(f, w, es) && Exposed(w)
    ensures Inv(RunOf(f, w, es)) && Exposed(RunOf(f, w, es))
    decreases |es|
  {
    hide Inv, Next, Legal, Exposed;
    if es != [] {
      NextExposed(f, w, es[0]);
      RunExposed(f, Next(f, w, es[0]), es[1..]);
    }
  }
}
