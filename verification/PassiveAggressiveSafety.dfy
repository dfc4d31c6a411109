/**
 What every run of the passive-aggressive executor keeps: conservation of fills, a single
 working order, the over-execution bound, room reconciliation, the crossing rule and
 truthful outcomes.
 */
module PassiveAggressiveSafety {
  import opened Common
  import opened PassiveAggressive
  import opened PassiveAggressiveRuns

  // ---- Every event is a ledger posting followed by lifecycle changes ----------

  function Posted(s: State, e: Event): State
    requires WellIndexed(s)
  {
    if !HasOrder(e) || !Known(s, e.id) then s
    else
      var r := s.orders[e.id];
      if e.Filled? then
        if Replayed(s, e.id, e.trade) then s else Post(s, e.id, Settle(FilledRecord(r, e.trade, e.amount)))
      else if e.OrderCompleted? then Post(s, e.id, Settle(CompletedRecord(r, e.amount)))
      else Post(s, e.id, r.(terminal := true))
  }

  // Lifecycle changes move no money: they may only add one new order, of exactly the
  // room its child has.
  ghost predicate Continues(s: State, t: State) {
    && t.cfg == s.cfg && t.filled == s.filled && |t.children| == |s.children|
    && (forall c :: 0 <= c < |s.children| ==>
          t.children[c].filled == s.children[c].filled && t.children[c].target == s.children[c].target)
    && (t.orders == s.orders
        || exists c: nat, a: real :: c < |s.children| && a == Room(s, c) > 0.0
              && t.orders == s.orders + [Record(c, a, 0.0, 0.0, 0.0, {}, false)])
  }

  lemma PlaceLimitContinues(s: State, c: nat, now: real, price: Option<real>)
    requires c < |s.children|
    ensures Continues(s, PlaceLimit(s, c, now, price))
  {
  }

  lemma PlaceAggressiveContinues(s: State, c: nat)
    requires c < |s.children|
    ensures Continues(s, PlaceAggressive(s, c))
  {
    assert Room(SetChild(s, c, s.children[c].(status := Idle)), c) == Room(s, c);
  }

  lemma StepContinues(s: State, now: real, price: Option<real>)
    requires s.idx <= |s.children|
    ensures Continues(s, Step(s, now, price))
  {
    hide Outstanding, PlaceLimit, StepChild;
    var s0 := s.(idx := FirstUnfinished(s.children, s.idx));
    if s0.idx < |s0.children| {
      StepChildContinues(SetChild(s0, s0.idx, StartCycle(s0.children[s0.idx], now)), s0.idx, now, price);
    }
  }

  lemma StepChildContinues(s: State, c: nat, now: real, price: Option<real>)
    requires c < |s.children| && s.children[c].cycleStart.Some?
    ensures Continues(s, StepChild(s, c, now, price))
  {
    hide Outstanding, PlaceLimit;
    PlaceLimitContinues(SetChild(s, c, s.children[c].(retryAt := None)), c, now, price);
  }

  lemma CanceledContinues(s: State, id: nat)
    requires WellIndexed(s) && id < |s.orders|
    ensures Continues(EndOrder(s, id), OnCanceled(s, id))
  {
    var t := EndOrder(s, id);
    var c := s.orders[id].child;
    var t1 := SetChild(t, c, t.children[c].(tracked := None));
    PlaceAggressiveContinues(t1, c);
    assert Room(t1, c) == Room(t, c);
  }

  lemma FailedContinues(s: State, id: nat, now: real, satisfied: bool)
    requires WellIndexed(s) && id < |s.orders|
    ensures Continues(EndOrder(s, id), OnFailed(s, id, now, satisfied))
  {
    var t := EndOrder(s, id);
    var c := s.orders[id].child;
    var ch := t.children[c].(tracked := None, status := Idle,
                             retryAt := Some(now + RetryDelay(s.cfg, s.retries + 1)));
    var t1 := SetChild(t, c, ch).(retries := s.retries + 1);
    PlaceAggressiveContinues(t1, c);
    assert Room(t1, c) == Room(t, c);
  }

  lemma FilledContinues(w: World, e: Event)
    requires Shape(w.exec, w.ended) && e.Filled? && Enabled(w, e)
    ensures Continues(Posted(w.exec, e), OnFilled(w.exec, e.id, e.trade, e.amount))
  {
    hide Outstanding, Room, ChildOk;
    var s := w.exec;
    if Known(s, e.id) && !Replayed(s, e.id, e.trade) {
      assert OrderOk(s, w.ended, e.id);
      CreditIsPost(s, e.id, FilledRecord(s.orders[e.id], e.trade, e.amount));
    }
  }

  lemma CompletedContinues(w: World, e: Event)
    requires Shape(w.exec, w.ended) && e.OrderCompleted? && Enabled(w, e)
    ensures Continues(Posted(w.exec, e), OnCompleted(w.exec, e.id, e.amount))
  {
    var s := w.exec;
    if Known(s, e.id) {
      assert OrderOk(s, w.ended, e.id);
      CreditIsPost(s, e.id, CompletedRecord(s.orders[e.id], e.amount));
    }
  }

  lemma Factor(w: World, e: Event)
    requires Shape(w.exec, w.ended) && Enabled(w, e)
    ensures Continues(Posted(w.exec, e), Apply(w.exec, e))
  {
    var s := w.exec;
    match e
    case Timer(now, price) => StepContinues(s, now, price);
    case Filled(_, _, _) => FilledContinues(w, e);
    case OrderCompleted(_, _) => CompletedContinues(w, e);
    case OrderCanceled(id) =>
      if Known(s, id) {
        EndIsPosted(s, id);
        CanceledContinues(s, id);
      }
    case OrderFailed(id, now, satisfied) =>
      if Known(s, id) {
        EndIsPosted(s, id);
        FailedContinues(s, id, now, satisfied);
      }
    case StopRequest(_, _) =>
  }

  lemma EndIsPosted(s: State, id: nat)
    requires id < |s.orders| && s.orders[id].child < |s.children|
    ensures Post(s, id, s.orders[id].(terminal := true)) == EndOrder(s, id)
  {
    var ch := s.children[s.orders[id].child];
    assert ch.(filled := ch.filled + 0.0) == ch;
    assert s.children[s.orders[id].child := ch] == s.children;
  }

  // ---- Conservation ---------------------------------------------------------

  function Targets(children: seq<Child>): seq<real> {
    seq(|children|, c requires 0 <= c < |children| => children[c].target)
  }

  function Fills(children: seq<Child>): seq<real> {
    seq(|children|, c requires 0 <= c < |children| => children[c].filled)
  }

  function Credits(orders: seq<Record>): seq<real> {
    seq(|orders|, i requires 0 <= i < |orders| => orders[i].credited)
  }

  function CreditsOf(orders: seq<Record>, c: nat): seq<real> {
    seq(|orders|, i requires 0 <= i < |orders| => if orders[i].child == c then orders[i].credited else 0.0)
  }

  ghost predicate Books(s: State) {
    && s.filled == Sum(Fills(s.children)) == Sum(Credits(s.orders))
    && forall c: nat :: c < |s.children| ==> s.children[c].filled == Sum(CreditsOf(s.orders, c))
  }

  lemma PostBooks(s: State, id: nat, r: Record)
    requires Books(s) && id < |s.orders| && r.child == s.orders[id].child < |s.children|
    ensures Books(Post(s, id, r))
  {
    var t := Post(s, id, r);
    SumUpdate(Fills(s.children), r.child, t.children[r.child].filled);
    assert Fills(t.children) == Fills(s.children)[r.child := t.children[r.child].filled];
    SumUpdate(Credits(s.orders), id, r.credited);
    assert Credits(t.orders) == Credits(s.orders)[id := r.credited];
    forall c: nat | c < |t.children| ensures t.children[c].filled == Sum(CreditsOf(t.orders, c)) {
      var x := if r.child == c then r.credited else 0.0;
      SumUpdate(CreditsOf(s.orders, c), id, x);
      assert CreditsOf(t.orders, c) == CreditsOf(s.orders, c)[id := x];
    }
  }

  lemma ContinuesBooks(s: State, t: State)
    requires Books(s) && Continues(s, t)
    ensures Books(t)
  {
    hide Sum, Room;
    assert Fills(t.children) == Fills(s.children);
    if t.orders != s.orders {
      var c: nat, a: real :| t.orders == s.orders + [Record(c, a, 0.0, 0.0, 0.0, {}, false)];
      UncreditedAppended(s.orders, t.orders[|s.orders|], t.orders);
    }
  }

  lemma UncreditedAppended(orders: seq<Record>, r: Record, longer: seq<Record>)
    requires r.credited == 0.0 && longer == orders + [r]
    ensures Sum(Credits(longer)) == Sum(Credits(orders))
    ensures forall c: nat :: Sum(CreditsOf(longer, c)) == Sum(CreditsOf(orders, c))
  {
    hide Sum;
    SumAppend(Credits(orders), 0.0);
    assert Credits(longer) == Credits(orders) + [0.0];
    forall c: nat ensures Sum(CreditsOf(longer, c)) == Sum(CreditsOf(orders, c)) {
      SumAppend(CreditsOf(orders, c), 0.0);
      assert CreditsOf(longer, c) == CreditsOf(orders, c) + [0.0];
    }
  }

  lemma NextBooks(w: World, e: Event)
    requires Shape(w.exec, w.ended) && Enabled(w, e) && Books(w.exec)
    ensures Books(Next(w, e).exec)
  {
    var s := w.exec;
    if HasOrder(e) && Known(s, e.id) && Posted(s, e) != s {
      PostBooks(s, e.id, Posted(s, e).orders[e.id]);
    }
    Factor(w, e);
    ContinuesBooks(Posted(s, e), Apply(s, e));
  }

  // ---- Over-execution bound -------------------------------------------------

  // The work in hand belongs to the current child.
  function ChildWork(s: State, c: nat): real { if c == s.idx then NewestWork(s) else 0.0 }

  ghost predicate Bounds(w: World) {
    var s := w.exec;
    && |w.childLate| == |s.children|
    && s.filled + NewestWork(s) <= Max(s.cfg.total, 0.0) + w.lateSinceSubmit
    && (forall c: nat :: c < |s.children| ==>
          s.children[c].filled + ChildWork(s, c) <= s.children[c].target + w.childLate[c])
    && 0.0 <= w.lateSinceSubmit <= w.late == Sum(w.childLate)
    && (forall c: nat :: c < |s.children| ==> w.childLate[c] >= 0.0)
  }

  // Crediting an open order turns work into fills; crediting an ended one is late.
  lemma PostedWork(w: World, e: Event)
    requires Shape(w.exec, w.ended) && Enabled(w, e)
    requires HasOrder(e) && Known(w.exec, e.id)
    ensures var s := w.exec; var t := Posted(s, e); var d := t.filled - s.filled; var r := s.orders[e.id];
            && d >= 0.0
            && LateCredit(s, e) == (if r.terminal then d else 0.0)
            && NewestWork(t) <= NewestWork(s) - (if r.terminal then 0.0 else d)
            && (!r.terminal ==> r.child == s.idx)
            && |t.children| == |s.children| && t.idx == s.idx && t.cfg == s.cfg
            && (forall c: nat :: c < |s.children| ==> t.children[c].target == s.children[c].target)
            && (forall c: nat :: c < |s.children| && c != r.child ==> t.children[c] == s.children[c])
            && t.children[r.child].filled == s.children[r.child].filled + d
  {
    hide Outstanding, Apply;
    Factor(w, e);
    assert OrderOk(w.exec, w.ended, e.id);
    TrackedOrder(w.exec, w.ended, e.id);
  }

  lemma OutstandingNonNegative(orders: seq<Record>)
    ensures Outstanding(orders) >= 0.0
  {
    SumNonNegative(Works(orders));
  }

  // The current child moves on only when nothing is working.
  lemma MovesOnIdle(w: World, e: Event)
    requires Shape(w.exec, w.ended) && Enabled(w, e)
    ensures Apply(w.exec, e).idx != w.exec.idx ==> NewestWork(w.exec) == 0.0 && !HasOrder(e)
  {
    var s := w.exec;
    if Apply(s, e).idx != s.idx {
      IdxOnlyByTimer(w, e);
      NoneOpen(s, w.ended);
      ShapeOutstanding(s, w.ended);
    }
  }

  lemma IdxOnlyByTimer(w: World, e: Event)
    requires Shape(w.exec, w.ended) && Enabled(w, e)
    requires Apply(w.exec, e).idx != w.exec.idx
    ensures e.Timer? && w.exec.idx < |w.exec.children| && Finished(w.exec.children[w.exec.idx].status)
  {
    var s := w.exec;
    match e
    case Timer(now, price) =>
    case Filled(id, trade, amount) => FilledContinues(w, e);
    case OrderCompleted(id, amount) =>
    case OrderCanceled(id) =>
    case OrderFailed(id, now, satisfied) =>
    case StopRequest(_, _) =>
  }

  // A posting of d to child c, late or out of the work in hand, keeps the bounds.
  lemma PostingKeepsBounds(w: World, p: State, c: nat, d: real, late: bool)
    requires Bounds(w) && d >= 0.0
    requires var s := w.exec;
             && c < |s.children| == |p.children| && p.idx == s.idx && p.cfg == s.cfg
             && p.filled == s.filled + d
             && (forall k: nat :: k < |s.children| ==> p.children[k].target == s.children[k].target)
             && (forall k: nat :: k < |s.children| && k != c ==> p.children[k] == s.children[k])
             && p.children[c].filled == s.children[c].filled + d
             && NewestWork(p) <= NewestWork(s) - (if late then 0.0 else d)
             && (!late ==> c == s.idx)
    ensures var credit := if late then d else 0.0;
            Bounds(w.(exec := p, late := w.late + credit,
                      childLate := w.childLate[c := w.childLate[c] + credit],
                      lateSinceSubmit := w.lateSinceSubmit + credit))
  {
    SumUpdate(w.childLate, c, w.childLate[c] + (if late then d else 0.0));
  }

  lemma PostedBounds(w: World, e: Event)
    requires Shape(w.exec, w.ended) && Enabled(w, e) && Bounds(w)
    ensures var p := Posted(w.exec, e); var credit := LateCredit(w.exec, e);
            Bounds(w.(exec := p, late := w.late + credit, childLate := NextChildLate(w, e),
                      lateSinceSubmit := w.lateSinceSubmit + credit))
  {
    hide Shape, Apply, Outstanding;
    if HasOrder(e) && Known(w.exec, e.id) {
      PostedOrderBounds(w, e);
    } else {
      UnpostedLate(w, e);
    }
  }

  lemma UnpostedLate(w: World, e: Event)
    requires WellIndexed(w.exec) && !(HasOrder(e) && Known(w.exec, e.id))
    ensures Posted(w.exec, e) == w.exec && LateCredit(w.exec, e) == 0.0 && NextChildLate(w, e) == w.childLate
  {
    hide Apply;
  }

  lemma PostedOrderBounds(w: World, e: Event)
    requires Shape(w.exec, w.ended) && Enabled(w, e) && Bounds(w)
    requires HasOrder(e) && Known(w.exec, e.id)
    ensures var p := Posted(w.exec, e); var credit := LateCredit(w.exec, e);
            Bounds(w.(exec := p, late := w.late + credit, childLate := NextChildLate(w, e),
                      lateSinceSubmit := w.lateSinceSubmit + credit))
  {
    hide Shape, Outstanding, Posted, Bounds, LateCredit;
    PostedWork(w, e);
    LateSized(w);
    var r := w.exec.orders[e.id];
    PostingKeepsBounds(w, Posted(w.exec, e), r.child, Posted(w.exec, e).filled - w.exec.filled, r.terminal);
  }

  lemma LateSized(w: World)
    requires Bounds(w)
    ensures |w.childLate| == |w.exec.children|
  {
  }

  lemma NextBounds(w: World, e: Event)
    requires Shape(w.exec, w.ended) && Enabled(w, e) && Bounds(w)
    ensures Bounds(Next(w, e))
  {
    var p := Posted(w.exec, e);
    var t := Apply(w.exec, e);
    PostedBounds(w, e);
    Factor(w, e);
    NextShape(w, e);
    MovesOnIdle(w, e);
    OutstandingNonNegative(p.orders);
    OutstandingNonNegative(w.exec.orders);
    ShapeOutstanding(w.exec, w.ended);
    ShapeOutstanding(t, Next(w, e).ended);
    if t.orders != p.orders {
      var n := |p.orders|;
      assert OrderOk(t, Next(w, e).ended, n);
      assert ChildOk(t, Next(w, e).ended, t.orders[n].child);
      BoundsAfterSubmit(w, e);
    } else {
      BoundsAfterRest(w, e);
    }
  }

  lemma BoundsAfterSubmit(w: World, e: Event)
    requires Shape(w.exec, w.ended) && Enabled(w, e) && Bounds(w)
    requires var p := Posted(w.exec, e); var t := Apply(w.exec, e);
             && t.orders != p.orders && Continues(p, t)
             && t.orders[|p.orders|].child == t.idx
    requires Outstanding(Posted(w.exec, e).orders) >= 0.0
    requires Bounds(w.(exec := Posted(w.exec, e), late := w.late + LateCredit(w.exec, e),
                       childLate := NextChildLate(w, e),
                       lateSinceSubmit := w.lateSinceSubmit + LateCredit(w.exec, e)))
    ensures Bounds(Next(w, e))
  {
    hide Shape, Apply, LateCredit, NextChildLate, Outstanding;
    var p := Posted(w.exec, e);
    assert NewestWork(p) >= 0.0;
    assert p.idx == w.exec.idx;
  }

  lemma BoundsAfterRest(w: World, e: Event)
    requires Shape(w.exec, w.ended) && Enabled(w, e) && Bounds(w)
    requires var p := Posted(w.exec, e); var t := Apply(w.exec, e);
             t.orders == p.orders && Continues(p, t)
             && (t.idx != w.exec.idx ==> NewestWork(w.exec) == 0.0 && !HasOrder(e))
    requires Bounds(w.(exec := Posted(w.exec, e), late := w.late + LateCredit(w.exec, e),
                       childLate := NextChildLate(w, e),
                       lateSinceSubmit := w.lateSinceSubmit + LateCredit(w.exec, e)))
    ensures Bounds(Next(w, e))
  {
    var p := Posted(w.exec, e);
    var t := Apply(w.exec, e);
    assert NewestWork(t) == NewestWork(p);
    assert p.idx == w.exec.idx;
    assert |t.orders| == |w.exec.orders|;
  }
}
