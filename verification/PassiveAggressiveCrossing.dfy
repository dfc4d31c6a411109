/**
 When a CLOSE child gets its market order, and how a child can end unfilled: exactly, over
 whole runs, in terms of what the executor saw and the venue reported.
 */
module PassiveAggressiveCrossing {
  import opened Common
  import opened PassiveAggressive
  import opened PassiveAggressiveRuns
  import opened PassiveAggressiveSafety
  import opened PassiveAggressiveOutcome
  import opened PassiveAggressiveTheorems
  import opened PassiveAggressiveProgress

  // ---- A tick at or after expiry -----------------------------------------------------------

  // A tick of the running executor that visits child c when its cycle is over.
  predicate ExpiryVisit(v: World, e: Event, c: nat) {
    && e.Timer? && v.exec.status == Running && v.exec.idx <= |v.exec.children|
    && FirstUnfinished(v.exec.children, v.exec.idx) == c < |v.exec.children|
    && e.now - StartCycle(v.exec.children[c], e.now).cycleStart.value >= v.exec.cfg.timeLimit
  }

  /** Such a tick submits nothing. It skips the child exactly when it is IDLE, cancels its
      order for the expired cycle exactly when it is ACTIVE, and leaves it alone while it is
      CANCELING or AGGRESSIVE. */
  lemma ExpiredTick(cfg: Config, es: seq<Event>, w: World, e: Event, c: nat)
    requires Reaches(cfg, es, w) && Enabled(w, e) && ExpiryVisit(w, e, c)
    ensures var s := w.exec; var t := Next(w, e).exec; var was := s.children[c].status;
            && t.orders == s.orders && t.sent == s.sent && t.idx == c < |t.children|
            && (t.children[c].status.Skipped? <==> was.Idle?)
            && (was.Active? ==>
                  && t.children[c].status.Canceling? && t.children[c].cancelReason.CycleExpired?
                  && s.children[c].tracked.Some? && s.children[c].tracked.value in t.cancels)
            && (was.Canceling? || was.Aggressive? ==> t.children[c] == s.children[c])
            && (was.Idle? || was.Active? || was.Canceling? || was.Aggressive?)
  {
    hide Reaches, Outstanding, Books, Bounds, Crossing, Outcome, Reconciled, RecordOk;
    ReachesClocked(cfg, es, w);
    assert ChildOk(w.exec, w.ended, c);
    assert Timed(w.exec.children[c], w.exec.cancels, w.clock);
  }

  // ---- What one event tells about a child ------------------------------------------------------

  predicate HasMarket(s: State, c: nat) {
    exists i: nat :: i < |s.orders| && i < |s.sent| && s.orders[i].child == c && s.sent[i].Market?
  }

  // The venue acknowledges the cancel of child c's order while the executor is running and
  // the child still lacks something.
  predicate Acked(v: World, e: Event, c: nat) {
    && e.OrderCanceled? && Tracks(v.exec, e.id) && v.exec.orders[e.id].child == c
    && v.exec.status == Running && Residual(v.exec, c) > 0.0
  }

  // The cycle is over and no limit order rests.
  predicate Spent(s: State, c: nat, clock: real)
    requires c < |s.children|
  {
    Expired(s, c, clock) && !s.children[c].status.Active?
  }

  ghost predicate Told(s: State, c: nat, clock: real)
    requires c < |s.children|
  {
    && (s.children[c].cancelReason.CycleExpired? ==> Spent(s, c, clock))
    && (s.children[c].status.Aggressive? ==> HasMarket(s, c))
  }

  ghost predicate Tells(v: World, e: Event, c: nat)
    requires WellIndexed(v.exec) && c < |v.exec.children|
  {
    var s, t := v.exec, Next(v, e).exec;
    && c < |t.children|
    && (t.children[c].cancelReason.CycleExpired? <==>
          s.children[c].cancelReason.CycleExpired? || (ExpiryVisit(v, e, c) && s.children[c].status.Active?))
    && (HasMarket(t, c) <==>
          HasMarket(s, c) || (Acked(v, e, c) && s.cfg.closing && s.children[c].cancelReason.CycleExpired?))
    && (t.children[c].status.Aggressive? ==> HasMarket(t, c))
    && (Spent(s, c, v.clock) || ExpiryVisit(v, e, c) ==> Spent(t, c, Next(v, e).clock))
  }

  // The same market orders, and one more of the given kind and owner.
  lemma MarketAppended(s: State, t: State, c: nat)
    requires |s.sent| == |s.orders| <= |t.orders| == |t.sent| <= |s.orders| + 1
    requires t.sent[..|s.sent|] == s.sent
    requires forall i: nat :: i < |s.orders| ==> t.orders[i].child == s.orders[i].child
    ensures var n := |s.orders|;
            HasMarket(t, c) <==>
              HasMarket(s, c) || (|t.orders| > n && t.orders[n].child == c && t.sent[n].Market?)
  {
    var n := |s.orders|;
    assert forall i: nat :: i < n ==> t.sent[i] == t.sent[..n][i];
    if i: nat :| i < n && s.orders[i].child == c && s.sent[i].Market? {
      assert t.orders[i].child == c && t.sent[i].Market?;
    }
    if i: nat :| i < |t.orders| && i < |t.sent| && t.orders[i].child == c && t.sent[i].Market? {
      if i < n { assert s.orders[i].child == c && s.sent[i].Market?; }
    }
  }

  lemma TimerTells(v: World, e: Event, c: nat)
    requires Shape(v.exec, v.ended) && Enabled(v, e) && Clocked(v.exec, v.clock) && e.Timer?
    requires c < |v.exec.children| && Told(v.exec, c, v.clock)
    ensures Tells(v, e, c)
  {
    hide Outstanding, OpenIds, HasMarket, Step, Clocked;
    if v.exec.status == Running {
      StepTells(v, e, c);
    } else {
      MarketAppended(v.exec, Next(v, e).exec, c);
    }
  }

  lemma StepTells(v: World, e: Event, c: nat)
    requires Shape(v.exec, v.ended) && Enabled(v, e) && Clocked(v.exec, v.clock) && e.Timer?
    requires c < |v.exec.children| && Told(v.exec, c, v.clock) && v.exec.status == Running
    ensures Tells(v, e, c)
  {
    hide Outstanding, RecordOk, OpenIds, HasMarket, OrderOk, StepChild, Drain;
    var s := v.exec;
    var k := FirstUnfinished(s.children, s.idx);
    assert ChildOk(s, v.ended, c);
    assert Timed(s.children[c], s.cancels, v.clock);
    if k < |s.children| {
      assert ChildOk(s, v.ended, k) && Timed(s.children[k], s.cancels, v.clock);
      StepChildTells(SetChild(s.(idx := k), k, StartCycle(s.children[k], e.now)), k, e.now, e.price);
    }
    MarketAppended(s, Next(v, e).exec, c);
  }

  // A step of child k sends at most a limit order for it, and changes no other child.
  lemma StepChildTells(s: State, k: nat, now: real, price: Option<real>)
    requires k < |s.children| && !Finished(s.children[k].status) && s.children[k].cycleStart.Some?
    requires |s.sent| == |s.orders|
    requires s.children[k].status.Active? ==> s.children[k].tracked.Some?
    ensures var t := StepChild(s, k, now, price); var was, ch := s.children[k], t.children[k];
            && |t.children| == |s.children| && t.cfg == s.cfg
            && (forall c: nat :: c < |s.children| && c != k ==> t.children[c] == s.children[c])
            && |s.orders| <= |t.orders| == |t.sent| <= |s.orders| + 1
            && t.orders[..|s.orders|] == s.orders && t.sent[..|s.sent|] == s.sent
            && (|t.orders| > |s.orders| ==> t.sent[|s.orders|].Limit? && !Expired(s, k, now))
            && ch.cycleStart == was.cycleStart
            && (ch.status.Aggressive? ==> was.status.Aggressive?)
            && (Expired(s, k, now) ==> !ch.status.Active?)
            && (ch.cancelReason.CycleExpired? <==>
                  (Expired(s, k, now) && was.status.Active?)
                  || (was.cancelReason.CycleExpired? && ch.cancelReason == was.cancelReason))
            && (ch.cancelReason != was.cancelReason ==> was.status.Active?)
  {
    hide Outstanding;
  }

  lemma FilledTells(v: World, e: Event, c: nat)
    requires Shape(v.exec, v.ended) && Enabled(v, e) && e.Filled?
    requires c < |v.exec.children| && Told(v.exec, c, v.clock)
    ensures Tells(v, e, c)
  {
    hide Outstanding, RecordOk, HasMarket, OrderOk, Room, Residual, Credit, Tracks, ChildOk;
    var s := v.exec;
    if Known(s, e.id) && !Replayed(s, e.id, e.trade) {
      CreditFrame(s.(orders := s.orders[e.id := FilledRecord(s.orders[e.id], e.trade, e.amount)]), e.id);
    }
    MarketAppended(s, Next(v, e).exec, c);
  }

  lemma CompletedTells(v: World, e: Event, c: nat)
    requires Shape(v.exec, v.ended) && Enabled(v, e) && e.OrderCompleted?
    requires c < |v.exec.children| && Told(v.exec, c, v.clock)
    ensures Tells(v, e, c)
  {
    hide Outstanding, RecordOk, HasMarket, OrderOk;
    MarketAppended(v.exec, Next(v, e).exec, c);
  }

  lemma CanceledTells(v: World, e: Event, c: nat)
    requires Shape(v.exec, v.ended) && Enabled(v, e) && e.OrderCanceled?
    requires c < |v.exec.children| && Told(v.exec, c, v.clock)
    ensures Tells(v, e, c)
  {
    hide Outstanding, RecordOk, HasMarket, OrderOk, ChildOk;
    MarketAppended(v.exec, Next(v, e).exec, c);
    if Tracks(v.exec, e.id) { CanceledCrosses(v, e.id); }
  }

  lemma FailedTells(v: World, e: Event, c: nat)
    requires Shape(v.exec, v.ended) && Enabled(v, e) && e.OrderFailed?
    requires c < |v.exec.children| && Told(v.exec, c, v.clock)
    ensures Tells(v, e, c)
  {
    hide Outstanding, RecordOk, HasMarket, OrderOk, ChildOk, RetryDelay;
    MarketAppended(v.exec, Next(v, e).exec, c);
  }

  lemma StopTells(v: World, e: Event, c: nat)
    requires Shape(v.exec, v.ended) && Enabled(v, e) && e.StopRequest?
    requires c < |v.exec.children| && Told(v.exec, c, v.clock)
    ensures Tells(v, e, c)
  {
    hide Outstanding, RecordOk, HasMarket, OrderOk, ChildOk, OpenIds;
    MarketAppended(v.exec, Next(v, e).exec, c);
  }

  lemma EventTells(v: World, e: Event, c: nat)
    requires Shape(v.exec, v.ended) && Enabled(v, e) && Clocked(v.exec, v.clock)
    requires c < |v.exec.children| && Told(v.exec, c, v.clock)
    ensures Tells(v, e, c)
  {
    hide Shape, Tells, Told, Clocked, Legal, Apply;
    match e
    case Timer(_, _) => TimerTells(v, e, c);
    case Filled(_, _, _) => FilledTells(v, e, c);
    case OrderCompleted(_, _) => CompletedTells(v, e, c);
    case OrderCanceled(_) => CanceledTells(v, e, c);
    case OrderFailed(_, _, _) => FailedTells(v, e, c);
    case StopRequest(_, _) => StopTells(v, e, c);
  }

  // ---- Runs, step by step ------------------------------------------------------------------------

  lemma {:induction false} PrefixLegal(w0: World, es: seq<Event>, j: nat)
    requires LegalRun(w0, es) && j <= |es|
    ensures LegalRun(w0, es[..j])
    decreases |es|
  {
    hide Next, Legal;
    if j > 0 {
      PrefixLegal(Next(w0, es[0]), es[1..], j - 1);
      assert es[..j][1..] == es[1..][..j - 1];
    }
  }

  // The world after the first j events.
  ghost function At(w0: World, es: seq<Event>, j: nat): World
    requires LegalRun(w0, es) && j <= |es|
  {
    PrefixLegal(w0, es, j);
    RunOf(w0, es[..j])
  }

  lemma {:induction false} LastStep(w0: World, es: seq<Event>)
    requires LegalRun(w0, es) && es != []
    ensures var n := |es| - 1;
            LegalRun(w0, es[..n]) && Enabled(At(w0, es, n), es[n]) && RunOf(w0, es) == Next(At(w0, es, n), es[n])
    decreases |es|
  {
    hide Next, Legal;
    var n := |es| - 1;
    PrefixLegal(w0, es, n);
    if n > 0 {
      LastStep(Next(w0, es[0]), es[1..]);
      assert es[..n][1..] == es[1..][..n - 1];
    } else {
      assert es[1..] == [] && es[..0] == [];
    }
  }

  lemma SamePrefix(w0: World, es: seq<Event>, j: nat)
    requires LegalRun(w0, es) && j < |es|
    ensures LegalRun(w0, es[..|es| - 1]) && At(w0, es, j) == At(w0, es[..|es| - 1], j)
  {
    PrefixLegal(w0, es, |es| - 1);
    assert es[..|es| - 1][..j] == es[..j];
  }

  ghost predicate VisitedAt(w0: World, es: seq<Event>, c: nat, j: nat)
    requires LegalRun(w0, es) && j < |es|
  {
    ExpiryVisit(At(w0, es, j), es[j], c)
  }

  // At step j a tick visits child c after its expiry, for the first time.
  ghost predicate FirstExpiry(w0: World, es: seq<Event>, c: nat, j: nat)
    requires LegalRun(w0, es) && j < |es|
  {
    VisitedAt(w0, es, c, j) && forall i: nat :: i < j ==> !VisitedAt(w0, es, c, i)
  }

  // Child c is resting a limit order when step j visits it after its expiry.
  ghost predicate RestingAt(w0: World, es: seq<Event>, c: nat, j: nat)
    requires LegalRun(w0, es) && j < |es|
  {
    VisitedAt(w0, es, c, j) && At(w0, es, j).exec.children[c].status.Active?
  }

  ghost predicate AckedAt(w0: World, es: seq<Event>, c: nat, k: nat)
    requires LegalRun(w0, es) && k < |es|
  {
    Acked(At(w0, es, k), es[k], c)
  }

  ghost predicate Rested(w0: World, es: seq<Event>, c: nat)
    requires LegalRun(w0, es)
  {
    exists j: nat :: j < |es| && RestingAt(w0, es, c, j)
  }

  ghost predicate RestedThenAcked(w0: World, es: seq<Event>, c: nat)
    requires LegalRun(w0, es)
  {
    exists j: nat, k: nat :: j < k < |es| && RestingAt(w0, es, c, j) && AckedAt(w0, es, c, k)
  }

  // Earlier steps are the same seen from the longer run.
  lemma SameStep(w0: World, es: seq<Event>, c: nat, j: nat)
    requires LegalRun(w0, es) && j < |es| - 1
    ensures LegalRun(w0, es[..|es| - 1])
    ensures VisitedAt(w0, es, c, j) <==> VisitedAt(w0, es[..|es| - 1], c, j)
    ensures RestingAt(w0, es, c, j) <==> RestingAt(w0, es[..|es| - 1], c, j)
    ensures AckedAt(w0, es, c, j) <==> AckedAt(w0, es[..|es| - 1], c, j)
  {
    hide At, LegalRun, Acked, ExpiryVisit;
    SamePrefix(w0, es, j);
  }

  lemma RestedStep(w0: World, es: seq<Event>, c: nat)
    requires LegalRun(w0, es) && es != [] && LegalRun(w0, es[..|es| - 1])
    ensures Rested(w0, es, c) <==> Rested(w0, es[..|es| - 1], c) || RestingAt(w0, es, c, |es| - 1)
  {
    hide LegalRun, RestingAt;
    var n := |es| - 1;
    if Rested(w0, es[..n], c) {
      var j: nat :| j < n && RestingAt(w0, es[..n], c, j);
      SameStep(w0, es, c, j);
    }
    if Rested(w0, es, c) {
      var j: nat :| j < |es| && RestingAt(w0, es, c, j);
      if j < n { SameStep(w0, es, c, j); }
    }
  }

  lemma AckedStep(w0: World, es: seq<Event>, c: nat)
    requires LegalRun(w0, es) && es != [] && LegalRun(w0, es[..|es| - 1])
    ensures RestedThenAcked(w0, es, c) <==>
              RestedThenAcked(w0, es[..|es| - 1], c) || (Rested(w0, es[..|es| - 1], c) && AckedAt(w0, es, c, |es| - 1))
  {
    hide LegalRun, RestingAt, AckedAt;
    var n := |es| - 1;
    if RestedThenAcked(w0, es[..n], c) {
      var j: nat, k: nat :| j < k < n && RestingAt(w0, es[..n], c, j) && AckedAt(w0, es[..n], c, k);
      SameStep(w0, es, c, j);
      SameStep(w0, es, c, k);
    }
    if Rested(w0, es[..n], c) {
      var j: nat :| j < n && RestingAt(w0, es[..n], c, j);
      SameStep(w0, es, c, j);
    }
    if RestedThenAcked(w0, es, c) {
      var j: nat, k: nat :| j < k < |es| && RestingAt(w0, es, c, j) && AckedAt(w0, es, c, k);
      SameStep(w0, es, c, j);
      if k < n { SameStep(w0, es, c, k); }
    }
  }

  // What the run so far has to do with child c.
  ghost predicate Story(w0: World, es: seq<Event>, c: nat)
    requires LegalRun(w0, es)
  {
    var w := RunOf(w0, es);
    && c < |w.exec.children|
    && (w.exec.children[c].cancelReason.CycleExpired? <==> Rested(w0, es, c))
    && (HasMarket(w.exec, c) <==> w.exec.cfg.closing && RestedThenAcked(w0, es, c))
    && (w.exec.children[c].status.Aggressive? ==> HasMarket(w.exec, c))
    && ((exists j: nat :: j < |es| && VisitedAt(w0, es, c, j)) ==> Spent(w.exec, c, w.clock))
  }

  lemma StoryStep(w0: World, es: seq<Event>, c: nat)
    requires LegalRun(w0, es) && es != [] && LegalRun(w0, es[..|es| - 1]) && Story(w0, es[..|es| - 1], c)
    requires var v := At(w0, es, |es| - 1); Inv(v) && Clocked(v.exec, v.clock)
    ensures Story(w0, es, c)
  {
    hide Inv, Clocked, Apply, Spent, HasMarket, Acked, ExpiryVisit, Rested, RestedThenAcked, Residual, LegalRun, Shape;
    var n := |es| - 1;
    var v := At(w0, es, n);
    LastStep(w0, es);
    RestedStep(w0, es, c);
    AckedStep(w0, es, c);
    ToldByStory(w0, es[..n], c);
    InvShape(v);
    KeepsConfig(v, es[n]);
    EventTells(v, es[n], c);
    if j: nat :| j < |es| && VisitedAt(w0, es, c, j) {
      if j < n { SameStep(w0, es, c, j); }
    }
  }

  lemma ToldByStory(w0: World, es: seq<Event>, c: nat)
    requires LegalRun(w0, es) && Story(w0, es, c)
    ensures Told(RunOf(w0, es).exec, c, RunOf(w0, es).clock)
  {
    hide LegalRun, RunOf, At, ExpiryVisit, HasMarket, RestedThenAcked, Spent;
    if Rested(w0, es, c) {
      var j: nat :| j < |es| && RestingAt(w0, es, c, j);
      assert VisitedAt(w0, es, c, j);
    }
  }

  lemma {:induction false} RunStory(w0: World, es: seq<Event>, cfg: Config, clock: real, c: nat)
    requires StartOf(cfg, clock, w0) && LegalRun(w0, es) && c < |w0.exec.children|
    ensures Story(w0, es, c)
    ensures Inv(RunOf(w0, es)) && Clocked(RunOf(w0, es).exec, RunOf(w0, es).clock) && RunOf(w0, es).exec.cfg == cfg
    decreases |es|
  {
    hide Inv, Clocked, Shape, Spent, Acked, ExpiryVisit, Apply;
    StartInv(cfg, clock, w0);
    StartClocked(cfg, clock, w0);
    if es == [] {
      StartUntold(cfg, clock, w0, c);
    } else {
      var n := |es| - 1;
      LastStep(w0, es);
      RunStory(w0, es[..n], cfg, clock, c);
      var v := At(w0, es, n);
      StoryStep(w0, es, c);
      NextInv(v, es[n]);
      NextClocked(v, es[n]);
      KeepsConfig(v, es[n]);
    }
  }

  lemma KeepsConfig(v: World, e: Event)
    requires Inv(v) && Enabled(v, e)
    ensures Next(v, e).exec.cfg == v.exec.cfg
  {
    hide Apply, Outstanding, Bounds, Books, Crossing;
    NextWork(v, e);
  }

  lemma StartUntold(cfg: Config, clock: real, w0: World, c: nat)
    requires StartOf(cfg, clock, w0) && c < |w0.exec.children|
    ensures w0.exec.children[c] == FreshChild(w0.exec.children[c].target) && !HasMarket(w0.exec, c)
    ensures w0.exec.cfg == cfg
  {
    hide Sum;
    ChildrenCoverTotal(cfg.total, cfg.childQuantity);
  }

  /** No child of an OPEN run is ever crossed with a market order, and a child of a CLOSE run
      has been exactly when the first tick that visited it at or after its expiry found it
      resting a limit order, and the cancel of that order was acknowledged while the executor
      was running and the child still lacked something. A child found IDLE, or waiting for the
      cancel of a refresh, is never crossed. */
  lemma CrossedExactly(cfg: Config, clock: real, w0: World, es: seq<Event>, c: nat)
    requires StartOf(cfg, clock, w0) && LegalRun(w0, es) && c < |w0.exec.children|
    ensures HasMarket(RunOf(w0, es).exec, c) <==>
              cfg.closing && exists j: nat, k: nat ::
                j < k < |es| && FirstExpiry(w0, es, c, j) && RestingAt(w0, es, c, j) && AckedAt(w0, es, c, k)
  {
    hide Inv, Clocked, Shape, Acked, ExpiryVisit, HasMarket, StartOf, LegalRun, RunOf;
    RunStory(w0, es, cfg, clock, c);
    if RestedThenAcked(w0, es, c) {
      var j: nat, k: nat :| j < k < |es| && RestingAt(w0, es, c, j) && AckedAt(w0, es, c, k);
      RestsFirst(w0, es, cfg, clock, c, j);
      assert FirstExpiry(w0, es, c, j);
    }
  }

  // A child found resting after its expiry has not been visited after it before.
  lemma RestsFirst(w0: World, es: seq<Event>, cfg: Config, clock: real, c: nat, j: nat)
    requires StartOf(cfg, clock, w0) && LegalRun(w0, es) && c < |w0.exec.children|
    requires j < |es| && RestingAt(w0, es, c, j)
    ensures FirstExpiry(w0, es, c, j)
  {
    hide Inv, Clocked, Shape, Acked, ExpiryVisit, HasMarket, StartOf, LegalRun, RunOf, Rested, RestedThenAcked;
    PrefixLegal(w0, es, j);
    RunStory(w0, es[..j], cfg, clock, c);
    forall i: nat | i < j ensures !VisitedAt(w0, es, c, i) {
      PrefixLegal(w0, es, i);
      assert es[..j][..i] == es[..i];
      assert VisitedAt(w0, es, c, i) <==> VisitedAt(w0, es[..j], c, i);
    }
  }

  // ---- How a child ends unfilled --------------------------------------------------------------------

  // A tick finds the child IDLE after its expiry.
  predicate SkippedIdle(v: World, e: Event, c: nat) { ExpiryVisit(v, e, c) && v.exec.children[c].status.Idle? }

  // The venue refuses the order of a CLOSE child as reduce-only.
  predicate Refused(v: World, e: Event, c: nat) {
    v.exec.cfg.closing && e.OrderFailed? && e.satisfied && Tracks(v.exec, e.id) && v.exec.orders[e.id].child == c
  }

  // The child's order completes below its size.
  predicate CompletedShort(v: World, e: Event, c: nat) {
    && e.OrderCompleted? && Tracks(v.exec, e.id) && v.exec.orders[e.id].child == c
    && e.amount < v.exec.orders[e.id].amount
  }

  // The venue acknowledges the cancel of the child's tracked order.
  predicate Canceled(v: World, e: Event, c: nat) {
    e.OrderCanceled? && Tracks(v.exec, e.id) && v.exec.orders[e.id].child == c
  }

  // That cancel was requested for the child's expired cycle, and nothing is crossed.
  predicate Lapses(v: World, e: Event, c: nat) {
    Canceled(v, e, c) && !v.exec.cfg.closing && v.exec.children[c].cancelReason.CycleExpired?
  }

  predicate GivesUp(v: World, e: Event, c: nat) {
    SkippedIdle(v, e, c) || Refused(v, e, c) || CompletedShort(v, e, c) || Lapses(v, e, c)
  }

  // The working order covers everything its child still lacks.
  ghost predicate Tight(s: State) {
    s.idx < |s.children| && Working(s.children[s.idx].status) ==> Residual(s, s.idx) <= NewestWork(s)
  }

  lemma StepTight(s: State, ended: map<OrderId, Ending>, now: real, price: Option<real>)
    requires Shape(s, ended) && Tight(s)
    ensures Tight(Step(s, now, price))
  {
    hide Outstanding, OrderOk, StepChild;
    var s0 := s.(idx := FirstUnfinished(s.children, s.idx));
    AdvanceShape(s, ended);
    if s0.idx < |s0.children| {
      assert ChildOk(s0, ended, s0.idx) && ChildOk(s, ended, s0.idx);
      if s0.children[s0.idx].status.Idle? { NoneOpen(s0, ended); }
      StepChildTight(SetChild(s0, s0.idx, StartCycle(s0.children[s0.idx], now)), now, price);
    }
  }

  lemma StepChildTight(s: State, now: real, price: Option<real>)
    requires s.idx < |s.children| && s.children[s.idx].cycleStart.Some? && Tight(s)
    requires s.children[s.idx].status.Idle? ==> Outstanding(s.orders) == 0.0
    ensures Tight(StepChild(s, s.idx, now, price))
  {
    hide Outstanding;
  }

  // Posting to an order turns work into fills, unit for unit.
  lemma PostTight(s: State, ended: map<OrderId, Ending>, id: nat, r: Record)
    requires Shape(s, ended) && Tight(s) && id < |s.orders| && r.child == s.orders[id].child
    requires RecordOk(r) && r.amount == s.orders[id].amount && r.terminal == s.orders[id].terminal
    requires r.credited >= s.orders[id].credited
    ensures r.child < |s.children| && Tight(Post(s, id, r))
  {
    assert OrderOk(s, ended, id);
    assert s.idx < |s.children| ==> ChildOk(s, ended, s.idx);
  }

  lemma FilledTight(v: World, e: Event)
    requires Shape(v.exec, v.ended) && Enabled(v, e) && e.Filled? && Tight(v.exec)
    ensures Tight(Apply(v.exec, e))
  {
    hide Outstanding, OrderOk, Tight, RecordOk;
    var s := v.exec;
    if Known(s, e.id) && !Replayed(s, e.id, e.trade) {
      var r := FilledRecord(s.orders[e.id], e.trade, e.amount);
      FilledRecordOk(v, e);
      CreditIsPost(s, e.id, r);
      PostTight(s, v.ended, e.id, Settle(r));
      ReconcileTight(Post(s, e.id, Settle(r)), e.id);
    }
  }

  lemma FilledRecordOk(v: World, e: Event)
    requires Shape(v.exec, v.ended) && Enabled(v, e) && e.Filled?
    requires Known(v.exec, e.id) && !Replayed(v.exec, e.id, e.trade)
    ensures var was := v.exec.orders[e.id]; var r := FilledRecord(was, e.trade, e.amount);
            RecordOk(Settle(r)) && was.credited <= Settle(r).credited && was.child < |v.exec.children|
            && r.credited <= Max(r.fillSum, r.reported)
  {
    assert OrderOk(v.exec, v.ended, e.id);
  }

  lemma ReconcileTight(s: State, id: OrderId)
    requires s.idx <= |s.children| && Tight(s)
    ensures Tight(Reconcile(s, id))
  {
    hide Outstanding;
  }

  lemma CanceledTight(v: World, e: Event)
    requires Shape(v.exec, v.ended) && Enabled(v, e) && Tight(v.exec) && e.OrderCanceled?
    ensures Tight(Apply(v.exec, e))
  {
    hide Outstanding, RetryDelay, RecordOk, ChildOk;
    var s := v.exec;
    if Known(s, e.id) {
      TrackedOrder(s, v.ended, e.id);
      if s.orders[e.id].terminal {
        EndAgain(s, e.id);
      } else {
        var t := EndOrder(s, e.id);
        forall i: nat | i < |t.orders| - 1 ensures t.orders[i].terminal { assert OrderOk(s, v.ended, i); }
        OutstandingIsNewest(t);
      }
    }
  }

  lemma FailedTight(v: World, e: Event)
    requires Shape(v.exec, v.ended) && Enabled(v, e) && Tight(v.exec) && e.OrderFailed?
    ensures Tight(Apply(v.exec, e))
  {
    hide Outstanding, RetryDelay, RecordOk, ChildOk;
    var s := v.exec;
    if Known(s, e.id) {
      TrackedOrder(s, v.ended, e.id);
      if s.orders[e.id].terminal {
        EndAgain(s, e.id);
      } else {
        var t := EndOrder(s, e.id);
        forall i: nat | i < |t.orders| - 1 ensures t.orders[i].terminal { assert OrderOk(s, v.ended, i); }
        OutstandingIsNewest(t);
      }
    }
  }

  // A completion ends the work, so only replays and strays have to keep it.
  lemma CompletedTight(v: World, e: Event)
    requires Shape(v.exec, v.ended) && Enabled(v, e) && Tight(v.exec) && e.OrderCompleted?
    ensures Tight(Apply(v.exec, e))
  {
    hide Outstanding;
    var s := v.exec;
    if Known(s, e.id) {
      TrackedOrder(s, v.ended, e.id);
      assert OrderOk(s, v.ended, e.id);
    }
  }

  lemma NextTight(v: World, e: Event)
    requires Shape(v.exec, v.ended) && Enabled(v, e) && Tight(v.exec)
    ensures Tight(Next(v, e).exec)
  {
    hide Shape, Tight, Legal, Step;
    match e
    case Timer(now, price) =>
      if v.exec.status == Running { StepTight(v.exec, v.ended, now, price); } else { DrainTight(v.exec, now); }
    case Filled(_, _, _) => FilledTight(v, e);
    case OrderCompleted(_, _) => CompletedTight(v, e);
    case OrderCanceled(_) => CanceledTight(v, e);
    case OrderFailed(_, _, _) => FailedTight(v, e);
    case StopRequest(_, _) => StopTight(v, e);
  }

  lemma DrainTight(s: State, now: real)
    requires Tight(s)
    ensures Tight(Drain(s, now))
  {
    hide Outstanding, OpenIds;
  }

  lemma StopTight(v: World, e: Event)
    requires Tight(v.exec) && e.StopRequest? && WellIndexed(v.exec)
    ensures Tight(Apply(v.exec, e))
  {
    hide OpenIds;
  }

  // What one event does to an unfilled child.
  ghost predicate Leaves(v: World, e: Event, c: nat)
    requires WellIndexed(v.exec) && c < |v.exec.children|
  {
    var s, t := v.exec, Next(v, e).exec;
    && c < |t.children|
    && (Finished(s.children[c].status) || GivesUp(v, e, c) ==> Finished(t.children[c].status))
    && (Finished(t.children[c].status) && !Finished(s.children[c].status) && Residual(t, c) > 0.0 ==> GivesUp(v, e, c))
    && Residual(t, c) <= Residual(s, c)
  }

  lemma TimerLeaves(v: World, e: Event, c: nat)
    requires Shape(v.exec, v.ended) && Enabled(v, e) && e.Timer? && c < |v.exec.children|
    ensures Leaves(v, e, c)
  {
    hide Outstanding, OrderOk, OpenIds, StepChild;
    var s := v.exec;
    var s0 := s.(idx := FirstUnfinished(s.children, s.idx));
    AdvanceShape(s, v.ended);
    if s.status == Running && s0.idx < |s0.children| {
      assert ChildOk(s0, v.ended, s0.idx);
      if s0.children[s0.idx].status.Idle? { NoneOpen(s0, v.ended); }
      StepChildLeaves(SetChild(s0, s0.idx, StartCycle(s0.children[s0.idx], e.now)), s0.idx, e.now, e.price);
    }
  }

  // A step fills nothing; it finishes child k only when it is IDLE and out of time or room.
  lemma StepChildLeaves(s: State, k: nat, now: real, price: Option<real>)
    requires k < |s.children| && !Finished(s.children[k].status) && s.children[k].cycleStart.Some?
    requires s.children[k].status.Idle? ==> Outstanding(s.orders) == 0.0
    ensures var t := StepChild(s, k, now, price); var was, ch := s.children[k], t.children[k];
            && |t.children| == |s.children| && t.filled == s.filled && t.cfg == s.cfg
            && (forall c: nat :: c < |s.children| && c != k ==> t.children[c] == s.children[c])
            && ch.filled == was.filled && ch.target == was.target
            && (was.status.Idle? && Expired(s, k, now) ==> Finished(ch.status))
            && (Finished(ch.status) ==> was.status.Idle? && (Expired(s, k, now) || Residual(s, k) <= 0.0))
  {
    hide Outstanding;
  }

  lemma FilledLeaves(v: World, e: Event, c: nat)
    requires Shape(v.exec, v.ended) && Enabled(v, e) && e.Filled? && c < |v.exec.children|
    ensures Leaves(v, e, c)
  {
    hide Outstanding, OrderOk;
    var s := v.exec;
    if Known(s, e.id) && !Replayed(s, e.id, e.trade) { FilledRecordOk(v, e); }
  }

  lemma CompletedLeaves(v: World, e: Event, c: nat)
    requires Shape(v.exec, v.ended) && Enabled(v, e) && e.OrderCompleted? && c < |v.exec.children| && Tight(v.exec)
    ensures Leaves(v, e, c)
  {
    hide Outstanding;
    var s := v.exec;
    if Known(s, e.id) {
      TrackedOrder(s, v.ended, e.id);
      assert OrderOk(s, v.ended, e.id);
    }
  }

  lemma CanceledLeaves(v: World, e: Event, c: nat)
    requires Shape(v.exec, v.ended) && Enabled(v, e) && e.OrderCanceled?
    requires c < |v.exec.children|
    ensures Leaves(v, e, c)
  {
    hide Outstanding, RetryDelay, RecordOk, ChildOk, OrderOk;
    var s := v.exec;
    if Known(s, e.id) {
      TrackedOrder(s, v.ended, e.id);
      if !s.orders[e.id].terminal { EndedAll(s, v.ended, e.id); }
    }
  }

  lemma FailedLeaves(v: World, e: Event, c: nat)
    requires Shape(v.exec, v.ended) && Enabled(v, e) && e.OrderFailed?
    requires c < |v.exec.children|
    ensures Leaves(v, e, c)
  {
    hide Outstanding, RetryDelay, RecordOk, ChildOk, OrderOk;
    var s := v.exec;
    if Known(s, e.id) {
      TrackedOrder(s, v.ended, e.id);
      if !s.orders[e.id].terminal { EndedAll(s, v.ended, e.id); }
    }
  }

  lemma EventLeaves(v: World, e: Event, c: nat)
    requires Shape(v.exec, v.ended) && Enabled(v, e) && Tight(v.exec) && c < |v.exec.children|
    ensures Leaves(v, e, c)
  {
    hide Shape, Legal, Tight, ExpiryVisit, Drain, Step;
    match e
    case Timer(_, _) => TimerLeaves(v, e, c);
    case Filled(_, _, _) => FilledLeaves(v, e, c);
    case OrderCompleted(_, _) => CompletedLeaves(v, e, c);
    case OrderCanceled(_) => CanceledLeaves(v, e, c);
    case OrderFailed(_, _, _) => FailedLeaves(v, e, c);
    case StopRequest(_, _) => StopLeaves(v, e, c);
  }

  lemma StopLeaves(v: World, e: Event, c: nat)
    requires WellIndexed(v.exec) && e.StopRequest? && c < |v.exec.children|
    ensures Leaves(v, e, c)
  {
    hide OpenIds, Outstanding;
  }

  ghost predicate GivesUpAt(w0: World, es: seq<Event>, c: nat, k: nat)
    requires LegalRun(w0, es) && k < |es|
  {
    GivesUp(At(w0, es, k), es[k], c)
  }

  ghost predicate GaveUp(w0: World, es: seq<Event>, c: nat)
    requires LegalRun(w0, es)
  {
    exists k: nat :: k < |es| && GivesUpAt(w0, es, c, k)
  }

  ghost predicate Unfilled(w0: World, es: seq<Event>, c: nat)
    requires LegalRun(w0, es)
  {
    var s := RunOf(w0, es).exec;
    && c < |s.children| && Tight(s)
    && (GaveUp(w0, es, c) ==> Finished(s.children[c].status))
    && (Finished(s.children[c].status) && Residual(s, c) > 0.0 ==> GaveUp(w0, es, c))
  }

  lemma GaveUpStep(w0: World, es: seq<Event>, c: nat)
    requires LegalRun(w0, es) && es != [] && LegalRun(w0, es[..|es| - 1])
    ensures GaveUp(w0, es, c) <==> GaveUp(w0, es[..|es| - 1], c) || GivesUpAt(w0, es, c, |es| - 1)
  {
    hide LegalRun, GivesUp, At;
    var n := |es| - 1;
    if GaveUp(w0, es[..n], c) {
      var k: nat :| k < n && GivesUpAt(w0, es[..n], c, k);
      SamePrefix(w0, es, k);
      assert GivesUpAt(w0, es, c, k);
    }
    if GaveUp(w0, es, c) {
      var k: nat :| k < |es| && GivesUpAt(w0, es, c, k);
      if k < n { SamePrefix(w0, es, k); assert GivesUpAt(w0, es[..n], c, k); }
    }
  }

  lemma {:induction false} RunUnfilled(w0: World, es: seq<Event>, cfg: Config, clock: real, c: nat)
    requires StartOf(cfg, clock, w0) && LegalRun(w0, es) && c < |w0.exec.children|
    ensures Unfilled(w0, es, c)
    decreases |es|
  {
    hide Inv, Shape, Apply, Tight, GivesUp, Residual, GaveUp, LegalRun;
    if es == [] {
      StartUntold(cfg, clock, w0, c);
      StartTight(cfg, clock, w0);
      assert !GaveUp(w0, es, c) by { GaveUpNothing(w0, c); }
    } else {
      var n := |es| - 1;
      LastStep(w0, es);
      RunUnfilled(w0, es[..n], cfg, clock, c);
      RunStory(w0, es[..n], cfg, clock, c);
      GaveUpStep(w0, es, c);
      var v := At(w0, es, n);
      InvShape(v);
      NextTight(v, es[n]);
      EventLeaves(v, es[n], c);
    }
  }

  lemma GaveUpNothing(w0: World, c: nat)
    requires LegalRun(w0, [])
    ensures !GaveUp(w0, [], c)
  {
  }

  lemma StartTight(cfg: Config, clock: real, w0: World)
    requires StartOf(cfg, clock, w0)
    ensures Tight(w0.exec)
  {
    if w0.exec.children != [] { StartUntold(cfg, clock, w0, 0); }
  }

  // At step k the cancel of an order is acknowledged that rested when its child's cycle was
  // found over.
  ghost predicate LapsedAt(w0: World, es: seq<Event>, c: nat, k: nat)
    requires LegalRun(w0, es) && k < |es|
  {
    Canceled(At(w0, es, k), es[k], c) && exists j: nat :: j < k && RestingAt(w0, es, c, j)
  }

  // How a child is given up at step k, in OPEN and in CLOSE.
  ghost predicate LeftAt(cfg: Config, w0: World, es: seq<Event>, c: nat, k: nat)
    requires LegalRun(w0, es) && k < |es|
  {
    var v := At(w0, es, k);
    || SkippedIdle(v, es[k], c)
    || (!cfg.closing && LapsedAt(w0, es, c, k))
    || (cfg.closing && Refused(v, es[k], c))
    || CompletedShort(v, es[k], c)
  }

  lemma LapsedExactly(cfg: Config, clock: real, w0: World, es: seq<Event>, c: nat, k: nat)
    requires StartOf(cfg, clock, w0) && LegalRun(w0, es) && c < |w0.exec.children| && k < |es|
    ensures GivesUpAt(w0, es, c, k) <==> LeftAt(cfg, w0, es, c, k)
  {
    hide Inv, Clocked, Shape, Acked, ExpiryVisit, HasMarket, StartOf, LegalRun, RunOf, Tracks, Spent;
    PrefixLegal(w0, es, k);
    RunStory(w0, es[..k], cfg, clock, c);
    forall j: nat | j < k ensures RestingAt(w0, es, c, j) <==> RestingAt(w0, es[..k], c, j) {
      PrefixLegal(w0, es, j);
      assert es[..k][..j] == es[..j];
    }
  }

  /** A child that still lacks something has been given up exactly when some tick found it IDLE
      at or after its expiry; or, in OPEN, the cancel of an order that rested then was
      acknowledged; or, in CLOSE, the venue refused its order as reduce-only; or its order
      completed below its size. Nothing else ends it unfilled. */
  lemma UnfilledExactly(cfg: Config, clock: real, w0: World, es: seq<Event>, c: nat)
    requires StartOf(cfg, clock, w0) && LegalRun(w0, es) && c < |w0.exec.children|
    ensures c < |RunOf(w0, es).exec.children|
    ensures Residual(RunOf(w0, es).exec, c) > 0.0 ==>
              (Finished(RunOf(w0, es).exec.children[c].status) <==>
               exists k: nat :: k < |es| && LeftAt(cfg, w0, es, c, k))
  {
    hide StartOf, LegalRun, RunOf, GivesUpAt, Tight, Residual, LeftAt;
    RunUnfilled(w0, es, cfg, clock, c);
    forall k: nat | k < |es| ensures GivesUpAt(w0, es, c, k) <==> LeftAt(cfg, w0, es, c, k) {
      LapsedExactly(cfg, clock, w0, es, c, k);
    }
  }

  // ---- Which cancelled orders are crossed ------------------------------------------------------

  /** A cancelled order is crossed with a market order exactly when the executor is still
      running, closing, cancelled it for its expired cycle, and its child still lacks
      something. */
  lemma CrossesExactly(cfg: Config, es: seq<Event>, w: World, id: OrderId)
    requires Reaches(cfg, es, w) && Enabled(w, OrderCanceled(id)) && Tracks(w.exec, id)
    ensures var s := w.exec; var t := Next(w, OrderCanceled(id)).exec; var c := s.orders[id].child;
            && (|t.orders| > |s.orders| <==>
                  && s.status == Running && cfg.closing
                  && s.children[c].cancelReason.CycleExpired? && Residual(s, c) > 0.0)
            && (|t.orders| > |s.orders| ==>
                  && |t.sent| == |t.orders| && t.sent[|s.orders|] == Market
                  && t.orders[|s.orders|].amount == Residual(s, c))
  {
    ReachesInv(cfg, es, w);
    hide Reaches, Apply, Residual, Bounds, Books, Crossing;
    CanceledCrosses(w, id);
  }

  lemma CanceledCrosses(w: World, id: OrderId)
    requires Shape(w.exec, w.ended) && Enabled(w, OrderCanceled(id)) && Tracks(w.exec, id)
    ensures var s := w.exec; var t := Apply(s, OrderCanceled(id)); var c := s.orders[id].child;
            && (|t.orders| > |s.orders| <==>
                  && s.status == Running && s.cfg.closing
                  && s.children[c].cancelReason.CycleExpired? && Residual(s, c) > 0.0)
            && |t.sent| == |t.orders|
            && (|t.orders| > |s.orders| ==>
                  t.sent[|s.orders|] == Market && t.orders[|s.orders|].amount == Residual(s, c))
  {
    hide Outstanding, RecordOk, ChildOk;
    var s := w.exec;
    TrackedOrder(s, w.ended, id);
    var t := EndOrder(s, id);
    forall i: nat | i < |t.orders| - 1 ensures t.orders[i].terminal { assert OrderOk(s, w.ended, i); }
    OutstandingIsNewest(t);
  }

  // ---- A CLOSE run that never crosses ---------------------------------------------------------------

  function LateAckEvents(): seq<Event> {
    [Timer(0.0, Some(1.0)), Timer(3.0, None), OrderCanceled(0), Timer(5.0, None), Timer(6.0, None)]
  }

  function Quiet(total: real): World {
    Start(Config(total, total, 5.0, 3.0, true, 10), [FreshChild(total)], 0.0)
  }

  function QuietResting(total: real): World {
    var w := Quiet(total);
    w.(exec := w.exec.(
         children := [FreshChild(total).(status := Active, tracked := Some(0),
                                         cycleStart := Some(0.0), refreshStart := Some(0.0))],
         orders := [Record(0, total, 0.0, 0.0, 0.0, {}, false)], sent := [Limit(1.0)]))
  }

  function QuietCanceling(total: real): World {
    var w := QuietResting(total);
    var ch := w.exec.children[0].(status := Canceling, cancelReason := Refresh);
    w.(exec := w.exec.(children := [ch], cancels := {0}), clock := 3.0)
  }

  function QuietIdle(total: real): World {
    var w := QuietCanceling(total);
    var ch := w.exec.children[0].(status := Idle, tracked := None);
    var order := w.exec.orders[0];
    w.(exec := w.exec.(children := [ch], orders := [order.(terminal := true)]), ended := map[0 := ByCancel])
  }

  function QuietSkipped(total: real): World {
    var w := QuietIdle(total);
    var ch := w.exec.children[0].(status := Skipped);
    w.(exec := w.exec.(children := [ch]), clock := 5.0)
  }

  /** The documented fallback to a market order at cycle expiry is not always taken: when the
      cancel of a refresh is acknowledged but the re-placement falls at or after the expiry,
      a CLOSE child is skipped without crossing, and the run ends unfilled. */
  lemma ExpiryWithoutCrossing(total: real) returns (w: World)
    requires total > 0.0
    ensures Reaches(Quiet(total).exec.cfg, LateAckEvents(), w) && w.exec.cfg.closing
    ensures w.exec.status == Terminated && w.exec.closeType == Some(TimeLimit)
    ensures w.exec.sent == [Limit(1.0)] && w.exec.filled == 0.0
  {
    hide Next, Inv;
    var es := LateAckEvents();
    QuietPlaces(total);
    QuietRefreshes(total);
    QuietAcks(total);
    QuietSkips(total);
    QuietCloses(total);
    w := Next(QuietSkipped(total), es[4]);
    RunOfFive(Quiet(total), es, QuietResting(total), QuietCanceling(total), QuietIdle(total), QuietSkipped(total), w);
    QuietStarts(total);
    assert StartOf(Quiet(total).exec.cfg, 0.0, Quiet(total));
  }

  lemma QuietPlaces(total: real)
    requires total > 0.0
    ensures Enabled(Quiet(total), Timer(0.0, Some(1.0)))
    ensures Next(Quiet(total), Timer(0.0, Some(1.0))) == QuietResting(total)
  {
    assert Works([]) == [];
  }

  lemma QuietRefreshes(total: real)
    requires total > 0.0
    ensures Enabled(QuietResting(total), Timer(3.0, None))
    ensures Next(QuietResting(total), Timer(3.0, None)) == QuietCanceling(total)
  {
  }

  lemma QuietAcks(total: real)
    requires total > 0.0
    ensures Enabled(QuietCanceling(total), OrderCanceled(0))
    ensures Next(QuietCanceling(total), OrderCanceled(0)) == QuietIdle(total)
  {
  }

  lemma QuietSkips(total: real)
    requires total > 0.0
    ensures Enabled(QuietIdle(total), Timer(5.0, None))
    ensures Next(QuietIdle(total), Timer(5.0, None)) == QuietSkipped(total)
  {
  }

  lemma QuietCloses(total: real)
    requires total > 0.0
    ensures Enabled(QuietSkipped(total), Timer(6.0, None))
    ensures var w := Next(QuietSkipped(total), Timer(6.0, None));
            && w.exec.cfg.closing && w.exec.status == Terminated && w.exec.closeType == Some(TimeLimit)
            && w.exec.sent == [Limit(1.0)] && w.exec.filled == 0.0
  {
    SumZero(Works(QuietSkipped(total).exec.orders));
  }

  lemma QuietStarts(total: real)
    requires total > 0.0
    ensures StartOf(Quiet(total).exec.cfg, 0.0, Quiet(total))
  {
    assert total / total == 1.0;
    assert BuildChildren(total, total).value == [FreshChild(total)];
  }

  function NoBookEvents(): seq<Event> { [Timer(0.0, None), Timer(5.0, None), Timer(6.0, None)] }

  function QuietWaiting(total: real): World {
    var w := Quiet(total);
    w.(exec := w.exec.(children := [FreshChild(total).(cycleStart := Some(0.0), retryAt := Some(1.0))]))
  }

  function QuietOver(total: real): World {
    var w := QuietWaiting(total);
    w.(exec := w.exec.(children := [w.exec.children[0].(status := Skipped)]), clock := 5.0)
  }

  /** Nor does a CLOSE child get any order when the book has no price until its expiry. */
  lemma ExpiryWithoutOrder(total: real) returns (w: World)
    requires total > 0.0
    ensures Reaches(Quiet(total).exec.cfg, NoBookEvents(), w) && w.exec.cfg.closing
    ensures w.exec.status == Terminated && w.exec.closeType == Some(TimeLimit)
    ensures w.exec.sent == [] && w.exec.filled == 0.0
  {
    hide Next, Inv;
    var es := NoBookEvents();
    NoBookWaits(total);
    NoBookSkips(total);
    NoBookCloses(total);
    w := Next(QuietOver(total), es[2]);
    RunOfThree(Quiet(total), es, QuietWaiting(total), QuietOver(total), w);
    QuietStarts(total);
    assert StartOf(Quiet(total).exec.cfg, 0.0, Quiet(total));
  }

  lemma NoBookWaits(total: real)
    requires total > 0.0
    ensures Enabled(Quiet(total), Timer(0.0, None))
    ensures Next(Quiet(total), Timer(0.0, None)) == QuietWaiting(total)
  {
  }

  lemma NoBookSkips(total: real)
    requires total > 0.0
    ensures Enabled(QuietWaiting(total), Timer(5.0, None))
    ensures Next(QuietWaiting(total), Timer(5.0, None)) == QuietOver(total)
  {
  }

  lemma NoBookCloses(total: real)
    requires total > 0.0
    ensures Enabled(QuietOver(total), Timer(6.0, None))
    ensures var w := Next(QuietOver(total), Timer(6.0, None));
            && w.exec.cfg.closing && w.exec.status == Terminated && w.exec.closeType == Some(TimeLimit)
            && w.exec.sent == [] && w.exec.filled == 0.0
  {
    assert Works([]) == [];
  }
}
