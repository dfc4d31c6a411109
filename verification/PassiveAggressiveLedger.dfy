/**
 The fill ledger is confluent: what each order is credited depends only on which fills and
 completion reports arrived, not on their order, repetition, or what else happened.
 */
module PassiveAggressiveLedger {
  import opened Common
  import opened PassiveAggressive
  import opened PassiveAggressiveRuns
  import opened PassiveAggressiveSafety
  import opened PassiveAggressiveOutcome
  import opened PassiveAggressiveTheorems

  type Fill = (TradeId, real)

  // ---- What a trace says about one order, read off the events alone -------------

  ghost function FillsOf(es: seq<Event>, i: OrderId): set<Fill> {
    set e | e in es && e.Filled? && e.id == i && e.trade.Some? :: (e.trade.value, e.amount)
  }

  ghost function ReportsOf(es: seq<Event>, i: OrderId): set<real> {
    set e | e in es && e.OrderCompleted? && e.id == i :: e.amount
  }

  ghost function Executed(fills: set<Fill>): real {
    if fills == {} then 0.0 else var f :| f in fills; f.1 + Executed(fills - {f})
  }

  // Every fill carries a trade id, and a trade id of an order always means one amount.
  ghost predicate Traded(es: seq<Event>) {
    && (forall e :: e in es && e.Filled? ==> e.trade.Some?)
    && (forall e, f | e in es && f in es && e.Filled? && f.Filled?
                      && e.id == f.id && e.trade == f.trade :: e.amount == f.amount)
  }

  // The largest completion report, or zero when there is none.
  ghost predicate IsLargestReport(x: real, reports: set<real>) {
    && x >= 0.0 && (x == 0.0 || x in reports) && forall y :: y in reports ==> y <= x
  }

  lemma {:induction false} ExecutedAdd(fills: set<Fill>, f: Fill)
    requires f !in fills
    ensures Executed(fills + {f}) == Executed(fills) + f.1
    decreases |fills|
  {
    var all := fills + {f};
    var g :| g in all && Executed(all) == g.1 + Executed(all - {g});
    if g == f {
      assert all - {g} == fills;
    } else {
      assert all - {g} == (fills - {g}) + {f};
      ExecutedAdd(fills - {g}, f);
      ExecutedAdd(fills - {g}, g);
      assert (fills - {g}) + {g} == fills;
    }
  }

  // ---- The ledger agrees with the trace -------------------------------------------

  ghost predicate HasTrade(fills: set<Fill>, t: TradeId) { exists f :: f in fills && f.0 == t }

  ghost predicate RecordAgrees(r: Record, fills: set<Fill>, reports: set<real>) {
    && r.fillSum == Executed(fills)
    && (forall t :: t in r.tradeIds <==> HasTrade(fills, t))
    && IsLargestReport(r.reported, reports)
  }

  ghost predicate LedgerAgrees(s: State, es: seq<Event>) {
    && (forall i: nat :: i < |s.orders| ==> RecordAgrees(s.orders[i], FillsOf(es, i), ReportsOf(es, i)))
    && (forall e :: e in es && HasOrder(e) ==> e.id < |s.orders|)
  }

  lemma NextAgrees(w: World, es: seq<Event>, e: Event)
    requires Inv(w) && Enabled(w, e) && Traded(es + [e]) && LedgerAgrees(w.exec, es)
    ensures LedgerAgrees(Next(w, e).exec, es + [e])
  {
    var s := w.exec;
    var p := Posted(s, e);
    var t := Apply(s, e);
    Factor(w, e);
    EventsKnown(w, es, e);
    hide Inv, Enabled, Posted, Apply, RecordAgrees, Traded, FillsOf, ReportsOf;
    forall i: nat | i < |t.orders|
      ensures RecordAgrees(t.orders[i], FillsOf(es + [e], i), ReportsOf(es + [e], i))
    {
      if i < |s.orders| {
        assert t.orders[i] == p.orders[i];
        RecordFollows(w, es, e, i);
      } else {
        NewRecordAgrees(t.orders[i], es + [e], i);
      }
    }
  }

  lemma EventsKnown(w: World, es: seq<Event>, e: Event)
    requires Enabled(w, e) && LedgerAgrees(w.exec, es)
    ensures forall x :: x in es + [e] && HasOrder(x) ==> x.id < |w.exec.orders|
  {
  }

  lemma NewRecordAgrees(r: Record, es: seq<Event>, i: nat)
    requires forall x :: x in es && HasOrder(x) ==> x.id < i
    requires r.fillSum == 0.0 && r.tradeIds == {} && r.reported == 0.0
    ensures RecordAgrees(r, FillsOf(es, i), ReportsOf(es, i))
  {
    assert FillsOf(es, i) == {};
    assert ReportsOf(es, i) == {};
  }

  lemma RecordFollows(w: World, es: seq<Event>, e: Event, i: nat)
    requires Inv(w) && Enabled(w, e) && Traded(es + [e]) && LedgerAgrees(w.exec, es)
    requires i < |w.exec.orders|
    ensures RecordAgrees(Posted(w.exec, e).orders[i], FillsOf(es + [e], i), ReportsOf(es + [e], i))
  {
    hide Inv, Executed, Outstanding;
    var s := w.exec;
    var r := s.orders[i];
    var fills, reports := FillsOf(es, i), ReportsOf(es, i);
    assert RecordAgrees(r, fills, reports);
    assert e in es + [e];
    if e.Filled? && e.id == i {
      assert ReportsOf(es + [e], i) == reports;
      var f := (e.trade.value, e.amount);
      assert FillsOf(es + [e], i) == fills + {f};
      if e.trade.value in r.tradeIds {
        KnownTrade(es, e, i);
        assert fills + {f} == fills;
      } else {
        assert f in fills ==> HasTrade(fills, f.0);
        ExecutedAdd(fills, f);
        TradeAdded(r, fills, f);
      }
    } else if e.OrderCompleted? && e.id == i {
      assert FillsOf(es + [e], i) == fills;
      assert ReportsOf(es + [e], i) == reports + {e.amount};
    } else {
      assert FillsOf(es + [e], i) == fills;
      assert ReportsOf(es + [e], i) == reports;
    }
  }

  lemma KnownTrade(es: seq<Event>, e: Event, i: nat)
    requires Traded(es + [e]) && e.Filled? && e.id == i && e.trade.Some?
    requires HasTrade(FillsOf(es, i), e.trade.value)
    ensures (e.trade.value, e.amount) in FillsOf(es, i)
  {
    var f :| f in FillsOf(es, i) && f.0 == e.trade.value;
    var g :| g in es && g.Filled? && g.id == i && g.trade.Some? && (g.trade.value, g.amount) == f;
    assert g in es + [e] && e in es + [e];
  }

  lemma TradeAdded(r: Record, fills: set<Fill>, f: Fill)
    requires forall t :: t in r.tradeIds <==> HasTrade(fills, t)
    ensures forall t :: t in r.tradeIds + {f.0} <==> HasTrade(fills + {f}, t)
  {
    forall t ensures t in r.tradeIds + {f.0} <==> HasTrade(fills + {f}, t) {
      if t == f.0 {
        assert f in fills + {f};
      } else if HasTrade(fills, t) {
        var g :| g in fills && g.0 == t;
        assert g in fills + {f};
      }
    }
  }

  lemma {:induction false} RunAgrees(w: World, done: seq<Event>, es: seq<Event>)
    requires Inv(w) && LegalRun(w, es) && Traded(done + es) && LedgerAgrees(w.exec, done)
    ensures LedgerAgrees(RunOf(w, es).exec, done + es)
    decreases |es|
  {
    hide Inv, Next, LedgerAgrees;
    if es == [] {
      assert done + es == done;
    } else {
      var e := es[0];
      assert done + es == (done + [e]) + es[1..];
      TradedPrefix(done + [e], es[1..]);
      NextAgrees(w, done, e);
      NextInv(w, e);
      RunAgrees(Next(w, e), done + [e], es[1..]);
    }
  }

  lemma TradedPrefix(es: seq<Event>, fs: seq<Event>)
    requires Traded(es + fs)
    ensures Traded(es)
  {
    assert forall e :: e in es ==> e in es + fs;
  }

  // ---- Theorems -------------------------------------------------------------------

  /** Each order's credit is the larger of the sum of its distinct fills and its largest
      completion report, as read from the trace alone. */
  lemma CreditIsExecution(cfg: Config, es: seq<Event>, w: World, i: nat, report: real)
    requires Reaches(cfg, es, w) && Traded(es) && i < |w.exec.orders|
    requires IsLargestReport(report, ReportsOf(es, i))
    ensures w.exec.orders[i].credited == Max(Executed(FillsOf(es, i)), report)
  {
    ReachesAgrees(cfg, es, w);
    hide Reaches, FillsOf, ReportsOf, Traded, Executed;
    assert OrderOk(w.exec, w.ended, i);
    assert RecordAgrees(w.exec.orders[i], FillsOf(es, i), ReportsOf(es, i));
  }

  lemma ReachesAgrees(cfg: Config, es: seq<Event>, w: World)
    requires Reaches(cfg, es, w) && Traded(es)
    ensures LedgerAgrees(w.exec, es) && Inv(w)
  {
    ReachesInv(cfg, es, w);
    var clock: real, w0: World :| StartOf(cfg, clock, w0) && LegalRun(w0, es) && w == RunOf(w0, es);
    StartInv(cfg, clock, w0);
    assert LedgerAgrees(w0.exec, []);
    hide Inv, LedgerAgrees, StartOf;
    assert [] + es == es;
    RunAgrees(w0, [], es);
  }

  /** Two runs that submitted the same orders and saw the same fills and reports agree on
      every order's credit, every child's fill and the total, whatever the event order. */
  lemma Confluence(cfg: Config, es1: seq<Event>, w1: World, es2: seq<Event>, w2: World)
    requires Reaches(cfg, es1, w1) && Reaches(cfg, es2, w2) && Traded(es1) && Traded(es2)
    requires |w1.exec.orders| == |w2.exec.orders|
    requires forall i: nat :: i < |w1.exec.orders| ==>
               && w1.exec.orders[i].child == w2.exec.orders[i].child
               && FillsOf(es1, i) == FillsOf(es2, i) && ReportsOf(es1, i) == ReportsOf(es2, i)
    ensures forall i: nat :: i < |w1.exec.orders| ==>
              w1.exec.orders[i].credited == w2.exec.orders[i].credited
    ensures forall c: nat :: c < |w1.exec.children| && c < |w2.exec.children| ==>
              w1.exec.children[c].filled == w2.exec.children[c].filled
    ensures w1.exec.filled == w2.exec.filled
  {
    hide Reaches, Traded, FillsOf, ReportsOf, Executed, Sum;
    forall i: nat | i < |w1.exec.orders|
      ensures w1.exec.orders[i].credited == w2.exec.orders[i].credited
    {
      var report := LargestReport(cfg, es1, w1, i);
      CreditIsExecution(cfg, es1, w1, i, report);
      CreditIsExecution(cfg, es2, w2, i, report);
    }
    Conservation(cfg, es1, w1);
    Conservation(cfg, es2, w2);
    assert Credits(w1.exec.orders) == Credits(w2.exec.orders);
    forall c: nat | c < |w1.exec.children| && c < |w2.exec.children|
      ensures w1.exec.children[c].filled == w2.exec.children[c].filled
    {
      assert CreditsOf(w1.exec.orders, c) == CreditsOf(w2.exec.orders, c);
    }
  }

  lemma LargestReport(cfg: Config, es: seq<Event>, w: World, i: nat) returns (report: real)
    requires Reaches(cfg, es, w) && Traded(es) && i < |w.exec.orders|
    ensures IsLargestReport(report, ReportsOf(es, i))
  {
    ReachesAgrees(cfg, es, w);
    assert RecordAgrees(w.exec.orders[i], FillsOf(es, i), ReportsOf(es, i));
    report := w.exec.orders[i].reported;
  }
}
