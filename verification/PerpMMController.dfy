/** The controller object: one decision cycle updates its flags and its watchdog in place. */
module PerpMMControllerClass {
  import opened Common
  import opened Resilience
  import opened ResilienceObjects
  import opened PerpBridge
  import opened PerpMM
  import Safety = PerpSafety
  import Stop = PortfolioStop

  class PerpMMController {
    const settings: Settings
    const coin: string
    const client: InProcessClient
    const quoteLiveness: QuoteLivenessWatchdog
    var quoteRefreshPending: bool
    var quoteCancelStartedAt: Option<real>

    ghost function View(): Ctrl
      reads this, quoteLiveness
    {
      Ctrl(quoteRefreshPending, quoteCancelStartedAt, quoteLiveness.View())
    }

    constructor (settings: Settings, coin: string, livenessTimeout: real, recoveryCooldown: real)
      ensures fresh(client) && fresh(quoteLiveness)
      ensures View() == Ctrl(false, None, NewWatch(livenessTimeout, recoveryCooldown))
      ensures client.View() == Client(map[], None) && this.settings == settings && this.coin == coin
    {
      this.settings := settings;
      this.coin := coin;
      client := new InProcessClient();
      quoteLiveness := new QuoteLivenessWatchdog(livenessTimeout, recoveryCooldown);
      quoteRefreshPending := false;
      quoteCancelStartedAt := None;
    }

    // Flatten this leg, and publish the emergency to the basket.
    method ForceFlattenIntent(
        current: real, book: Stop.PortfolioStopBook?, account: string, lastMid: Safety.LastMid, now: real,
        flat: Stop.FlatTargets)
      modifies client, if book == null then {} else {book.db}
      ensures client.View() == ForceFlatten(old(client.View()), coin, current)
      ensures book != null ==>
                book.db.rows
                == Stop.Update(
                     book.View(), old(book.db.rows), Safety.Alarm(coin, account, current, lastMid, now), flat).0
    {
      client.lastIntent := Some(Intent(coin, 0.0, Some(current), None, EmergencyExit));
      PublishPortfolioEmergency(book, account, current, lastMid, now, flat);
    }

    // A failed publication is logged and changes nothing.
    method PublishPortfolioEmergency(
        book: Stop.PortfolioStopBook?, account: string, position: real, lastMid: Safety.LastMid, now: real,
        flat: Stop.FlatTargets)
      modifies if book == null then {} else {book.db}
      ensures book != null ==>
                book.db.rows
                == Stop.Update(
                     book.View(), old(book.db.rows), Safety.Alarm(coin, account, position, lastMid, now), flat).0
    {
      if book != null {
        var _ := book.UpdateLeg(Safety.Alarm(coin, account, position, lastMid, now), flat);
      }
    }

    // Publish this leg to the basket and let the basket overrule the keeper's intent.
    method PortfolioTransform(
        book: Stop.PortfolioStopBook?, account: string, decision: Safety.KeeperDecision,
        intent: Option<Intent>, position: real, mid: Option<real>, now: real, flat: Stop.FlatTargets)
      returns (r: Result<Option<Intent>>)
      modifies if book == null then {} else {book.db}
      ensures book == null ==> r == Success(intent)
      ensures book != null ==>
                var report := Stop.Report(Stop.Member(account, coin), Some(position), mid,
                                          Safety.LocalMode(decision, quoteLiveness.View(), now), Some(now));
                var updated := Stop.Update(book.View(), old(book.db.rows), report, flat);
                && book.db.rows == updated.0
                && (r.Success? <==> updated.1.Success?)
                && (r.Success? ==> r.value == Safety.Transformed(intent, coin, position, updated.1.value))
    {
      if book == null {
        return Success(intent);
      }
      var localMode := if decision.EmergencyExitDecision? then Stop.Emergency
                       else if decision.StopQuotingDecision? then Stop.Stop else Stop.Quote;
      if !quoteLiveness.AllowQuotes(now) {
        localMode := Stop.Emergency;
      }
      var d := book.UpdateLeg(
        Stop.Report(Stop.Member(account, coin), Some(position), mid, localMode, Some(now)), flat);
      if d.Failure? {
        return Failure(d.error);
      }
      if d.value.mode.QuoteAll? {
        return Success(intent);
      }
      var urgency := if d.value.mode.EmergencyAll? then EmergencyExit else Immediate;
      return Success(Some(Intent(coin, d.value.target, Some(position), None, urgency)));
    }

    method CancelTimedOut(now: real, expected: set<Side>, live: set<Side>) returns (timedOut: bool)
      modifies this, quoteLiveness
      ensures timedOut == CancelOverdue(old(View()), now)
      ensures View() == PerpMM.CancelTimedOut(old(View()), now, expected, live)
    {
      var started := quoteCancelStartedAt;
      if started.None? || now - started.value < quoteLiveness.timeout {
        return false;
      }
      quoteRefreshPending := false;
      quoteCancelStartedAt := None;
      quoteLiveness.Trip(now, expected, live);
      return true;
    }

    method QuoteCreateActions(i: Inputs, specs: seq<OrderSpec>) returns (actions: seq<ExecutorConfig>)
      ensures actions == CreateQuotes(settings, i, specs)
    {
      hide BelowMinima, Quantize, BufferedPrice;
      actions := [];
      for k := 0 to |specs|
        invariant actions + CreateQuotes(settings, i, specs[k..]) == CreateQuotes(settings, i, specs)
      {
        var spec := specs[k];
        assert specs[k..][0] == spec && specs[k..][1..] == specs[k + 1..];
        if spec.amount <= 0.0 {
          continue;
        }
        var price := BufferedPrice(settings, i, spec);
        if price.None? {
          continue;
        }
        var amount := Quantize(spec.amount, i.rules.step);
        if BelowMinima(i.rules, amount, price.value) {
          continue;
        }
        actions := actions + [Maker(i.now, spec.side, amount, price.value, spec.reduceOnly)];
      }
    }

    method DetermineExecutorActions(i: Inputs)
      returns (stops: seq<int>, creates: seq<ExecutorConfig>, emergency: bool)
      modifies this, quoteLiveness
      ensures Outcome(View(), stops, creates, emergency)
              == Determine(settings, old(View()), client.lastIntent, i)
    {
      if settings.shadow {
        return [], [], false;
      }
      var intent := client.lastIntent;
      if i.suspended && Quoting(intent) && quoteLiveness.AllowQuotes(i.now) {
        quoteLiveness.Suspend();
        quoteRefreshPending := false;
        return StopAllOf(Quotes(i.active)), [], false;
      }
      if Quoting(intent) && DataTooOld(settings, i) {
        stops, emergency := CancelOnStaleData(i);
        return stops, [], emergency;
      }
      if !Quoting(intent) {
        stops, creates := CloseOut(i);
        return stops, creates, false;
      }
      if Closes(i.active) != [] {
        quoteLiveness.Suspend();
        quoteRefreshPending := false;
        return StopsExcept(i.active, Ids(Closes(i.active))), [], false;
      }
      var specs := ExecutableSpecs(i.rules, ToOrderSpecs(intent));
      if quoteRefreshPending {
        stops, creates, emergency := FinishRefresh(i, specs);
      } else {
        stops, creates, emergency := MaintainQuotes(i, intent.value, specs);
      }
    }

    method CancelOnStaleData(i: Inputs) returns (stops: seq<int>, emergency: bool)
      modifies this, quoteLiveness
      ensures Outcome(View(), stops, [], emergency) == StaleData(old(View()), i)
    {
      quoteLiveness.Suspend();
      var quotes := Quotes(i.active);
      if quotes != [] && !quoteRefreshPending && quoteLiveness.AllowQuotes(i.now) {
        quoteRefreshPending := true;
        quoteCancelStartedAt := Some(i.now);
      }
      emergency := false;
      if quoteRefreshPending {
        emergency := CancelTimedOut(i.now, QuoteSides(quotes), LiveSides(quotes));
      }
      stops := StopAllOf(quotes);
    }

    method FinishRefresh(i: Inputs, specs: seq<OrderSpec>)
      returns (stops: seq<int>, creates: seq<ExecutorConfig>, emergency: bool)
      modifies this, quoteLiveness
      ensures Outcome(View(), stops, creates, emergency) == Pending(settings, old(View()), i, specs)
    {
      quoteLiveness.Suspend();
      if i.active != [] {
        emergency := CancelTimedOut(i.now, SpecSides(specs), LiveSides(i.active));
        return StopAllOf(i.active), [], emergency;
      }
      quoteRefreshPending := false;
      quoteCancelStartedAt := None;
      creates := QuoteCreateActions(i, specs);
      return [], creates, false;
    }

    method MaintainQuotes(i: Inputs, intent: Intent, specs: seq<OrderSpec>)
      returns (stops: seq<int>, creates: seq<ExecutorConfig>, emergency: bool)
      requires Closes(i.active) == []
      modifies this, quoteLiveness
      ensures Outcome(View(), stops, creates, emergency) == Settled(settings, old(View()), i, intent, specs)
    {
      var expected := SpecSides(specs);
      var live := LiveSides(i.active);
      var tripped := true;
      if quoteLiveness.AllowQuotes(i.now) {
        tripped := quoteLiveness.Observe(i.now, expected, live);
      }
      if tripped {
        var req := FailsafeRequest(intent);
        creates := if req.Some? && i.active == [] then [ExecutionConfig(settings, i, req.value)] else [];
        return StopAllOf(i.active), creates, true;
      }
      if i.active == [] {
        creates := QuoteCreateActions(i, specs);
        return [], creates, false;
      }
      QuotesOf(i.active);
      ClosesOf(i.active);
      assert i.active[0] in i.active;
      if KeepQuotes(settings, i, specs) {
        return [], [], false;
      }
      quoteRefreshPending := true;
      quoteCancelStartedAt := Some(i.now);
      quoteLiveness.Suspend();
      return StopAllOf(i.active), [], false;
    }

    method CloseOut(i: Inputs) returns (stops: seq<int>, creates: seq<ExecutorConfig>)
      modifies this, quoteLiveness
      ensures Outcome(View(), stops, creates, false) == Closing(settings, old(View()), i, client.lastIntent)
    {
      quoteLiveness.Suspend();
      quoteRefreshPending := false;
      var req := ToExecutionRequest(client.lastIntent);
      var quoteActive := Quotes(i.active);
      var keep: set<int> := {};
      creates := [];
      if req.Some? && quoteActive == [] {
        creates := [ExecutionConfig(settings, i, req.value)];
        var wanted := SignatureOf(creates[0]);
        keep := set e | e in i.active && SignatureOf(e.config) == wanted :: e.id;
        if keep != {} {
          creates := [];
        }
      } else if quoteActive != [] {
        keep := Ids(Closes(i.active));
      }
      stops := StopsExcept(i.active, keep);
    }
  }
}
