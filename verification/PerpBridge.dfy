/**
 The in-process client between the keeper and the controller: it remembers the last intent,
 latches a de-risking one until the position has reached its target, and turns intents into
 orders or close requests.
 */
module PerpBridge {
  import opened Common
  import opened Resilience

  const EPSILON: real := 0.000000000001

  datatype Urgency = Passive | Normal | Immediate | EmergencyExit

  datatype QuoteLegs = QuoteLegs(
    bidPrice: Option<real>, bidSize: real, askPrice: Option<real>, askSize: real)

  datatype Intent = Intent(
    coin: string, target: real, current: Option<real>, quote: Option<QuoteLegs>, urgency: Urgency)

  datatype Client = Client(positions: map<string, real>, lastIntent: Option<Intent>)

  datatype OrderSpec = OrderSpec(
    side: Side, price: real, amount: real, reduceOnly: bool, urgency: Urgency)

  datatype ExecutionRequest = ExecutionRequest(
    side: Side, amount: real, urgency: Urgency, reduceOnly: bool)

  function Priority(u: Urgency): int {
    if u.EmergencyExit? then 2 else if u.Immediate? then 1 else 0
  }

  predicate Quoting(intent: Option<Intent>) { intent.Some? && intent.value.quote.Some? }

  // The reported position has not yet reached the intent's target.
  predicate Gap(positions: map<string, real>, intent: Intent) {
    intent.coin in positions && Abs(positions[intent.coin] - intent.target) >= EPSILON
  }

  function SetPositions(c: Client, positions: map<string, real>): Client {
    var intent := c.lastIntent;
    if intent.Some? && intent.value.quote.None? && intent.value.coin in positions
       && Abs(positions[intent.value.coin] - intent.value.target) < EPSILON
    then Client(positions, None) else Client(positions, intent)
  }

  // Sending succeeds silently even when the latched intent stays in place; an intent that
  // fails its own validation raises.
  function SendIntent(c: Client, intent: Intent, valid: bool): (Client, Result<()>) {
    if !valid then (c, Failure("refusing invalid intent"))
    else if c.lastIntent.Some? && c.lastIntent.value.quote.None? && Gap(c.positions, c.lastIntent.value)
            && (intent.quote.Some? || Priority(intent.urgency) < Priority(c.lastIntent.value.urgency))
    then (c, Success(()))
    else (c.(lastIntent := Some(intent)), Success(()))
  }

  function FlattenIntent(coin: string, current: real): Intent {
    Intent(coin, 0.0, Some(current), None, EmergencyExit)
  }

  function ForceFlatten(c: Client, coin: string, current: real): Client {
    c.(lastIntent := Some(FlattenIntent(coin, current)))
  }

  function Inventory(intent: Intent): real {
    if intent.current.Some? then intent.current.value else 0.0
  }

  function ToExecutionRequest(intent: Option<Intent>): Option<ExecutionRequest> {
    if intent.None? || intent.value.quote.Some? then None
    else
      var gap := intent.value.target - Inventory(intent.value);
      if Abs(gap) < EPSILON then None
      else Some(ExecutionRequest(if gap > 0.0 then Buy else Sell, Abs(gap), intent.value.urgency, true))
  }

  // What a request adds to the position.
  function Traded(r: ExecutionRequest): real { if r.side == Buy then r.amount else -r.amount }

  function BidSpecs(intent: Intent, q: QuoteLegs): seq<OrderSpec> {
    if q.bidPrice.Some? && q.bidSize > 0.0
    then [OrderSpec(Buy, q.bidPrice.value, q.bidSize, Inventory(intent) < 0.0, intent.urgency)] else []
  }

  function AskSpecs(intent: Intent, q: QuoteLegs): seq<OrderSpec> {
    if q.askPrice.Some? && q.askSize > 0.0
    then [OrderSpec(Sell, q.askPrice.value, q.askSize, Inventory(intent) > 0.0, intent.urgency)] else []
  }

  function ToOrderSpecs(intent: Option<Intent>): seq<OrderSpec> {
    if !Quoting(intent) then []
    else BidSpecs(intent.value, intent.value.quote.value) + AskSpecs(intent.value, intent.value.quote.value)
  }

  // ---- The latch --------------------------------------------------------------------

  datatype ClientOp =
    | Positions(positions: map<string, real>)
    | Send(intent: Intent, valid: bool)
    | Flatten(coin: string, current: real)

  function ApplyClient(c: Client, op: ClientOp): Client {
    match op
    case Positions(positions) => SetPositions(c, positions)
    case Send(intent, valid) => SendIntent(c, intent, valid).0
    case Flatten(coin, current) => ForceFlatten(c, coin, current)
  }

  function RunClient(c: Client, ops: seq<ClientOp>): Client {
    if ops == [] then c else ApplyClient(RunClient(c, ops[..|ops| - 1]), ops[|ops| - 1])
  }

  // A de-risking intent is outstanding: its coin is reported away from its target.
  predicate Latched(c: Client) {
    c.lastIntent.Some? && c.lastIntent.value.quote.None? && Gap(c.positions, c.lastIntent.value)
  }

  // Nothing to de-risk is outstanding: no intent, or one whose target is reached (or whose
  // coin is not reported at all).
  predicate Released(c: Client) {
    c.lastIntent.None? || (c.lastIntent.value.quote.None? && !Gap(c.positions, c.lastIntent.value))
  }

  /** One operation on a latched client never installs a quoting intent, and lowers neither
      the latch's priority nor clears it before its target is reported reached. */
  lemma LatchStep(c: Client, op: ClientOp)
    requires Latched(c)
    ensures var d := ApplyClient(c, op);
            && !Quoting(d.lastIntent)
            && (d.lastIntent.Some? ==>
                  Priority(d.lastIntent.value.urgency) >= Priority(c.lastIntent.value.urgency))
            && (d.lastIntent.None? ==>
                  op.Positions? && c.lastIntent.value.coin in op.positions
                  && Abs(op.positions[c.lastIntent.value.coin] - c.lastIntent.value.target) < EPSILON)
            && (Latched(d) || Released(d))
  {
  }

  /** Over any run of position reports, sends and forced flattens, a latched client can
      come to quote only through a moment when nothing was outstanding, its target reached or
      its coin left out of a report; until then its intent stays non-quoting and its priority
      never falls. */
  lemma {:induction false} LatchHolds(c: Client, ops: seq<ClientOp>)
    requires Latched(c)
    ensures (exists k :: 0 < k <= |ops| && Released(RunClient(c, ops[..k])))
            || (Latched(RunClient(c, ops))
                && Priority(RunClient(c, ops).lastIntent.value.urgency) >= Priority(c.lastIntent.value.urgency))
  {
    if ops != [] {
      var before := ops[..|ops| - 1];
      LatchHolds(c, before);
      if k :| 0 < k <= |before| && Released(RunClient(c, before[..k])) {
        assert before[..k] == ops[..k];
      } else {
        LatchStep(RunClient(c, before), ops[|ops| - 1]);
        assert ops[..|ops|] == ops;
      }
    }
  }

  // The operation is about the controller's coin, and a report includes it.
  predicate Concerns(op: ClientOp, coin: string) {
    match op
    case Positions(positions) => coin in positions
    case Send(intent, _) => intent.coin == coin
    case Flatten(c, _) => c == coin
  }

  // Nothing is left to de-risk: no intent, or its target is reported reached.
  predicate Reached(c: Client) {
    c.lastIntent.None?
    || (c.lastIntent.value.quote.None? && c.lastIntent.value.coin in c.positions
        && Abs(c.positions[c.lastIntent.value.coin] - c.lastIntent.value.target) < EPSILON)
  }

  lemma ConcernedStep(c: Client, op: ClientOp, coin: string)
    requires Latched(c) && c.lastIntent.value.coin == coin && Concerns(op, coin)
    ensures var d := ApplyClient(c, op);
            && (Latched(d) || Reached(d))
            && (Latched(d) ==> d.lastIntent.value.coin == coin
                               && Priority(d.lastIntent.value.urgency) >= Priority(c.lastIntent.value.urgency))
            && (d.lastIntent.None? ==>
                  coin in d.positions && Abs(d.positions[coin] - c.lastIntent.value.target) < EPSILON)
  {
  }

  /** A controller reports its one coin every time and sends intents only for it. Over such
      a run a latched client stays latched, with a priority that never falls, until its
      intent's target has been reported reached. */
  lemma {:induction false} LatchUntilReached(c: Client, ops: seq<ClientOp>, coin: string)
    requires Latched(c) && c.lastIntent.value.coin == coin
    requires forall k :: 0 <= k < |ops| ==> Concerns(ops[k], coin)
    ensures (exists k :: 0 < k <= |ops| && Reached(RunClient(c, ops[..k])))
            || (Latched(RunClient(c, ops)) && RunClient(c, ops).lastIntent.value.coin == coin
                && Priority(RunClient(c, ops).lastIntent.value.urgency) >= Priority(c.lastIntent.value.urgency))
  {
    if ops != [] {
      var before := ops[..|ops| - 1];
      LatchUntilReached(c, before, coin);
      if k :| 0 < k <= |before| && Reached(RunClient(c, before[..k])) {
        assert before[..k] == ops[..k];
      } else {
        ConcernedStep(RunClient(c, before), ops[|ops| - 1], coin);
        assert ops[..|ops|] == ops;
      }
    }
  }

  // An emergency outranks an immediate intent, and both outrank the others.
  predicate Outranked(held: Urgency, u: Urgency) {
    (held.EmergencyExit? && !u.EmergencyExit?) || (held.Immediate? && (u.Passive? || u.Normal?))
  }

  /** Every valid intent is installed, quoting or not, unless the client is latched and the
      intent quotes or is outranked by the latched one. Otherwise the client stays as it is. */
  lemma SentExactly(c: Client, intent: Intent, valid: bool)
    ensures var d := ApplyClient(c, Send(intent, valid));
            var refused := Latched(c) && (intent.quote.Some? || Outranked(c.lastIntent.value.urgency, intent.urgency));
            && d.positions == c.positions
            && (valid && !refused ==> d.lastIntent == Some(intent))
            && (!valid || refused ==> d == c)
            && (SendIntent(c, intent, valid).1.Failure? <==> !valid)
  {
  }

  /** A valid quoting intent is installed exactly when the client is not latched. */
  lemma QuoteInstalledExactly(c: Client, intent: Intent)
    requires intent.quote.Some?
    ensures ApplyClient(c, Send(intent, true)).lastIntent == Some(intent) <==> !Latched(c)
  {
  }

  /** A report replaces the positions, and drops the intent exactly when it is a de-risking
      one whose coin is reported within 1e-12 of its target. */
  lemma ReportedExactly(c: Client, positions: map<string, real>)
    ensures var d := ApplyClient(c, Positions(positions));
            && d.positions == positions
            && (d.lastIntent == c.lastIntent || d.lastIntent.None?)
            && (c.lastIntent.Some? ==>
                  var i := c.lastIntent.value;
                  (d.lastIntent.None? <==>
                    i.quote.None? && i.coin in positions && -EPSILON < positions[i.coin] - i.target < EPSILON))
  {
  }

  /** A forced flatten leaves a de-risking intent whose close request trades the whole
      position away, as an emergency. */
  lemma FlattenGoesFlat(c: Client, coin: string, current: real)
    ensures var d := ApplyClient(c, Flatten(coin, current)); var r := ToExecutionRequest(d.lastIntent);
            && d.positions == c.positions && d.lastIntent.Some? && d.lastIntent.value.coin == coin
            && !Quoting(d.lastIntent)
            && (r.None? <==> -EPSILON < current < EPSILON)
            && (r.Some? ==> r.value.urgency == EmergencyExit && Traded(r.value) == -current)
  {
  }

  /** A quoting intent gives a bid exactly when it has a bid price and a positive bid size,
      at that price and size, reducing exactly when the inventory is short; likewise an ask. */
  lemma QuoteGivesOrders(intent: Intent, s: OrderSpec)
    requires intent.quote.Some?
    ensures var q := intent.quote.value;
            s in ToOrderSpecs(Some(intent)) <==>
              && s.urgency == intent.urgency
              && match s.side
                 case Buy => q.bidPrice == Some(s.price) && q.bidSize == s.amount > 0.0
                             && s.reduceOnly == (Inventory(intent) < 0.0)
                 case Sell => q.askPrice == Some(s.price) && q.askSize == s.amount > 0.0
                              && s.reduceOnly == (Inventory(intent) > 0.0)
  {
  }

  /** Until a position is reported for the coin the latch does not hold: a quoting intent
      replaces even an emergency one. */
  lemma NoLatchWithoutPosition(c: Client, intent: Intent)
    requires c.lastIntent.Some? && c.lastIntent.value.coin !in c.positions
    ensures ApplyClient(c, Send(intent, true)).lastIntent == Some(intent)
  {
  }

  /** A close request is a reduction: it trades from the current inventory exactly to the
      target, on the side that closes the gap, and exists only when there is a gap. */
  lemma RequestClosesGap(intent: Intent)
    requires intent.quote.None?
    ensures var r := ToExecutionRequest(Some(intent)); var current := Inventory(intent);
            && (r.None? <==> Abs(intent.target - current) < EPSILON)
            && (r.Some? ==>
                  r.value.amount >= EPSILON && r.value.reduceOnly && r.value.urgency == intent.urgency
                  && current + Traded(r.value) == intent.target)
  {
  }

  // ---- The client object --------------------------------------------------------------

  class InProcessClient {
    var positions: map<string, real>
    var lastIntent: Option<Intent>

    ghost function View(): Client
      reads this
    {
      Client(positions, lastIntent)
    }

    constructor ()
      ensures View() == Client(map[], None)
    {
      positions := map[];
      lastIntent := None;
    }

    method ReportPositions(positions: map<string, real>)
      modifies this
      ensures View() == SetPositions(old(View()), positions)
    {
      this.positions := positions;
      var intent := lastIntent;
      if intent.Some? && intent.value.quote.None? && intent.value.coin in positions {
        if Abs(positions[intent.value.coin] - intent.value.target) < EPSILON {
          lastIntent := None;
        }
      }
    }

    method Submit(intent: Intent, valid: bool) returns (r: Result<()>)
      modifies this
      ensures (View(), r) == SendIntent(old(View()), intent, valid)
    {
      if !valid {
        return Failure("refusing invalid intent");
      }
      var current := lastIntent;
      if current.Some? && current.value.quote.None? && current.value.coin in positions
         && Abs(positions[current.value.coin] - current.value.target) >= EPSILON {
        if intent.quote.Some? || Priority(intent.urgency) < Priority(current.value.urgency) {
          return Success(());
        }
      }
      lastIntent := Some(intent);
      return Success(());
    }
  }
}
