# OPMS execution safety: models and proofs

A Dafny model of the order-handling core of the OPMS trading controllers, and proofs about it.
Running `dafny verify dfyconfig.toml` checks everything.

## What is modelled

**Passive-aggressive executor** (`PassiveAggressive*.dfy`). A child-order state machine driven
by a timer and by asynchronous venue events. `PassiveAggressive` defines every transition,
`PassiveAggressiveRuns` the runs and the shape invariant, `PassiveAggressiveSafety` and
`PassiveAggressiveOutcome` the conservation, bound and outcome invariants,
`PassiveAggressiveTheorems`, `PassiveAggressiveProgress`, `PassiveAggressiveCrossing`,
`PassiveAggressiveTermination` and `PassiveAggressiveLedger` the results for all runs, and
`PassiveAggressiveSteps` exactly when an event submits, cancels or costs a retry.
`PassiveAggressiveExecutor.dfy` is the object with its callbacks and timer, each method proved
against one transition; `PassiveAggressiveDrive` drives the object through whole runs.

The environment is stated by `Legal` in `PassiveAggressiveRuns`: order ids are fresh and not
reported before they exist; time does not run backwards; amounts are non-negative and an
order's distinct fills and its completion stay within its size; a completed order is neither
cancelled nor failed afterwards, its fills stay within the completion, and a completion of an
order that had already ended reports nothing new. Fills may be late, repeated or reordered, and
may follow a cancel or a failure: the world records that late credit, and the bounds name it.

**Almgren-Chriss schedules** (`ACMath`, `ACShape`, `ACSchedule`). Amounts are exact reals; `exp`
and `sqrt` are any functions with their laws (`Lawful`). Schedules are proved sound for
fractions rising from 0 to 1, and in clock time equal to the closed form with its recurrence,
monotone slices and front-loading; `ACMeaning` says what the numbers are from the parameters
alone. **Volume forecast** (`VolumeForecast`): the hourly profile
and bucket forecast with their loops over arrays. **Schedule executor** (`ACExecution*`,
`ACScheduleExecutor`): pacing, the remainder slice, failures and rewinds, volume-time
replacement on the first tick. Its runs (`Legal` in `ACExecutionRuns`) assume that each order
ends once, by a completion of at most its size or by failing unfilled, and that the connector
shows an order as done exactly from its completion on; any working order may fail, and anything
may be in flight when the last slice is sent. The world records both (`older`, `rushed`, and the
amount in `drift`), `ACExecutionExposure` proves the accounts, and `ACExecutionTheorems` and
`ACExecutionShelter` state exactly when the total is kept; `ACExecutionSteps` says exactly what
a control task sends and when a run ends. The connector's view of an order is
an input to each call, because nothing in the executor attaches it. `stop()` belongs to the
framework: it is expected to detach the callbacks, but the runs also admit order events after it.

**Perp market-making controller** (`PerpBridge`, `PerpMM`, `PerpSafety`, `PerpDecisions`,
`PerpMMController`). The intent latch of the in-process client, one decision cycle with its
two-phase cancel-then-create protocol, and the system of client, controller and executors. A
cycle sees every executor that has not terminated; executors only disappear or receive ids.

**Resilience primitives** (`Resilience`, `ResilienceObjects`) and the **cross-process
portfolio stop** (`PortfolioStop`), over unbounded histories and arbitrary interleavings.

## Where the code differs from its documentation

- A CLOSE child is not always crossed at cycle expiry (`ExpiryWithoutCrossing`,
  `ExpiryWithoutOrder`): it is if and only if its first tick at or after the expiry finds it
  resting a limit order whose cancel is then acknowledged in time (`CrossedExactly`), and it ends
  unfilled if and only if a tick finds it IDLE then, or its order is refused as reduce-only, or
  completes short (`UnfilledExactly`).
- A failed slice is said to be retried, but the code sends the newest slice again, whichever
  order failed (`ResendExactly`). When an older order fails this can exceed the total
  (`OlderFailureOvertrades`): `ShelteredExactly` says for which schedules, `CommitmentExactly` in
  which runs.
- Nothing attaches the connector's order to a tracked one, so a run that waits for an order to
  show as done does not end by itself (`UnshownNeverEnds`).
- `evaluate_max_retries` is said to close a run out of retries as FAILED, but nothing under `src`
  calls it: such a run keeps going (`RetriesRunOn`) and reports FAILED when it ends
  (`ClosingIsTruthful`).
- The fraction check does not rule out a slice on the other side (`ToleranceReverses`);
  `NonNegativeExactly` says when it does.
- The final slice trades the exact remainder only with nothing else left to execute
  (`LastSliceExactly`, `TwoSlicesOvertrade`).
- A missing feed is said not to suppress the basket emergency; a last mid that is not finite
  does (`AlarmReachesBasket`).

Two more behaviours are outside what the controllers themselves do. The client's intent latch does
not hold before a position is reported (`NoLatchWithoutPosition`); the controller reports one before
every send. And if a completion were still delivered after `stop()`, a terminated schedule executor
could go back to SHUTTING_DOWN (`LateCompletionReopens`, `ReopensExactly`); with the callbacks
detached it cannot (`ClosedIsFinal`).

## Model

| member | source | states |
|---|---|---|
| `PassiveAggressiveTheorems.OverExecutionBound` | src/opms/executors/passive_aggressive_executor.py:344-353 | in every legal run, credited fills plus outstanding orders are at most the total plus the credit that landed on ended orders since the newest submission; each child is bounded by its own target plus its own late credit; without late credit nothing is over-executed |
| `PassiveAggressiveTheorems.BoundIsAttained` | src/opms/executors/passive_aggressive_executor.py:349-353 | the bound is tight: for every total and every late fill up to it a legal run executes exactly the total plus the late credit |
| `PassiveAggressiveTheorems.SingleWorkingOrder` | src/opms/executors/passive_aggressive_executor.py:241-289 | at most one order has no terminal event; it is the newest, tracked by the current child, which is ACTIVE, CANCELING or AGGRESSIVE exactly then; earlier children are DONE or SKIPPED, later ones untouched |
| `PassiveAggressiveTheorems.OversizeReconciliation` | src/opms/executors/passive_aggressive_executor.py:456-461 | whenever the current child is ACTIVE its room is not negative, so late fills of retired orders have already put an oversized order into CANCELING |
| `PassiveAggressiveTheorems.ChildrenCoverTotal` | src/opms/executors/passive_aggressive_executor.py:166-185 | slots are refused exactly for a non-positive child quantity q or a total of at least 201 q, so there are never more than 200; otherwise the targets sum to the total (to 0 for a negative one), and lie in [q, 2q) when the total holds a whole child; only the last differs from q then |
| `PassiveAggressiveTheorems.Conservation` | src/opms/executors/passive_aggressive_executor.py:420-427 | always: the plan sums to the total, the running total is the sum of the children's fills and of the orders' credits, and each child's fills are exactly the credits of its own orders |
| `PassiveAggressiveTheorems.OutcomeTruth` | src/opms/executors/passive_aggressive_executor.py:378-393 | a closed executor has nothing outstanding; COMPLETED means the total executed, exactly the total without late credit |
| `PassiveAggressiveTheorems.ClosingIsTruthful` | src/opms/executors/passive_aggressive_executor.py:384-393 | the event that closes a running executor reports FAILED, COMPLETED or TIME_LIMIT exactly by retries and fills; only the venue's reduce-only rejection of a CLOSE order closes it from a callback, as EARLY_STOP |
| `PassiveAggressiveTheorems.RetriesRunOn` | src/opms/executors/passive_aggressive_executor.py:505-546 | a run out of retries is not closed: with no retries allowed, the only order fails, and after its delay the executor is RUNNING and submits another |
| `PassiveAggressiveTheorems.StopIsFinal` | src/opms/executors/passive_aggressive_executor.py:586-589 | once a reachable executor has left RUNNING it never returns, submits no order, and never turns another report into COMPLETED |
| `PassiveAggressiveTheorems.CrossingRule` | src/opms/executors/passive_aggressive_executor.py:492-500 | a market order is sent only in CLOSE, for a child whose cycle has expired, and no limit order of that child follows one; an OPEN executor never crosses |
| `PassiveAggressiveTheorems.SubmissionSize` | src/opms/executors/passive_aggressive_executor.py:295-342 | every order is for exactly min(child residual, total residual), because every other order has ended at that moment; a tick submits a limit order at the price it was given, which is positive, a callback a market order |
| `PassiveAggressive.FirstUnfinished` | src/opms/executors/passive_aggressive_executor.py:242-245 | the first child at or after the index that is neither DONE nor SKIPPED; everything it passes is |
| `PassiveAggressiveRuns.NextShape` | src/opms/executors/passive_aggressive_executor.py:241-546 | every legal event keeps the shape of the state: one open order at most, owned by the current child, statuses and tracked orders in step |
| `PassiveAggressiveSafety.NextBooks` | src/opms/executors/passive_aggressive_executor.py:420-427 | every legal event keeps total, child fills and order credits equal, child by child |
| `PassiveAggressiveSafety.NextBounds` | src/opms/executors/passive_aggressive_executor.py:295-353 | every legal event keeps the over-execution bounds with their late credit |
| `PassiveAggressiveOutcome.NextReconciled` | src/opms/executors/passive_aggressive_executor.py:456-461 | every legal event keeps a resting order within its room or cancels it |
| `PassiveAggressiveOutcome.NextCrossing` | src/opms/executors/passive_aggressive_executor.py:241-289 | every legal event keeps market orders confined to expired children of a CLOSE executor |
| `PassiveAggressiveOutcome.NextOutcome` | src/opms/executors/passive_aggressive_executor.py:220-235 | every legal event keeps the outcome truthful: closed means settled, COMPLETED means filled |
| `PassiveAggressiveProgress.NextClocked` | src/opms/executors/passive_aggressive_executor.py:355-376 | every legal event keeps cycle clocks in the past, clocks running for working children, and cancels requested for CANCELING children and after a stop |
| `PassiveAggressiveProgress.TickLeavesNothingDue` | src/opms/executors/passive_aggressive_executor.py:241-289 | a tick of a running executor closes it exactly when every child is finished; otherwise the current child is left with nothing due: an unexpired retry delay, an unexpired and unrefreshed limit order, a requested cancel, a market order after expiry, no room, or an expired cycle |
| `PassiveAggressiveProgress.StoppedTickSettles` | src/opms/executors/passive_aggressive_executor.py:220-235 | after a stop every open order has had its cancel requested, cancels are re-sent at the refresh cadence, and a tick closes exactly when nothing is outstanding |
| `PassiveAggressiveProgress.RetryDelayDoubles` | src/opms/executors/passive_aggressive_executor.py:531-535 | the delay after the k-th failure is min(2^min(k, 4), refresh time) |
| `PassiveAggressiveProgress.FailedOrderWaits` | src/opms/executors/passive_aggressive_executor.py:528-546 | after a failed limit order its child sends no order before that delay has passed, in any continuation of the run |
| `PassiveAggressiveTermination.ClosesInTime` | src/opms/executors/passive_aggressive_executor.py:220-289 | when ticks come at most `gap` apart and every order ends within `answer` of its cancel request or of its submission as a market order, any run is TERMINATED by start + 2 gap + answer + n (max(time limit, 0) + answer + 3 gap) + m (answer + gap) for n children and m = n + allowed retries + market orders the venue cancelled; no more than m market orders are sent |
| `PassiveAggressiveTermination.NextOnTime` | src/opms/executors/passive_aggressive_executor.py:220-546 | every event of such an environment keeps the schedule: by the last tick the current child is no later than its allowance, and an awaited order has been awaited from in time |
| `PassiveAggressiveTermination.NextCounted` | src/opms/executors/passive_aggressive_executor.py:481-546 | every event keeps the count: one market order per child, per allowed retry, and per market order cancelled |
| `PassiveAggressiveCrossing.CrossedExactly` | src/opms/executors/passive_aggressive_executor.py:262-279 | in every run, OPEN or CLOSE, a child has been crossed with a market order if and only if the executor closes and the first tick that visited it at or after its expiry found it resting a limit order and, later, the cancel of that order was acknowledged while the executor was running and the child still lacked something |
| `PassiveAggressiveCrossing.UnfilledExactly` | src/opms/executors/passive_aggressive_executor.py:262-268 | in every run, OPEN or CLOSE, a child that still lacks something is finished if and only if some tick found it IDLE at or after its expiry, or its order completed below its size, or, in CLOSE, its order was refused as reduce-only, or, in OPEN, the cancel of the order its expired cycle left resting was acknowledged |
| `PassiveAggressiveCrossing.ExpiredTick` | src/opms/executors/passive_aggressive_executor.py:262-289 | a tick that visits a child at or after its expiry submits nothing; the child is skipped if and only if it was IDLE, an ACTIVE one has its cancel requested for the expired cycle, a CANCELING or AGGRESSIVE one is left alone |
| `PassiveAggressiveCrossing.CrossesExactly` | src/opms/executors/passive_aggressive_executor.py:481-503 | a cancelled order is crossed if and only if the executor runs, closes, cancelled it for its expired cycle and its child still lacks something; the market order then has exactly the residual size |
| `PassiveAggressiveCrossing.ExpiryWithoutCrossing` | src/opms/executors/passive_aggressive_executor.py:262-268 | the fallback promised in lines 8-9 has a gap: a CLOSE run whose refresh cancel is acknowledged before, but not re-placed until, the expiry ends TIME_LIMIT with nothing filled and no market order |
| `PassiveAggressiveCrossing.ExpiryWithoutOrder` | src/opms/executors/passive_aggressive_executor.py:262-268 | so does a CLOSE run whose book has no price until the expiry: it ends TIME_LIMIT without any order |
| `PassiveAggressiveSteps.TickSubmitsExactly` | src/opms/executors/passive_aggressive_executor.py:241-313 | a tick of a running executor starts the cycle of its current child once, and submits if and only if that child is IDLE within its cycle, no retry time is ahead, the book has a price and the child lacks something; then one limit order at that price for all the child lacks; without a price it tries again in a second, lacking nothing it is DONE |
| `PassiveAggressiveSteps.ResubmitsAfterRefresh` | src/opms/executors/passive_aggressive_executor.py:501-503 | OPEN or CLOSE: after the cancel of a refresh is acknowledged before the expiry, and whatever happens while the book has no price, the next priced tick within the cycle, past any retry time and with something lacking, submits a limit order for all the child lacks |
| `PassiveAggressiveSteps.CancelsExactly` | src/opms/executors/passive_aggressive_executor.py:269-289 | while the executor runs, a child's cancel is requested if and only if a tick finds it resting past its cycle or for the refresh time, or the fill of another order leaves it larger than the room; it is for the expired cycle exactly when a tick found the cycle over |
| `PassiveAggressiveSteps.FailureExactly` | src/opms/executors/passive_aggressive_executor.py:505-546 | the failure of a child's order ends a CLOSE run as EARLY_STOP when the venue refuses it as reduce-only; any other counts one retry, sets the doubling delay and leaves the child IDLE, and a market order is sent again for all the child lacks if and only if the executor runs and retries are left |
| `PassiveAggressiveSteps.RetriesCount` | src/opms/executors/passive_aggressive_executor.py:528-535 | over any run the retries are exactly the failures of a child's order that are not such refusals: nothing else uses one up, nothing resets them |
| `PassiveAggressiveSteps.StopIsNamed` | src/opms/executors/passive_aggressive_executor.py:586-589 | a stop asks for the cancel of every open order, and is reported as POSITION_HOLD when the position is kept and as EARLY_STOP otherwise, until another stop or the refusal of a close, however the run goes on |
| `PassiveAggressiveLedger.CreditIsExecution` | src/opms/executors/passive_aggressive_executor.py:420-427 | each order is credited the larger of the sum of its distinct fills and its largest completion report, both read off the event trace alone |
| `PassiveAggressiveLedger.Confluence` | src/opms/executors/passive_aggressive_executor.py:434-476 | two runs with the same orders, fills and reports agree on every order's credit, every child's fills and the total, whatever the order and repetition of the events |
| `PassiveAggressiveExecutorClass.PassiveAggressiveExecutor.Create` | src/opms/executors/passive_aggressive_executor.py:138-185 | construction fails exactly when the slots cannot be built, and starts in the initial state |
| `PassiveAggressiveExecutorClass.PassiveAggressiveExecutor.Submit` | src/opms/executors/passive_aggressive_executor.py:329-342 | appends one open record of the given kind and size and makes it the child's tracked order |
| `PassiveAggressiveExecutorClass.PassiveAggressiveExecutor.PlaceLimit` | src/opms/executors/passive_aggressive_executor.py:295-313 | a missing or non-positive price sets a one-second retry, no room makes the child DONE, otherwise a limit order at the price for the whole room makes it ACTIVE and restarts its refresh clock |
| `PassiveAggressiveExecutorClass.PassiveAggressiveExecutor.PlaceAggressive` | src/opms/executors/passive_aggressive_executor.py:315-327 | the child turns IDLE; outside RUNNING nothing else happens, no room makes it DONE, otherwise a market order for the whole room makes it AGGRESSIVE |
| `PassiveAggressiveExecutorClass.PassiveAggressiveExecutor.CancelChild` | src/opms/executors/passive_aggressive_executor.py:355-363 | a tracked order has its cancel requested and its child turns CANCELING for the given reason; without one nothing changes |
| `PassiveAggressiveExecutorClass.PassiveAggressiveExecutor.CancelAllOpen` | src/opms/executors/passive_aggressive_executor.py:365-376 | the loop requests a cancel for exactly the open orders and stamps the sweep |
| `PassiveAggressiveExecutorClass.PassiveAggressiveExecutor.Credit` | src/opms/executors/passive_aggressive_executor.py:420-427 | credits the order with the larger of its fill sum and its report, and adds a positive increase, and only that, to its child and to the total |
| `PassiveAggressiveExecutorClass.PassiveAggressiveExecutor.Step` | src/opms/executors/passive_aggressive_executor.py:241-289 | the loop passes finished children; with none left the executor closes once nothing is outstanding, otherwise the current child starts its cycle and is stepped |
| `PassiveAggressiveExecutorClass.PassiveAggressiveExecutor.StepChild` | src/opms/executors/passive_aggressive_executor.py:262-289 | IDLE: skip when expired, wait for the retry time, else place; ACTIVE: cancel for the expired cycle, else for a due refresh; otherwise nothing |
| `PassiveAggressiveExecutorClass.PassiveAggressiveExecutor.CloseExecutionBy` | src/opms/executors/passive_aggressive_executor.py:378-382 | records the close type and terminates |
| `PassiveAggressiveExecutorClass.PassiveAggressiveExecutor.ControlTask` | src/opms/executors/passive_aggressive_executor.py:220-235 | RUNNING steps; SHUTTING_DOWN sweeps at the cadence while anything is outstanding and then closes under the recorded type; TERMINATED does nothing |
| `PassiveAggressiveExecutorClass.PassiveAggressiveExecutor.ProcessOrderFilled` | src/opms/executors/passive_aggressive_executor.py:434-461 | an unknown order or a replayed trade changes nothing; otherwise the fill is added, credited, and a resting order of the current child that has become too large is cancelled |
| `PassiveAggressiveExecutorClass.PassiveAggressiveExecutor.ProcessOrderCompleted` | src/opms/executors/passive_aggressive_executor.py:463-479 | ends the order at its largest report and credits it; the child that tracks it is DONE |
| `PassiveAggressiveExecutorClass.PassiveAggressiveExecutor.ProcessOrderCanceled` | src/opms/executors/passive_aggressive_executor.py:481-503 | ends the order; the child that tracked it crosses or is skipped if the cancel was for its expired cycle, and is IDLE otherwise |
| `PassiveAggressiveExecutorClass.PassiveAggressiveExecutor.ProcessOrderFailed` | src/opms/executors/passive_aggressive_executor.py:505-546 | ends the order; a reduce-only refusal in CLOSE skips the child and closes as EARLY_STOP, anything else counts a retry, sets the backoff, and retries a market order at once within the limit |
| `PassiveAggressiveExecutorClass.PassiveAggressiveExecutor.EarlyStop` | src/opms/executors/passive_aggressive_executor.py:586-589 | sweeps the open orders, records EARLY_STOP or POSITION_HOLD and turns to SHUTTING_DOWN |
| `PassiveAggressiveDrive.Deliver` | src/opms/executors/passive_aggressive_executor.py:220-546 | each event, handed to its callback, changes the object exactly as the transition system says |
| `PassiveAggressiveDrive.Drive` | src/opms/executors/passive_aggressive_executor.py:220-546 | an object driven through any legal run keeps the over-execution bound, equal books and a single working order on its own fields |
| `ACMath.MergeSound` | src/opms/executors/_ac_math.py:106-125 | merging non-negative slices keeps their sum, groups consecutive slices from first to last, each group ending with the first slice that brings it to the minimum and the last one taking what is left over, is empty only when there is nothing to trade, and leaves no slice below the minimum unless one slice is left |
| `ACShape.SlicesSumToTotal` | src/opms/executors/_ac_math.py:91-101 | whatever the holdings, the slices sum exactly to the total |
| `ACShape.RatioEnds` | src/opms/executors/_ac_math.py:14-24 | the stable ratio is 0 at 0 and 1 at 1 |
| `ACShape.RatioStrict` | src/opms/executors/_ac_math.py:14-24 | the stable ratio is strictly increasing, in both branches |
| `ACShape.ScheduleSound` | src/opms/executors/_ac_math.py:59-103 | building succeeds exactly on valid parameters; in clock time, and for fractions rising from 0 to 1, the slices are non-negative, sum to the total, are not empty for a positive total, respect the minimum unless alone, and coarsen the unmerged slices |
| `ACShape.NonNegativeExactly` | src/opms/executors/_ac_math.py:83-86 | for every accepted list of fractions, also one that starts above 0, no slice trades the wrong way if and only if the slices before the last sell at most the total; a last fraction but one of at most 1 suffices, and is necessary for fractions that start at 0 |
| `ACShape.ToleranceReverses` | src/opms/executors/_ac_math.py:83-86 | the 1e-9 tolerance admits fractions whose last slice is negative, against the comment in line 83 |
| `ACShape.ClockHolding` | src/opms/executors/_ac_math.py:14-24 | with r = exp(-kappa*tau) the code's ratio is the closed form (r^j - r^(2n-j)) / (1 - r^(2n)) |
| `ACShape.HeldRecurrence` | src/opms/executors/_ac_math.py:14-24 | the closed-form holdings satisfy x[j-1] + x[j+1] = (r + 1/r) x[j] |
| `ACShape.HeldBounds` | src/opms/executors/_ac_math.py:14-24 | x[0] = 1, x[n] = 0, and something is held until the end |
| `ACShape.SharesFall` | src/opms/executors/_ac_math.py:88-101 | every interval trades something and strictly less than the one before |
| `ACShape.AheadOfPace` | src/opms/executors/_ac_math.py:88-101 | a falling sequence has done at least k/n of its sum after k of n slices |
| `ACShape.ClockShape` | src/opms/executors/_ac_math.py:76-103 | a risk-averse unmerged clock-time schedule is the closed form; its slices are positive and strictly falling, and every prefix is at least as far along as an even schedule |
| `ACShape.ZeroRiskIsEven` | src/opms/executors/_ac_math.py:76-103 | without risk aversion or without volatility every slice is total / n |
| `ACMeaning.CreatesExactly` | src/opms/executors/ac_schedule_executor.py:46-64 | for a positive total an executor is created if and only if it opens a position in 1 to 200 slices at least a second apart with aversion and volatility not negative and eta - 0.5 gamma T / n positive |
| `ACMeaning.BuildsExactly` | src/opms/executors/_ac_math.py:59-86 | a schedule is built if and only if the horizon and the number of intervals are positive, aversion and volatility are not negative, eta - 0.5 gamma T / n is positive, and given fractions are not empty, rise from 0 or above and end at 1 or below, but for 1e-9 |
| `ACMeaning.KappaExactly` | src/opms/executors/_ac_math.py:70-76 | the urgency is the one number kappa >= 0 with kappa^2 (eta - 0.5 gamma T / n) = lambda sigma^2 |
| `ACMeaning.ClockScheduleExactly` | src/opms/executors/_ac_math.py:70-103 | for that kappa and r = exp(-kappa T / n) a risk-averse unmerged clock-time schedule is the closed form in r |
| `ACMeaning.RatioIsSinh` | src/opms/executors/_ac_math.py:14-24 | the stable ratio is sinh(a u) / sinh(a), and u for a of 0 |
| `ACMeaning.VolumeScheduleExactly` | src/opms/executors/_ac_math.py:88-103 | for that kappa and given cumulative fractions every unmerged slice but the last is the total times the difference of sinh(kappa T (1 - V)) / sinh(kappa T) at the ends of its interval, and the slices sum to the total |
| `ACMeaning.FractionsAreShares` | src/opms/executors/ac_schedule_executor.py:182-188 | the k-th cumulative fraction is the share of the first k bucket volumes in all of them |
| `ACMeaning.SlicesFollowVolumes` | src/opms/executors/ac_schedule_executor.py:182-202 | without risk aversion or volatility each unmerged slice is to the total as its bucket's volume is to the sum of all |
| `ACSchedule.BuildSizes` | src/opms/executors/_ac_math.py:91-101 | the loop with a running sum yields exactly the telescoped slices |
| `ACSchedule.MergeMinSize` | src/opms/executors/_ac_math.py:106-125 | the carrying loop yields exactly the recursive merge |
| `ACSchedule.Build` | src/opms/executors/_ac_math.py:59-103 | the validated builder, branch by branch, returns the specified schedule or error |
| `VolumeForecast.BuildHourlyRateProfile` | src/opms/forecasting/historical_profile.py:165-205 | the loops over candles and hours yield the mean rate of each hour, the mean of the populated hours elsewhere, and None without usable data |
| `VolumeForecast.Tally` | src/opms/forecasting/historical_profile.py:183-191 | the in-place arrays end up with the sum and the number of the rates of each hour |
| `VolumeForecast.ForecastVolumes` | src/opms/forecasting/historical_profile.py:135-163 | the bucket loop yields the specified forecast, uniform profile or error |
| `VolumeForecast.ProfileWithin` | src/opms/forecasting/historical_profile.py:193-205 | every hour's rate lies between the lowest and the highest rate in the data |
| `VolumeForecast.ForecastShape` | src/opms/forecasting/historical_profile.py:127-163 | a forecast always has one bucket per request and a positive sum, whatever the data; non-negative volumes give non-negative buckets |
| `VolumeForecast.ForecastIgnoresOrder` | src/opms/forecasting/historical_profile.py:185-205 | any permutation of the candles gives the same forecast |
| `VolumeForecast.ForecastIsDaily` | src/opms/forecasting/historical_profile.py:152-158 | starting whole days later gives the same forecast |
| `VolumeForecast.ForecastReads` | src/opms/forecasting/historical_profile.py:135-205 | the forecast, value by value: bucket j is its length times the summed rates over the count of the candles opened, on any day, in the hour that start + (j + 1/2) buckets falls in, by inequalities on milliseconds; an hour without candles takes the mean of the other hours' means; all is uniform exactly without a candle that spans some time or if the buckets sum to nothing |
| `VolumeForecast.UniformExactly` | src/opms/forecasting/historical_profile.py:145-163 | without candles, or without one that spans some time, every one of n buckets is 1 / n |
| `ACExecutionRuns.FractionsRise` | src/opms/executors/ac_schedule_executor.py:182-188 | non-negative bucket volumes with a positive sum give fractions rising from 0 to 1 |
| `ACExecutionRuns.CreateSound` | src/opms/executors/ac_schedule_executor.py:111-150 | an executor is created exactly for a valid configuration, RUNNING with nothing sent, on a sound clock-time schedule whose intervals fill the horizon; it looks for a forecast exactly when the configuration asks for one |
| `ACExecutionRuns.RescheduledSound` | src/opms/executors/ac_schedule_executor.py:177-202 | whatever the forecast returns, the schedule in force stays sound: anything but a full rise is refused |
| `ACExecutionRuns.VolumeScheduleAdopted` | src/opms/executors/ac_schedule_executor.py:156-202 | end to end: from candles with non-negative volumes the fractions rise from 0 to 1, the volume-time schedule is adopted, and it is sound |
| `ACExecutionRuns.NextKeeps` | src/opms/executors/ac_schedule_executor.py:241-352 | every control task, completion, stop and failure of any working order keeps the run invariant: the ledger of tracked orders, the pacing and the outcome |
| `ACExecutionExposure.NextBalanced` | src/opms/executors/ac_schedule_executor.py:241-352 | every legal event keeps the accounts: filled plus in flight is what was taken less what completions fell short, and what was taken is the slices counted as sent plus the drift |
| `ACExecutionExposure.NextExposed` | src/opms/executors/ac_schedule_executor.py:241-352 | every legal event keeps the commitment within the total while the last slice found nothing in flight and only newest orders failed or the schedule is sheltered; with the schedule sent and nothing short it equals the total |
| `ACExecutionTheorems.CommitmentExactly` | src/opms/executors/ac_schedule_executor.py:274-352 | in every run filled plus in flight is the slices counted as sent, plus the drift that older failures and the last slice left, less what completions fell short; it exceeds the total if and only if the drift exceeds the slices still to send and the shortfall |
| `ACExecutionTheorems.ResendExactly` | src/opms/executors/ac_schedule_executor.py:337-352 | any failure in any reachable state, then the next slice: the newest slice is sent again, so the commitment changes by that slice less the failed order, and the total is exceeded if and only if the old commitment plus this change exceeds it |
| `ACExecutionTheorems.NeverOverCommitted` | src/opms/executors/ac_schedule_executor.py:274-352 | filled plus in flight never exceeds the total in a run whose last slice found nothing in flight, if only the newest order ever failed, or if the schedule is sheltered and any order may fail |
| `ACExecutionShelter.ShelteredExactly` | src/opms/executors/ac_schedule_executor.py:274-352 | the schedule in force after the first tick keeps the total in every run whose last slice finds nothing in flight, whichever orders fail, if and only if it is sheltered: the slices before the last, each replaced by the largest from it on, sum to at most the total |
| `ACExecutionShelter.WorstIsReached` | src/opms/executors/ac_schedule_executor.py:337-352 | the bound is tight: some such run commits the sum of those largest slices at once |
| `ACExecutionExposure.FallingSheltered` | src/opms/executors/ac_schedule_executor.py:274-305 | a falling schedule is sheltered |
| `ACExecutionTheorems.ClockNeverOverCommitted` | src/opms/executors/ac_schedule_executor.py:274-352 | so unmerged clock-time schedules, which fall, are safe under failures of any orders |
| `ACExecutionOvertrade.OlderFailureOvertrades` | src/opms/executors/ac_schedule_executor.py:337-352 | a reachable run that over-commits: slices 1, 8 and 1 of 10, the first order fails while the second works, the second slice is sent again, 16 are committed |
| `ACExecutionTheorems.LastSliceExactly` | src/opms/executors/ac_schedule_executor.py:278-289 | in any state, also when the schedule is resolved on the same tick, the last slice leaves filled plus in-flight at the total plus what the other orders in flight have yet to execute; the total is exceeded exactly when that is positive |
| `ACExecutionTheorems.TwoSlicesOvertrade` | src/opms/executors/ac_schedule_executor.py:278-289 | a legal run in which the first of two slices is still working when the second is due commits the total and the first slice again |
| `ACExecutionTheorems.RunsToCompletion` | src/opms/executors/ac_schedule_executor.py:412-421 | a run that was not stopped ends only with every slice sent and every order ended; filled is then the total plus the drift less the shortfall, exactly the total without either; COMPLETED is reported if and only if the total was reached and the retries did not run out |
| `ACExecutionTheorems.FullFillsComplete` | src/opms/executors/ac_schedule_executor.py:253-311 | from any reachable state with nothing in flight, in a run that stayed within its total, sending what is due and filling it in full ends COMPLETED with the whole total filled |
| `ACExecutionTheorems.UnshownNeverEnds` | src/opms/executors/ac_schedule_executor.py:307-335 | while the connector view does not show some submitted order as done, which nothing in the executor brings about, ticks, completions of all orders and failures of other orders never take a running executor out of RUNNING |
| `ACExecutionTheorems.SlicesPaced` | src/opms/executors/ac_schedule_executor.py:267-272 | orders, retries included, are at least one interval apart and the intervals fill the horizon |
| `ACExecutionTheorems.StopIsReported` | src/opms/executors/ac_schedule_executor.py:402-404 | after a stop the reported close type is EARLY_STOP or POSITION_HOLD, however the open orders end |
| `ACExecutionSteps.TickSendsExactly` | src/opms/executors/ac_schedule_executor.py:253-305 | a control task of a reachable running executor sends if and only if a slice is left, an interval has passed since the newest order and, for the last slice, something remains; it sends the slice of the schedule in force, for the last one the total less what is filled or shown executing; the schedule changes on the first control task only |
| `ACExecutionSteps.EndsExactly` | src/opms/executors/ac_schedule_executor.py:253-335 | a running executor is terminated by a control task if and only if every slice counts as sent and no order is working, and starts shutting down on a completion under the same condition; failures and foreign orders never end a run |
| `ACExecutionSteps.UnfailedFollowsPlan` | src/opms/executors/ac_schedule_executor.py:274-305 | in a run where no order fails the orders sent before the last slice are the slices of the schedule in force, one for one |
| `ACExecutionSteps.StopIsNamed` | src/opms/executors/ac_schedule_executor.py:402-410 | a stop is reported as POSITION_HOLD when the position is kept and as EARLY_STOP otherwise, and nothing is sent after it, until another stop |
| `ACExecutionTheorems.ReopensExactly` | src/opms/executors/ac_schedule_executor.py:320-335 | if the connector still delivers order events after stop(), a terminated executor leaves TERMINATED if and only if a completion ends its last open order with the whole schedule sent, which takes a stop before |
| `ACExecutionReopen.LateCompletionReopens` | src/opms/executors/ac_schedule_executor.py:320-335 | such a run: one slice is sent, the run is stopped and closes, and a completion delivered then puts it back into SHUTTING_DOWN |
| `ACExecutionReopen.ClosedIsFinal` | src/opms/executors/ac_schedule_executor.py:241-247 | with its callbacks detached by stop() a closed executor never changes again |
| `ACScheduleExecutorClass.ACScheduleExecutor.Create` | src/opms/executors/ac_schedule_executor.py:111-150 | fails with the specified error or starts in the specified state, including the division by an empty schedule's length |
| `ACScheduleExecutorClass.ACScheduleExecutor.VolumeFractions` | src/opms/executors/ac_schedule_executor.py:182-188 | the running-sum loop yields the cumulative fractions, the last set to 1 |
| `ACScheduleExecutorClass.ACScheduleExecutor.MaybeResolveVolumeSchedule` | src/opms/executors/ac_schedule_executor.py:156-208 | one attempt: without candles, a usable forecast or a full rise the clock schedule stays, otherwise schedule and interval are replaced |
| `ACScheduleExecutorClass.ACScheduleExecutor.ControlTask` | src/opms/executors/ac_schedule_executor.py:241-247 | RUNNING ticks; SHUTTING_DOWN closes under the recorded type, or the final one; TERMINATED does nothing |
| `ACScheduleExecutorClass.ACScheduleExecutor.Tick` | src/opms/executors/ac_schedule_executor.py:253-272 | resolves the schedule and the start once, closes when all is done, waits out the interval, else submits the next slice |
| `ACScheduleExecutorClass.ACScheduleExecutor.SubmitNextSlice` | src/opms/executors/ac_schedule_executor.py:274-305 | submits the scheduled slice, or for the last one what is neither filled nor executing, and counts it as sent even when that leaves nothing to submit |
| `ACScheduleExecutorClass.ACScheduleExecutor.AllDone` | src/opms/executors/ac_schedule_executor.py:307-311 | the loop answers whether every slice is sent and every tracked order is done |
| `ACScheduleExecutorClass.ACScheduleExecutor.ProcessOrderCompletedEvent` | src/opms/executors/ac_schedule_executor.py:320-335 | a tracked order's execution is added to the total filled, and SHUTTING_DOWN follows once all is done |
| `ACScheduleExecutorClass.ACScheduleExecutor.ProcessOrderFailedEvent` | src/opms/executors/ac_schedule_executor.py:337-352 | a tracked order moves to the failed ones, the slice index steps back by one, not below 0, and a retry is counted |
| `ACScheduleExecutorClass.ACScheduleExecutor.CloseExecutionBy` | src/opms/executors/ac_schedule_executor.py:406-410 | records the close type and terminates |
| `ACScheduleExecutorClass.ACScheduleExecutor.EarlyStop` | src/opms/executors/ac_schedule_executor.py:402-404 | records EARLY_STOP or POSITION_HOLD and turns to SHUTTING_DOWN |
| `Resilience.BackoffSpacing` | src/opms/resilience.py:76-104 | when requests start only if allowed, the k-th request of an unbroken failure run starts at least the sum of the capped exponential delays after the first, and no wait exceeds the maximum |
| `Resilience.BackoffIsGeometric` | src/opms/resilience.py:88-91 | below the cap that sum is base * (2^k - 1) |
| `Resilience.RetriedExactly` | src/opms/resilience.py:76-104 | in any history, after the k-th failure in a row the next request is allowed exactly from the failure plus min(max(base * 2^(k-1), what the venue asks for), cap) on; after a success at once |
| `Resilience.TrippedExactly` | src/opms/resilience.py:76-87 | after any calls the breaker is tripped exactly when the last failure was a rate limit or the failure run has reached the threshold |
| `Resilience.RetryAfterHonoured` | src/opms/resilience.py:92-97 | no request starts before a rate-limit header's delay, up to the cap |
| `Resilience.TripNeedsStreak` | src/opms/resilience.py:142-178 | an observation trips only after an unbroken streak of observations missing an expected side, with no suspension or trip between, spanning at least the timeout |
| `Resilience.StreakTrips` | src/opms/resilience.py:142-178 | conversely a streak from a closed watchdog trips exactly at the first observation at least the timeout after its start |
| `Resilience.CooldownHolds` | src/opms/resilience.py:139-140 | quotes are disallowed for the whole cooldown after the circuit opens, whatever happens meanwhile |
| `Resilience.OpensForCooldown` | src/opms/resilience.py:176-197 | a trip, observed or explicit, opens the circuit for the cooldown |
| `Resilience.AllowedExactly` | src/opms/resilience.py:139-197 | quotes are allowed again exactly once the cooldown of the trip is over; an observation reports the circuit open if and only if a side is expected and the circuit is open or this observation trips it |
| `Resilience.TripSpacing` | src/opms/resilience.py:142-178 | without an explicit trip between, two trips are at least cooldown plus timeout apart |
| `ResilienceObjects.VenueCircuitBreaker.RecordFailure` | src/opms/resilience.py:76-96 | counts the failure, trips on a rate limit or at the threshold, and defers the next request by the larger of the capped backoff and the capped header delay, which it returns |
| `ResilienceObjects.VenueCircuitBreaker.RecordSuccess` | src/opms/resilience.py:98-104 | clears the failure count, the trip and the deferral |
| `ResilienceObjects.VenueCircuitBreaker.VenueRequest` | src/opms/controllers/generic/perp_mm_controller.py:378-402 | a request is refused while the breaker waits, otherwise started and its outcome recorded |
| `ResilienceObjects.QuoteLivenessWatchdog.Observe` | src/opms/resilience.py:142-178 | clears the missing-side timer when nothing is expected or everything expected is live, starts it when a side is missing, and opens the circuit when it has run for the timeout; reports true, if a side is expected, while the circuit is open or as it trips |
| `ResilienceObjects.QuoteLivenessWatchdog.Suspend` | src/opms/resilience.py:180-184 | clears the timer and the sides, and leaves the circuit alone |
| `ResilienceObjects.QuoteLivenessWatchdog.Trip` | src/opms/resilience.py:186-197 | opens the circuit for at least the cooldown from now and clears the timer |
| `PortfolioStop.ModeMeaning` | src/opms/controllers/generic/portfolio_stop.py:53-61 | each basket mode if and only if: a fresh emergency row; none and a member without a fresh row; none and a stop row with all fresh; all fresh and quoting |
| `PortfolioStop.StoredExactly` | src/opms/controllers/generic/portfolio_stop.py:33-52 | a report is refused, with the table untouched, exactly for an unknown leg or mode, an unusable position, mid or time; otherwise its own row holds exactly what it reported, and no other row changes |
| `PortfolioStop.TargetMeaning` | src/opms/controllers/generic/portfolio_stop.py:53-64 | the target is 0 in an emergency, the leg's own position in a hold or while all quote, and in a stop the flat target of exactly the position and mid every member has in its own row |
| `PortfolioStop.EmergencyPersists` | src/opms/controllers/generic/portfolio_stop.py:43-61 | after a member publishes an emergency, through any interleaving of updates and clocks, its own repeated emergencies included, every other member is told to flatten or hold until the publisher reports another mode |
| `PortfolioStop.PublisherFlattens` | src/opms/controllers/generic/portfolio_stop.py:53-56 | the publisher itself is told to flatten to zero at once |
| `PortfolioStop.PortfolioStopBook.Open` | src/opms/controllers/generic/portfolio_stop.py:16-31 | a book needs an absolute database path, legs from at least two accounts and a finite positive staleness |
| `PortfolioStop.PortfolioStopBook.UpdateLeg` | src/opms/controllers/generic/portfolio_stop.py:33-64 | upserts this leg's row in the shared table, then decides from all fresh rows, or raises without writing |
| `PerpBridge.LatchStep` | src/opms/controllers/generic/perp_mm_bridge.py:84-102 | one operation on a latched client never installs a quoting intent, never lowers the priority, and clears the intent only when its target is reported reached |
| `PerpBridge.LatchUntilReached` | src/opms/controllers/generic/perp_mm_bridge.py:66-102 | over any run whose reports include the coin and whose intents name it, a latched client stays latched, at a priority that never falls, until the position has been reported within 1e-12 of the target of the intent in force |
| `PerpBridge.LatchHolds` | src/opms/controllers/generic/perp_mm_bridge.py:66-102 | over any run at all a latched client quotes again only through a moment with nothing to work: no intent, or one whose coin is absent from the last report or reported at its target |
| `PerpBridge.QuoteInstalledExactly` | src/opms/controllers/generic/perp_mm_bridge.py:84-102 | a valid quoting intent is installed if and only if the client is not latched |
| `PerpBridge.SentExactly` | src/opms/controllers/generic/perp_mm_bridge.py:84-102 | every valid intent is installed unless the client is latched and the intent quotes or is outranked by the latched one; otherwise, and for an invalid one, which raises, the client is unchanged |
| `PerpBridge.ReportedExactly` | src/opms/controllers/generic/perp_mm_bridge.py:66-76 | a report replaces the positions and drops the intent if and only if it is a de-risking one whose coin is reported within 1e-12 of its target |
| `PerpBridge.FlattenGoesFlat` | src/opms/controllers/generic/perp_mm_controller.py:334-349 | after a forced flatten the close request trades the whole position away as an emergency, and there is none only without a position |
| `PerpBridge.QuoteGivesOrders` | src/opms/controllers/generic/perp_mm_bridge.py:168-193 | an order is wanted if and only if it is a leg of the quoting intent with a price and a positive size, at that price and size, reduce-only exactly when it works against the inventory |
| `PerpBridge.NoLatchWithoutPosition` | src/opms/controllers/generic/perp_mm_bridge.py:89-99 | of the client alone: without a reported position for its coin an intent is not latched, and even a quoting one replaces it |
| `PerpBridge.RequestClosesGap` | src/opms/controllers/generic/perp_mm_bridge.py:150-165 | a close request exists exactly when there is a gap of at least 1e-12 and trades from the current inventory exactly to the target, reduce-only, with the urgency of the intent |
| `PerpBridge.InProcessClient.ReportPositions` | src/opms/controllers/generic/perp_mm_bridge.py:66-76 | replaces the reported positions, and clears a de-risking intent whose coin is reported at its target |
| `PerpBridge.InProcessClient.Submit` | src/opms/controllers/generic/perp_mm_bridge.py:84-102 | raises on an invalid intent, ignores one that the latch outranks, and otherwise installs it |
| `PerpSafety.QuoteCloseExclusion` | src/opms/controllers/generic/perp_mm_controller.py:765-917 | along every run of position updates, sends, cycles and executor moves the active executors are either only quotes, at most one a side, or only closes |
| `PerpSafety.CycleCreatesSafely` | src/opms/controllers/generic/perp_mm_controller.py:803-917 | a cycle creates quotes only when nothing is active, at most one per side, and a close only alone and when no quote is active; quotes only under a quoting intent |
| `PerpSafety.QuoteStaysExactly` | src/opms/controllers/generic/perp_mm_controller.py:765-890 | a running quote survives a cycle if and only if the controller quotes on fresh data, unsuspended, with the circuit closed, nothing cancelling or closing, exactly one quote per wanted side, no economic reason, and every quote younger than the refresh interval (or an order id awaited) |
| `PerpSafety.CycleBoundsCancel` | src/opms/controllers/generic/perp_mm_controller.py:919-933 | after every cycle a pending refresh has a recorded start; it is less than the timeout ago if and only if it was already pending or the timeout is positive |
| `PerpSafety.OverdueCancelTrips` | src/opms/controllers/generic/perp_mm_controller.py:919-933 | a cycle that finds a refresh overdue ends it, and trips the watchdog and publishes the emergency exactly when the refresh still matters |
| `PerpSafety.PendingIsBounded` | src/opms/controllers/generic/perp_mm_controller.py:775-834 | a refresh pending throughout a run never reaches the timeout |
| `PerpSafety.NoQuoteUntilReached` | src/opms/controllers/generic/perp_mm_controller.py:803-917 | over any run of the system whose reports include the coin and whose intents name it, as the controller's do, no cycle creates a quote from a latched de-risking intent until the position has been reported within 1e-12 of the target of the intent in force |
| `PerpSafety.NoQuoteWhileLatched` | src/opms/controllers/generic/perp_mm_controller.py:803-917 | over any run of the system at all no cycle creates a quote from a latched de-risking intent except through a moment with no intent, or one whose coin is absent from the last report or reported at its target |
| `PerpSafety.CloseIsWorkedOnce` | src/opms/controllers/generic/perp_mm_controller.py:888-917 | when a close is wanted and no quote is active, the cycle leaves exactly one request worked: a running executor for it is kept and others are stopped, otherwise one is created |
| `PerpSafety.RoutedCloseBuilds` | src/opms/controllers/generic/perp_mm_controller.py:686-763 | for every routed close, market orders included, inventory plus the signed amount of the created config is the intent's target; it is reduce-only and a passive-aggressive one splits into one to five children its executor accepts |
| `PerpSafety.RoutedCloseNeverOvershoots` | src/opms/controllers/generic/perp_mm_controller.py:686-763 | the executor of a routed close, on the side of its own config and without late credit, never carries the position past its target: at every moment of its run it lies between where it started and the target |
| `PerpSafety.CreatedQuoteFits` | src/opms/controllers/generic/perp_mm_controller.py:1014-1068 | a created quote is a whole number of size steps, at most the wanted amount and less than a step below it, above the venue minima, and keeps the maker buffer behind its touch |
| `PerpSafety.HoldTradesNothing` | src/opms/controllers/generic/perp_mm_controller.py:504-530 | a basket hold becomes a non-quoting intent that yields no execution request |
| `PerpSafety.EmergencyOverrulesKeeper` | src/opms/controllers/generic/perp_mm_controller.py:504-530 | after one member's emergency every other member's keeper is overruled, through any interleaving: its intent asks for nothing or for exactly its own flat position |
| `PerpDecisions.CloseLeadsToTarget` | src/opms/controllers/generic/perp_mm_controller.py:835-917 | every close a cycle creates, the failsafe included, leads from the inventory exactly to the intent's target, or to nothing when a quoting intent fails safe; reduce-only, from now on |
| `PerpDecisions.CloseNeverOvershoots` | src/opms/controllers/generic/perp_mm_controller.py:686-763 | at every moment of the run of such a close, late credit apart, the position lies between where it started and where it should lead |
| `PerpDecisions.FailsafeExactly` | src/opms/controllers/generic/perp_mm_controller.py:835-857 | under a quoting intent a close is created if and only if the quotes are unanswered, nothing is active or pending on a live book, and there is a position |
| `PerpDecisions.RoutedByUrgency` | src/opms/controllers/generic/perp_mm_controller.py:686-763 | which executor works a close, with which child size and deadlines: a market order exactly in an emergency below the venue's minimum; children of a fifth of the amount, or the venue's least, only when there is time |
| `PerpDecisions.MinChildIsLeast` | src/opms/controllers/generic/perp_mm_controller.py:668-684 | the smallest child is the least whole number of size steps worth at least 1.1 times the minimum notional at the mid |
| `PerpDecisions.SameWork` | src/opms/controllers/generic/perp_mm_controller.py:84-100 | two closes count as the same work exactly when kind, side, amount and, for passive-aggressive ones, time limit agree |
| `PerpDecisions.CloseStoppedExactly` | src/opms/controllers/generic/perp_mm_controller.py:888-917 | a running close is stopped if and only if the controller does not quote, no quote is active, and another close, or none, is wanted |
| `PerpDecisions.QuotePlacedExactly` | src/opms/controllers/generic/perp_mm_controller.py:1014-1068 | a wanted quote is placed at the intent's price or behind the buffered touch of its own side, whichever is further back, for as many whole steps as fit, exactly when that meets the venue's minima; never without a usable touch |
| `PerpDecisions.QuotesCreatedExactly` | src/opms/controllers/generic/perp_mm_controller.py:803-887 | the quotes a cycle creates are exactly those that the executable legs of the intent give, in a cycle that may quote: unsuspended, on fresh data, with nothing active, after a refresh or with the circuit closed |
| `PerpDecisions.SidesExactly` | src/opms/controllers/generic/perp_mm_controller.py:992-1083 | a side is live exactly when a quote of it has an order the venue has not denied, and expected exactly when the intent has a leg of it above the minima |
| `PerpDecisions.EmergencyExactly` | src/opms/controllers/generic/perp_mm_controller.py:783-933 | a cycle raises the basket emergency if and only if a refresh that still matters has taken too long, or quotes that should be live are unanswered |
| `PerpDecisions.PendingExactly` | src/opms/controllers/generic/perp_mm_controller.py:783-887 | a refresh is pending after a cycle if and only if it was and still matters in time, or begins: on a stale book with quotes out, or because answered quotes may not stay |
| `PerpDecisions.WatchedExactly` | src/opms/controllers/generic/perp_mm_controller.py:803-887 | when the watchdog observes, is suspended, tripped or left as it is |
| `PerpDecisions.LocalModeExactly` | src/opms/controllers/generic/perp_mm_controller.py:510-516 | a leg reports an emergency exactly with its circuit open or by the keeper's decision, otherwise a stop exactly when the keeper stops quoting |
| `PerpDecisions.BasketTargetIsTraded` | src/opms/controllers/generic/perp_mm_controller.py:517-530 | while the basket quotes the keeper's intent stands; otherwise the leg's close request leads from its position exactly to the basket's target, as an emergency exactly in the emergency mode |
| `PerpMMControllerClass.PerpMMController.ForceFlattenIntent` | src/opms/controllers/generic/perp_mm_controller.py:334-361 | overwrites the client's intent with an emergency flatten of the current position, and publishes this leg's emergency to the basket |
| `PerpMMControllerClass.PerpMMController.PublishPortfolioEmergency` | src/opms/controllers/generic/perp_mm_controller.py:351-361 | writes this leg's emergency row with a missing or zero mid replaced by 1; without a book, or when the update raises, nothing changes |
| `PerpSafety.AlarmReachesBasket` | src/opms/controllers/generic/perp_mm_controller.py:351-361 | the emergency row is written, and the basket flattens, if and only if the leg belongs to the book and its last mid is missing, or finite and not negative; in its row stand the leg's position, the time and the mid, or 1 for a missing or zero one; otherwise the table stays as it was |
| `PerpMMControllerClass.PerpMMController.PortfolioTransform` | src/opms/controllers/generic/perp_mm_controller.py:504-530 | publishes this leg's mode and returns the keeper's intent as the basket allows it, or raises |
| `PerpMMControllerClass.PerpMMController.CancelTimedOut` | src/opms/controllers/generic/perp_mm_controller.py:919-933 | an overdue refresh is ended and, if it still matters, trips the watchdog; reports whether the deadline passed |
| `PerpMMControllerClass.PerpMMController.QuoteCreateActions` | src/opms/controllers/generic/perp_mm_controller.py:1014-1047 | the loop creates exactly the quotes that fit the venue and the book |
| `PerpMMControllerClass.PerpMMController.DetermineExecutorActions` | src/opms/controllers/generic/perp_mm_controller.py:765-917 | one cycle updates flags and watchdog and returns exactly the specified stops, creations and emergency |
| `PerpMMControllerClass.PerpMMController.CancelOnStaleData` | src/opms/controllers/generic/perp_mm_controller.py:783-800 | the stale-book branch: quotes cancelled under the deadline, closes left alone |
| `PerpMMControllerClass.PerpMMController.FinishRefresh` | src/opms/controllers/generic/perp_mm_controller.py:816-834 | the second phase of a refresh: create only once nothing is active |
| `PerpMMControllerClass.PerpMMController.MaintainQuotes` | src/opms/controllers/generic/perp_mm_controller.py:835-887 | the settled branch: observe, then fail safe, keep, refresh or create |
| `PerpMMControllerClass.PerpMMController.CloseOut` | src/opms/controllers/generic/perp_mm_controller.py:888-917 | the non-quoting branch: drain quotes, then work the close request once |

## Left out

- Children and order records are values in sequences of the executor object, named by index, not objects that several records share; aliasing of a child slot is its index.
- Order ids are submission indices, so the freshness of ids is built in; cancel requests are recorded as a set of ids and may not fail.
- The side, leverage and position action of a submitted order are handed to the connector unchanged and are not part of the state; its kind, limit price and size are.
- Decimal and float rounding, and the conversion of floats through strings: all amounts and times are exact reals, and NaN prices are absent prices, the last mid of an emergency report apart.
- `evaluate_max_retries`, balance validation, fees, PnL, close timestamps, custom info, logging and the asynchronous plumbing.
- The wording of venue errors: rate limiting, timeouts and the reduce-only rejection are booleans.
- The keeper, the risk policy, `quote_refresh_reason` and `usdc_flat_targets` are libraries outside this repository; their results are arbitrary inputs.
- Margin and equity tracking of the controller, market-data age sources, the settled-executor cache, snapshots and statistics.
- `send_portfolio_intent`: grouped intents are admitted for shadow use only and never reach execution.
- SQLite: one update of the stop book is one atomic step on a shared map of rows, and member names are compared as strings; distinct members share a name only if an account contains a colon, which `PlainAccounts` excludes where it matters.
- Sanitizing of configuration by the framework beyond the checks the executors make themselves.
- Fetching candles: absent providers and failed requests are the missing-candles case.
- Resilience.TripSpacing: assumes a positive timeout or a positive clock, and a non-negative cooldown, because an open-until time of exactly zero reads as closed.
- Resilience.TripNeedsStreak: makes the same assumption, for the same reason.
- ACShape.ClockShape: is stated for schedules without a minimum size; merged ones are covered by ScheduleSound and MergeSound.
- PassiveAggressiveExecutorClass.PassiveAggressiveExecutor.Submit: does not record side, leverage and position action, because they are constants of the configuration passed through.
- PassiveAggressiveExecutorClass.PassiveAggressiveExecutor.PlaceLimit: likewise; the price, kind and size of the order are recorded.
- ACExecutionTheorems.RunsToCompletion: rests on views that show completed orders as done, which the environment must supply; UnshownNeverEnds says what happens otherwise.
- ACExecutionTheorems.FullFillsComplete: chooses such views, for the same reason.
- PassiveAggressiveTermination.ClosesInTime: supposes an environment that ticks and answers in time and does not stop a closed executor, since an unanswered cancel keeps its child waiting.
- The parked TWAP round trip, the hedging and liquidity controllers, the gateway, risk monitor, connectors and scripts.
