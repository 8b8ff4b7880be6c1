# pulseTrader: verified model of the trading core

pulseTrader is a C++ trading engine. This project models the parts of it that hold state
and promises: the lock-free candle buffer, the order gate with its reservation ledger,
token bucket and circuit breaker, the order life cycle, the order books, the indicator
and exit state machines, the deduplicated feeds, the task queue and the diagram
generator. One module stands for one component.

Conventions. Prices, quantities and tokens are exact reals; timestamps are integers.
A call that runs under a mutex is one atomic step. Where the code is lock-free (the
candle buffer, the token bucket, the stop flag of the task queue) every load, store and
compare-exchange is a step of its own, interleaved arbitrarily under sequential
consistency. Clocks, spurious compare-exchange failures and square roots are parameters.
A container the code mutates is a field that methods reassign; such a method is proved
against a function of the old state, and what the component promises is proved about
that function over whole runs.

Where to start reading:

| component | modules | main results |
|---|---|---|
| candle ring and seqlock | RingMath, KlineSeqlock, KlineBuffer | every returned read is the tail of the push history, as long as was asked for, at one moment inside the call, torn copies included; a reader left alone returns |
| mean reversion | MeanReversion, Signals | Samuelson's inequality; the confidence exactly, alike on both sides; which confidence a window can reach; the shipped defaults never emit |
| token bucket | OrderRateLimiter, LimiterRaces, LimiterResets | window bound from above and what a caller is owed from below for uncontended calls; token conservation in every interleaving; exactly when no instant is credited twice, and the time bound that follows, resets included |
| reservation ledger | MapSum, Exposures, Decimal, PositionManager, ReservationLedger, Admission, CompletionFlow, PositionPnl | largest grant; exactly when a fill is let in; limits over every run; exactly when live orders keep their reservations, and exactly when the limits hold over a run; profit identity |
| circuit breaker and gate | DrawdownGuard, HaltRaces, RiskManager, GateRaces | halted exactly when the history says so, store by store as well; what a rejected order leaves untouched; how much can still pass after a halt |
| order life cycle | OrderTracker, OrderHistory | exactly which message completes an order, and its report from the history; one completion callback per order in every interleaving, and exactly when an id is never tracked and completed at once |
| order books | OrderBook | last writer wins; exactly when re-delivery is rejected; best levels |
| indicators and exits | SuperTrend, StopLoss, TakeProfit | bands as running extrema, ratchet and its exact failure, flips; when each stop fires; ladder order and totals, short as well as long |
| feeds | PercentEncoding, RollingFeed | round trip; window and index |
| task queue | TaskQueue | order and conservation; exactly when stop completes |
| diagram generator | Utf8Width, Diagram | every code point is read back; every line has the exact width if and only if the calls fit, and shows its text whole |

## What turned out false of the code

Each item names a lemma with a concrete input on which the code fails, and then the
statement for all inputs of when it does behave.

- Two threads that read the same refill timestamp both credit the same second, so three
  orders pass in one second at rate 1 and burst 1 (`LimiterRaces.SameSecondCreditedTwice`).
  No instant is credited twice if and only if every successful token exchange of a refill
  finds its timestamp still in force and no other refill between its exchange and its new
  timestamp (`NoInstantTwiceExactlyWhen`); then the time bound on grants holds however the
  threads race (`GrantsWithinTime`), in particular when refills never overlap
  (`RefillsApartWithinTime`).
- The completion handler consumes a reservation by id and then opens the position, which
  erases another order's reservation of the same symbol; that budget is granted again
  (`CompletionFlow.CompletionFlowGrantsTwice`). Over every run each live order keeps its
  reservation if and only if at every accepted completion no other live order is for the
  filled symbol (`ReservationsKeptExactlyWhen`).
- That guard alone does not keep the limits: `openPosition` counts open positions only, so a
  fill at a worse price than was reserved is accepted beside other live orders
  (`CompletionFlow.FillAboveGrantExceedsLimit`). Over every guarded run positions and live
  orders stay within all limits if and only if at every accepted completion what was paid
  fits beside all other business (`LiveLimitsHoldExactlyWhen`), in particular when no fill
  costs more than was granted (`LiveOrdersWithinLimits`). For the ledger by itself the
  condition is that each accepted open fits after crediting what it erases
  (`ReservationLedger.LimitsHoldExactlyWhen`).
- `clearHalt` clears flag and reason in two unlocked stores: an equity report between
  them leaves trading halted with no reason (`DrawdownGuard.HaltedWithoutReason`; exactly
  when: `HaltedWithoutReasonExactlyWhen`). When it lands inside a report, a reason can stand
  without a halt (`HaltRaces.ReasonWithoutHalt`): between reports, exactly when the last
  `clearHalt` finished just before the last store of a failing report
  (`ReasonWithoutHaltExactlyWhen`).
- A gate that finds trading halted loads the reason later, and the report stores it later, so
  an order can be rejected for no reason (`GateRaces.RejectedWithoutReason`). A reservation
  made while trading has been halted always belongs to a call that tested the flag before
  (`ReservedAfterHaltReadBefore`), and there are no more of these than calls in flight at the
  halt (`HaltLimitsReservations`).
- `TaskQueue::stop` raises its flag without the lock, so its notification is lost if the
  worker has evaluated the wait predicate and not yet blocked, and the join never returns
  (`TaskQueue.StopCanHang`; it completes exactly otherwise: `StopCompletesExactlyWhen`). A
  stop requested while the worker does not hold the lock always completes
  (`StopUnderLockCompletes`).
- After a snapshot with id 0 an old delta is accepted again (`OrderBook.IdZeroAcceptsOldDelta`).
  Whatever the snapshot ids, as long as no complete snapshot came since, re-delivery is
  rejected if and only if the last accepted id is not 0 (`RedeliveryRejectedExactlyWhen`).
- An order id tracked again after its completion is tracked and completed at once and is
  reported twice (`OrderTracker.RetrackedIdReportsTwice`). An id is never both if and only
  if it is never tracked while it has a completed report (`NeverBothExactlyWhen`), and then
  it is reported at most once (`CompletionReportedOnce`).
- The SuperTrend line can fall while bullish, with the shipped parameters, right after a
  flip on a price gap (`SuperTrend.LineFallsAfterGapFlip`; one holding candle makes it give
  way exactly when: `RatchetFailsExactlyWhen`).
- A feed item that was evicted counts as new when it is delivered again
  (`RollingFeed.EvictedItemReturns`). Polling a batch twice is idle if and only if all its
  items are still in the window, or there is no room for any (`RepeatedPollIsIdleExactlyWhen`).
- A take-profit ladder that passes validation can signal twice the position: with a negative
  fraction (`TakeProfit.NegativeFractionClosesTwice`), or disabled and without fractions,
  which the engine runs all the same (`DisabledLadderClosesTwice`). For every ladder the
  signals of every run stay within a limit if and only if every prefix sum of the effective
  fractions does, a missing one counting as the whole (`WithinLimitExactlyWhen`).

One design consequence is of the same kind: with the default window, multiplier and
threshold the mean-reversion strategy never emits a signal
(`MeanReversion.DefaultsNeverReachThreshold`); which confidence a window can reach at all is
`ReachableConfidence`.

## Where code and comments disagree

The model follows the code.

- `OrderTracker.cpp:175-190` shows a status "filled"; `parseStatus` (296-311) knows only
  "open", "closed" and "cancelled", so "filled" counts as pending. `core/types.hpp` calls
  Rejected terminal; `isTerminalStatus` does not. (The model calls that status Refused.)
- `OrderBookManager.hpp:4-6` promises resubscription on a sequence gap; `applyDelta`
  rejects stale ids only and never calls the callback.
- `PositionManager.cpp:155-158` speaks of the first matching reservation; the container
  is a hash map, so the model allows any entry of the symbol.

## Model

| member | source | states |
|---|---|---|
| RingMath.LogicalSlot | src/market/KlineBuffer.cpp:126-138 | the index computed from head and count is the slot of the push at that logical position |
| KlineSeqlock.Step | src/market/KlineBuffer.cpp:16-138 | no scheduled step of writer or reader ever takes an index out of bounds, also on reads later rejected |
| KlineSeqlock.RingAfterPush | src/market/KlineBuffer.cpp:22-34 | overwriting the oldest slot and moving head and count yields the ring of the history with the new candle |
| KlineSeqlock.StepWriterKeepsInv | src/market/KlineBuffer.cpp:16-38 | what holds between any two stores of a push |
| KlineSeqlock.WriterKeepsReader | src/market/KlineBuffer.cpp:16-38 | no writer step invalidates what a reader has gathered without moving the lock word |
| KlineSeqlock.HeadKeepsInv | src/market/KlineBuffer.cpp:126-138 | re-reading count and head during the copy still gives the wanted slot, or the lock word has moved |
| KlineSeqlock.CopyKeepsInv | src/market/KlineBuffer.cpp:70-75 | a field-by-field copy is whole, or the lock word has moved |
| KlineSeqlock.RunKeepsInv | src/market/KlineBuffer.cpp:16-138 | the invariant over every interleaving of one writer and any readers; history only grows |
| KlineSeqlock.SnapshotsAreConsistent | src/market/KlineBuffer.cpp:40-114 | every result of snapshot(n) is exactly the last min(n, size) candles, all retained ones for n = 0, and of latest the very last, oldest first, of the push history at one moment inside the call |
| KlineSeqlock.ReaderFinishesAlone | src/market/KlineBuffer.cpp:42-84 | with no push in flight a reader left to run alone returns |
| KlineBuffer.Buffer.constructor | src/market/KlineBuffer.cpp:10-14 | an empty ring |
| KlineBuffer.Buffer.Push | src/market/KlineBuffer.cpp:16-38 | in place, the ring comes to describe the history with the new candle appended |
| KlineBuffer.Buffer.Snapshot | src/market/KlineBuffer.cpp:40-85 | the last min(n, size) pushes, all of them for n = 0 |
| KlineBuffer.Buffer.CopyLast | src/market/KlineBuffer.cpp:63-75 | the copy loop yields the tail of the history in order |
| KlineBuffer.Buffer.Latest | src/market/KlineBuffer.cpp:87-114 | the last push, or nothing |
| MeanReversion.Samuelson | src/strategy/scalping/MeanReversionScalper.cpp:104-124 | the last of n closes is at most sqrt(n-1) deviations from the mean |
| MeanReversion.ConfidenceExactly | src/strategy/scalping/MeanReversionScalper.cpp:118-158 | for every window and on either side, the confidence is the distance beyond the nearer band over the band width, clamped to [0, 1], and 0 without width |
| MeanReversion.ConfidenceIsSymmetric | src/strategy/scalping/MeanReversionScalper.cpp:104-158 | turning every price upside down leaves variance and confidence unchanged |
| MeanReversion.PassesExactlyWhen | src/strategy/scalping/MeanReversionScalper.cpp:145-158 | the confidence reaches m if and only if the close is k*sd*(1 + 2m) or more from the mean |
| MeanReversion.BreachesExactlyWhen | src/strategy/scalping/MeanReversionScalper.cpp:126-133 | a breach is a close at least k*sd from the mean, above or below |
| MeanReversion.ConfidenceBound | src/strategy/scalping/MeanReversionScalper.cpp:104-158 | the confidence never exceeds max(0, (sqrt(n-1) - k) / 2k) |
| MeanReversion.SpikeAttainsBound | src/strategy/scalping/MeanReversionScalper.cpp:104-158 | a single spike attains that bound |
| MeanReversion.DipAttainsBound | src/strategy/scalping/MeanReversionScalper.cpp:104-158 | and so does a single dip, below the lower band |
| MeanReversion.ReachableConfidence | src/strategy/scalping/MeanReversionScalper.cpp:104-158 | some window reaches confidence m if and only if sqrt(n-1) >= k(1 + 2m) |
| MeanReversion.PositiveConfidence | src/strategy/scalping/MeanReversionScalper.cpp:145-158 | some window gives positive confidence if and only if k*k < n-1 |
| MeanReversion.DefaultsNeverReachThreshold | src/strategy/StrategyParams.hpp:44-52 | with 20 closes and 2 deviations the confidence stays below 0.6 |
| MeanReversion.Scalper.constructor | src/strategy/StrategyParams.hpp:43-63 | the shipped parameter values |
| MeanReversion.Scalper.Moments | src/strategy/scalping/MeanReversionScalper.cpp:105-116 | the two accumulation loops compute mean and population variance |
| MeanReversion.Scalper.OnKline | src/strategy/scalping/MeanReversionScalper.cpp:65-177 | what is emitted and when the cooldown restarts, for every window; nothing at all with the defaults |
| Signals.ReachesCallbackExactlyWhen | src/strategy/StrategyManager.cpp:45-57 | a signal is handed on unchanged if and only if its confidence is at least the minimum |
| Signals.ClampIsNearest | src/strategy/scalping/MeanReversionScalper.cpp:158 | clamping yields the point of [0, 1] nearest to the value |
| OrderRateLimiter.AttemptLevel | src/risk/OrderRateLimiter.cpp:36-136 | one call keeps the bucket in range and turns each grant into one token of level lost |
| OrderRateLimiter.GrantsWithinLevel | src/risk/OrderRateLimiter.cpp:36-136 | grants up to a moment never exceed tokens plus uncredited time |
| OrderRateLimiter.BoundFromConstruction | src/risk/OrderRateLimiter.cpp:18-136 | from construction, grants number at most burst + rate * time, without slack |
| OrderRateLimiter.WindowBound | src/risk/OrderRateLimiter.cpp:36-136 | in any window of any run, grants number at most burst + rate * length + 0.001 |
| OrderRateLimiter.PacedCallerNeverRefused | src/risk/OrderRateLimiter.cpp:36-136 | attempts at least 1/rate apart are all granted |
| OrderRateLimiter.CreditPerSecond | src/risk/OrderRateLimiter.cpp:111 | a second earns rate tokens |
| OrderRateLimiter.AttemptExactly | src/risk/OrderRateLimiter.cpp:36-136 | what one call leaves: all credit from 0.001 on is counted, up to the burst, and a call is granted exactly when a whole token is there, at the cost of it |
| OrderRateLimiter.RefusedOnlyWhenEmpty | src/risk/OrderRateLimiter.cpp:51-58 | a call is refused only with less than 1.001 tokens on hand, credit included |
| OrderRateLimiter.LevelConserved | src/risk/OrderRateLimiter.cpp:36-136 | while the bucket does not overflow, tokens and uncounted credit drop by exactly the calls granted |
| OrderRateLimiter.GrantsAtLeast | src/risk/OrderRateLimiter.cpp:18-136 | a caller who keeps it from overflowing and is refused has been granted more than burst + rate * time - 1.001 |
| OrderRateLimiter.PauseRefills | src/risk/OrderRateLimiter.cpp:118-125 | after a pause worth what is missing, as many calls in a row are granted as were saved up, to the burst |
| OrderRateLimiter.Limiter.constructor | src/risk/OrderRateLimiter.cpp:18-30 | full bucket; burst 0 means twice the rate, in 32 bits |
| OrderRateLimiter.Limiter.TryAcquire | src/risk/OrderRateLimiter.cpp:36-71 | the loop is one attempt when nothing fails spuriously, and otherwise grants unless ten exchanges fail |
| OrderRateLimiter.Limiter.RefillNow | src/risk/OrderRateLimiter.cpp:93-136 | credits the elapsed time up to the burst, or changes nothing |
| OrderRateLimiter.Limiter.Reset | src/risk/OrderRateLimiter.cpp:83-87 | full bucket at the present time |
| LimiterRaces.StepAccounts | src/risk/OrderRateLimiter.cpp:45-136 | any step of any thread keeps the bucket in [0, burst], and takes a token exactly when it grants |
| LimiterRaces.TokensConserved | src/risk/OrderRateLimiter.cpp:45-136 | over every interleaving, tokens = start + added - granted, always within [0, burst] |
| LimiterRaces.GrantsAreFunded | src/risk/OrderRateLimiter.cpp:18-136 | grants never exceed the burst plus everything added |
| LimiterRaces.LoneCallIsAttempt | src/risk/OrderRateLimiter.cpp:36-136 | a call that runs alone, without spurious failures, is one step of the sequential bucket |
| LimiterRaces.LoneResetFills | src/risk/OrderRateLimiter.cpp:83-87 | a reset that runs alone leaves a full bucket at the present time |
| LimiterRaces.NoInstantTwiceExactlyWhen | src/risk/OrderRateLimiter.cpp:102-135 | in every interleaving without reset, no instant is credited twice if and only if every successful token exchange of a refill is up to date |
| LimiterRaces.AddedWithinTime | src/risk/OrderRateLimiter.cpp:102-135 | while refills are up to date, what they add is bounded by the time gone by |
| LimiterRaces.GrantsWithinTime | src/risk/OrderRateLimiter.cpp:18-136 | then grants number at most burst + rate * time, with threads racing and exchanges failing |
| LimiterRaces.GrantsSinceLastRefill | src/risk/OrderRateLimiter.cpp:36-136 | and from any moment on at most burst + rate * (time since the last refill) |
| LimiterRaces.RefillsApartWithinTime | src/risk/OrderRateLimiter.cpp:45-136 | in particular when no refill loads the timestamp during another one |
| LimiterResets.GrantsWithinTimeAndResets | src/risk/OrderRateLimiter.cpp:18-136 | in any run in which no instant is credited twice, resets included, grants number at most one burst, one more for each reset, and rate * time |
| LimiterResets.SpansFit | src/risk/OrderRateLimiter.cpp:102-111 | time credited at most once adds up to no more than the time there is |
| LimiterRaces.SameSecondCreditedTwice | src/risk/OrderRateLimiter.cpp:102-135 | an interleaving in which the uncontended window bound fails |
| Exposures.Accumulate | src/risk/PositionManager.cpp:474-494 | the summing loop yields the total and the share of one symbol |
| PositionManager.Manager.constructor | src/risk/PositionManager.cpp:19-22 | empty ledger; reservation ids start at 1 |
| PositionManager.Manager.ReserveNotional | src/risk/PositionManager.cpp:456-581 | the whole new ledger and decision |
| PositionManager.Manager.CancelReservation | src/risk/PositionManager.cpp:598-616 | exactly the named entry goes; id 0 is ignored |
| PositionManager.Manager.OpenPosition | src/risk/PositionManager.cpp:37-175 | refusals in the code's order, or one new position and one same-symbol reservation erased if there is any |
| PositionManager.Manager.FindReservation | src/risk/PositionManager.cpp:159-166 | the scan finds an entry of the symbol exactly when there is one |
| PositionManager.Manager.ClosePosition | src/risk/PositionManager.cpp:177-244 | unknown ids change nothing; full closes erase, partial ones reprice |
| Decimal.SuffixDeterminesCounter | src/risk/PositionManager.cpp:622-627 | the number at the end of a position id determines the counter |
| Decimal.DigitsReadBack | src/risk/PositionManager.cpp:626 | the digits in an id read back as the counter, without leading zero |
| ReservationLedger.NewPositionIdIsFresh | src/risk/PositionManager.cpp:622-627 | a generated position id never overwrites a position, whatever the symbols |
| ReservationLedger.DecideIsMaximal | src/risk/PositionManager.cpp:499-559 | the decision alone, for any committed totals: the largest quantity up to the request that fits both budgets, unchanged exactly when all of it fits |
| ReservationLedger.GrantIsMaximal | src/risk/PositionManager.cpp:472-559 | when the count allows it, the grant is the largest quantity up to the request that fits both budgets; refused only when nothing fits |
| ReservationLedger.ReservationExactly | src/risk/PositionManager.cpp:456-581 | for every request: when it is approved, reduced or rejected, with which quantity and code, and what the ledger then holds |
| ReservationLedger.NoBudgetLeftIsUnreachable | src/risk/PositionManager.cpp:540-548 | that branch is dead for every input |
| Admission.AcceptedExactlyWhen | src/risk/PositionManager.cpp:53-100 | an open is accepted if and only if its notional fits the total and the symbol limit beside the open positions and a place is free; which code is given otherwise; a refusal changes nothing |
| Admission.AcceptedFillIsHeld | src/risk/PositionManager.cpp:102-153 | an accepted fill becomes one position on its own terms, under an id made of symbol, side and counter |
| Admission.PositionsStayWithin | src/risk/PositionManager.cpp:37-616 | over every run of reserve, cancel, consume, open and full close, whatever is reserved, open positions alone stay within all three limits |
| ReservationLedger.InstalledTotals | src/risk/PositionManager.cpp:153-166 | an open moves each total by its notional less what it releases |
| ReservationLedger.OpenKeepsLimitsExactlyWhen | src/risk/PositionManager.cpp:53-166 | an accepted open stays within all limits if and only if it fits after crediting the released reservation |
| ReservationLedger.ReserveKeepsAdmitted | src/risk/PositionManager.cpp:456-581 | a reservation keeps all three limits |
| ReservationLedger.CloseKeepsAdmitted | src/risk/PositionManager.cpp:209-219 | a full close keeps all three limits |
| ReservationLedger.LimitsHoldExactlyWhen | src/risk/PositionManager.cpp:37-616 | over every run of reserve, cancel, consume, full close and open, positions plus reservations stay within total, symbol and count limits at all times if and only if each accepted open fits after crediting the reservation it erases |
| ReservationLedger.LimitsHoldOverRuns | src/risk/PositionManager.cpp:37-616 | in particular when each accepted open is covered by the reservation it erases |
| CompletionFlow.CompletionKeepsOthersExactlyWhen | apps/pulsetrader/main.cpp:990-1013 | an accepted completion leaves the other reservations alone if and only if none of them is for the filled symbol |
| CompletionFlow.ReservationsKeptExactlyWhen | apps/pulsetrader/main.cpp:885-1013 | over every run of placing, abandoning, completing and closing, whatever the sizes, each live order keeps its reservation if and only if at every accepted completion no other live order is for the symbol |
| CompletionFlow.LiveLimitsHoldExactlyWhen | apps/pulsetrader/main.cpp:885-1013 | over every guarded run, positions and live orders together stay within total, symbol and count limits at all times if and only if at each accepted completion what was paid fits beside all other business |
| CompletionFlow.LiveOrdersWithinLimits | apps/pulsetrader/main.cpp:885-1013 | in particular when no fill costs more than was granted |
| CompletionFlow.FillAboveGrantExceedsLimit | src/risk/PositionManager.cpp:55-98 | a guarded completion at a worse price, accepted, after which positions and live orders exceed the limit |
| CompletionFlow.CompletionFlowGrantsTwice | apps/pulsetrader/main.cpp:990-1013 | a run whose completion breaks that condition, after which positions and live orders exceed the limit |
| PositionPnl.ValueIdentity | src/risk/PositionManager.cpp:177-267 | over any marks and closes, realized plus unrealized moves by direction * quanto * leverage * (proceeds + change of holding) |
| PositionPnl.ProfitFromOpening | src/risk/PositionManager.cpp:177-267 | from opening on it equals direction * quanto * leverage * (sum of closed * exit + rest * mark - cost), and margin is that of the rest |
| PositionPnl.CloseAtMarkIsNeutral | src/risk/PositionManager.cpp:198-241 | a close at the mark, partial or full, leaves realized plus unrealized unchanged |
| PositionPnl.ExposureFollowsMark | src/risk/PositionManager.cpp:105-116 | over any marks and partial closes: quantity is what is left, mark the last price, notional the size of quantity * mark * quanto |
| PositionPnl.MarginIsShare | src/risk/PositionManager.cpp:124-132 | margin times leverage is quantity * entry * quanto, for futures only |
| PositionPnl.LiquidationLeavesMaintenance | src/risk/PositionManager.cpp:134-151 | at the liquidation price the price has moved against the position by its margin less its maintenance share |
| PositionPnl.OpenedIsJustOpened | src/risk/PositionManager.cpp:105-133 | a new position is where the identity starts from |
| PositionPnl.LedgerFollowsAccount | src/risk/PositionManager.cpp:177-267 | the ledger's calls act on the stored position as the account does, and on nothing else |
| DrawdownGuard.StateFollowsHistory | src/risk/DrawdownGuard.cpp:47-73 | peak, day start and current equity as functions of the history of reports and resets |
| DrawdownGuard.HaltedExactlyWhen | src/risk/DrawdownGuard.cpp:47-174 | halted if and only if some report since the last clear fell below a limit against the running peak or the then-current day start |
| DrawdownGuard.LimitItselfIsAllowed | src/risk/DrawdownGuard.cpp:75-103 | a loss of just the allowed fraction does not halt, the least more does |
| DrawdownGuard.HaltedWithoutReasonExactlyWhen | src/risk/DrawdownGuard.cpp:47-174 | halted with no reason if and only if a report breached since the flag was cleared and none since the reason was |
| HaltRaces.LockedFieldsAreAtomic | src/risk/DrawdownGuard.cpp:59-104 | store by store, peak, day start and equity are those of atomic reports, and only reports that fail a check store |
| HaltRaces.EachStandsExactlyWhen | src/risk/DrawdownGuard.cpp:85-101 | in every interleaving with clearHalt, flag and reason each stand if and only if a failing report stored them since they were cleared |
| HaltRaces.ReasonWithoutHaltExactlyWhen | src/risk/DrawdownGuard.cpp:85-171 | between reports and clearHalts, when not halted, a reason stands if and only if the last clearHalt finished just before the last store of a failing report |
| HaltRaces.AtomicWhenClearsApart | src/risk/DrawdownGuard.cpp:47-174 | when no clearing store lands inside a report, the guard is the atomic one |
| HaltRaces.ReasonWithoutHalt | src/risk/DrawdownGuard.cpp:168-171 | otherwise a reason can stand without a halt |
| DrawdownGuard.HaltedWithoutReason | src/risk/DrawdownGuard.cpp:168-174 | a report between clearHalt's two stores leaves a halt without reason |
| DrawdownGuard.CircuitBreaker.constructor | src/risk/DrawdownGuard.cpp:16-19 | nothing reported, not halted |
| DrawdownGuard.CircuitBreaker.RecordPnl | src/risk/DrawdownGuard.cpp:25-45 | day total and, for a named strategy, its own total |
| DrawdownGuard.CircuitBreaker.ReportEquity | src/risk/DrawdownGuard.cpp:47-104 | the whole new state; profit records untouched |
| DrawdownGuard.CircuitBreaker.ResetDay | src/risk/DrawdownGuard.cpp:150-166 | day start moves to current equity, profit records are cleared, the halt stays |
| DrawdownGuard.CircuitBreaker.ClearHalt | src/risk/DrawdownGuard.cpp:168-174 | flag, then reason |
| RiskManager.Gate.EvaluateOrder | src/risk/RiskManager.cpp:33-87 | halted: no token and no reservation; refused token: no reservation; the result has a reservation id, the ledger's one new entry, exactly when not rejected |
| GateRaces.LoneCallEvaluates | src/risk/RiskManager.cpp:33-87 | three steps of a call by itself return what the whole call does |
| GateRaces.HaltLimitsReservations | src/risk/RiskManager.cpp:49-86 | in every interleaving after a halt, no more reservations are made than calls were in flight at it, and no more tokens taken than calls had yet to take theirs |
| GateRaces.FlightBeganUnhalted | src/risk/RiskManager.cpp:49-64 | a call past the flag test found trading not halted and has been in flight since |
| GateRaces.ReservedAfterHaltReadBefore | src/risk/RiskManager.cpp:49-86 | a reservation made while halted belongs to a call that tested the flag before the halt |
| GateRaces.RejectedWithoutReason | src/risk/RiskManager.cpp:50-60 | a call that runs between a report's two stores rejects for no reason |
| OrderTracker.InvokeKeepsCalls | src/execution/OrderTracker.cpp:262-266 | running a collected callback neither loses nor repeats it |
| OrderTracker.DeliverCalls | src/execution/OrderTracker.cpp:218-260 | a status message collects at most one callback and then stops tracking; other orders are untouched |
| OrderTracker.CallsNeverExceedTrackings | src/execution/OrderTracker.cpp:25-267 | in every run no tracked order is terminal, and an id has no more callbacks than trackings |
| OrderHistory.TrackedExactlyWhenInProgress | src/execution/OrderTracker.cpp:25-267 | in every interleaving an order is tracked exactly while its history has it in progress, so a message ends it if and only if it says "closed" or "cancelled"; while tracked, quantity, price and fee are the last parsed since it was tracked and its status is Open exactly after "open" |
| OrderHistory.MessageEffect | src/execution/OrderTracker.cpp:134-163 | what one message changes in a tracked order |
| OrderHistory.CompletedExactlyBy | src/execution/OrderTracker.cpp:154-170 | an ending message about an order in progress stores, and hands to the callback, the report its history describes, Filled for "closed" and Cancelled for "cancelled"; nothing else stores one |
| OrderHistory.SlippageRestoresFill | src/execution/OrderTracker.cpp:281 | the slippage scaled back and turned by the side restores the fill price |
| OrderTracker.NeverBothExactlyWhen | src/execution/OrderTracker.cpp:63-266 | in every interleaving an id is never tracked and completed at once if and only if it is never tracked while it has a completed report |
| OrderTracker.CompletionReportedOnce | src/execution/OrderTracker.cpp:128-266 | then it is called back at most once, with the stored report, however often it was tracked before completing; with a callback installed throughout, a completed order was called back exactly once |
| OrderTracker.TrackedOnceIsNeverRetracked | src/execution/OrderTracker.cpp:63-66 | an id tracked once meets that condition |
| OrderTracker.RetrackedIdReportsAgain | src/execution/OrderTracker.cpp:63-266 | from any state, tracking a completed id makes it both, and its next completion calls back once more |
| OrderTracker.RetrackedIdReportsTwice | src/execution/OrderTracker.cpp:63-266 | tracked and completed twice over, an id is reported twice |
| OrderTracker.Tracker.TrackOrder | src/execution/OrderTracker.cpp:25-67 | subscribes with the first order only, and stores a pending order |
| OrderTracker.Tracker.PollOrderStatus | src/execution/OrderTracker.cpp:105-173 | a failed request changes nothing; a reply is one delivery followed by its callback |
| OrderTracker.Tracker.ProcessOrderUpdate | src/execution/OrderTracker.cpp:200-267 | a message without id changes nothing; otherwise one delivery followed by its callback |
| OrderTracker.Tracker.ActiveOrders | src/execution/OrderTracker.cpp:313-336 | lists exactly the non-terminal tracked orders, which in reachable states are all of them |
| OrderBook.ParseReflects | src/market/OrderBookManager.cpp:169-214 | a snapshot side holds the last positive mention of each price |
| OrderBook.SnapshotHoldsLastQuote | src/market/OrderBookManager.cpp:177-213 | a snapshot side holds a price exactly when it is quoted above zero, and then its last such quantity |
| OrderBook.SnapshotSetsSides | src/market/OrderBookManager.cpp:33-40 | after a snapshot each side of the book holds what that side of it quotes |
| OrderBook.ApplyReflects | src/market/OrderBookManager.cpp:216-267 | a delta side holds the last mention of each price, removed at zero |
| OrderBook.BookReflectsFeed | src/market/OrderBookManager.cpp:17-98 | after any feed, each price holds the quantity of its last accepted mention since the last snapshot |
| OrderBook.NoZeroLevels | src/market/OrderBookManager.cpp:209-265 | no reachable book stores a zero level |
| OrderBook.TimeFollowsFeed | src/market/OrderBookManager.cpp:31-96 | a book carries the time of the last accepted message that had one |
| OrderBook.DeltaAcceptedExactlyWhen | src/market/OrderBookManager.cpp:73-97 | a delta is accepted if and only if its id exceeds the last accepted one, by however much, or that one is 0 |
| OrderBook.AcceptedIdsIncrease | src/market/OrderBookManager.cpp:73-97 | with positive snapshot ids, accepted ids strictly increase |
| OrderBook.PassedIdsAreCovered | src/market/OrderBookManager.cpp:79-97 | the id of a delta gone by since the last snapshot is at most the last accepted one, whatever the ids |
| OrderBook.RedeliveryRejectedExactlyWhen | src/market/OrderBookManager.cpp:79-88 | with no complete snapshot since, re-delivering such a delta is rejected if and only if the last accepted id is not 0, and then changes nothing in any book |
| OrderBook.RedeliveryIsIgnored | src/market/OrderBookManager.cpp:65-88 | with positive snapshot ids, re-delivering any old delta changes nothing in any book |
| OrderBook.IdZeroAcceptsOldDelta | src/market/OrderBookManager.cpp:80-82 | with a snapshot of id 0 an old delta overwrites a newer quantity |
| OrderBook.TopIsUnique | src/market/OrderBookManager.cpp:111-161 | sorted, complete and best determine the list |
| OrderBook.NothingHeldBack | src/market/OrderBookManager.cpp:125-128 | in reachable books the stop at a zero level never takes effect |
| OrderBook.Manager.ParseSide | src/market/OrderBookManager.cpp:169-214 | the loop over a snapshot side |
| OrderBook.Manager.ApplySide | src/market/OrderBookManager.cpp:216-267 | the loop over a delta side |
| OrderBook.Manager.OnSnapshot | src/market/OrderBookManager.cpp:17-48 | replaces the book, or ignores an incomplete message |
| OrderBook.Manager.OnDelta | src/market/OrderBookManager.cpp:50-98 | applies, or ignores an incomplete, unknown or stale message |
| OrderBook.Manager.TopBids | src/market/OrderBookManager.cpp:111-135 | the best n bids, strictly descending, none better left out, up to the first zero level |
| OrderBook.Manager.TopAsks | src/market/OrderBookManager.cpp:137-161 | the best n asks, strictly ascending, none better left out, up to the first zero level |
| SuperTrend.ComputeAtr | src/strategy/scalping/SuperTrendScalper.cpp:228-250 | average of the last true ranges, 0 when there are too few candles |
| SuperTrend.OnlyLastCandlesCount | src/strategy/scalping/SuperTrendScalper.cpp:240-249 | only the last period + 1 candles count |
| SuperTrend.RangeSumZeroIffFlat | src/strategy/scalping/SuperTrendScalper.cpp:99-103 | the range is zero, and the candle skipped, only for a completely flat market |
| SuperTrend.TrueRangeIsSpan | src/strategy/scalping/SuperTrendScalper.cpp:243-246 | the true range is the height of the candle stretched to the close before it |
| SuperTrend.BandsAreRunningExtrema | src/strategy/scalping/SuperTrendScalper.cpp:111-140 | until a close beyond it resets it, the upper band is the lowest basic upper band so far and the lower band the highest basic lower one |
| SuperTrend.BandsStep | src/strategy/scalping/SuperTrendScalper.cpp:111-140 | one candle tightens a band or resets it |
| SuperTrend.FlipsExactlyWhen | src/strategy/scalping/SuperTrendScalper.cpp:142-177 | a trend turns exactly on a close beyond its own new band; the first follows the midpoint |
| SuperTrend.FlipConfidenceIsDistance | src/strategy/scalping/SuperTrendScalper.cpp:195-196 | confidence times range is the distance to the line, at most one range |
| SuperTrend.LineFollowsBand | src/strategy/scalping/SuperTrendScalper.cpp:111-177 | over any candles the line is the lower band exactly when bullish, the upper exactly when bearish |
| SuperTrend.HoldingSettles | src/strategy/scalping/SuperTrendScalper.cpp:146-177 | a candle that keeps the trend leaves the close on the trend's side of the line |
| SuperTrend.HoldingRatchets | src/strategy/scalping/SuperTrendScalper.cpp:111-177 | across trend-holding candles the line never falls while bullish and never rises while bearish |
| SuperTrend.RatchetFailsExactlyWhen | src/strategy/scalping/SuperTrendScalper.cpp:114-140 | for a holding candle from any state: it gives way if and only if the previous close was beyond the band and the new basic band is looser |
| SuperTrend.LineFallsAfterGapFlip | src/strategy/scalping/SuperTrendScalper.cpp:64-226 | a candle history on which that happens with period 10 and multiplier 3 |
| SuperTrend.Scalper.NextTrend | src/strategy/scalping/SuperTrendScalper.cpp:105-177 | bands, line and direction of the next state |
| SuperTrend.Scalper.OnKline | src/strategy/scalping/SuperTrendScalper.cpp:64-226 | the whole new state; a signal exactly on a flip of an established trend after the cooldown, pointing where the trend turned |
| StopLoss.BestIsExtremum | src/risk/StopLossEngine.cpp:91-99 | over any run the best price is the extremum of entry and all prices seen |
| StopLoss.TrailingFiresExactlyOnRetrace | src/risk/StopLossEngine.cpp:91-150 | fires if and only if the latest price has given back trailing_pct or more of that extremum |
| StopLoss.FixedFiresExactlyOnLoss | src/risk/StopLossEngine.cpp:106-127 | over any run a fixed stop fires if and only if the position has lost the fraction or more of its entry price |
| StopLoss.TimedFiresExactlyAfter | src/risk/StopLossEngine.cpp:152-163 | a timed stop fires if and only if the position was held for the configured whole seconds |
| StopLoss.TrailNeverLoosens | src/risk/StopLossEngine.cpp:129-150 | further prices never move the trigger level against the position |
| StopLoss.Engine.Evaluate | src/risk/StopLossEngine.cpp:63-176 | every priced position is updated; exactly those that fire are returned, once each |
| TakeProfit.LadderInOrder | src/risk/TakeProfitEngine.cpp:59-136 | over any run the signals carry indices 0, 1, 2, ..., each at the first evaluation after the previous one that reaches its target |
| TakeProfit.LadderIsUnique | src/risk/TakeProfitEngine.cpp:59-136 | that description leaves only one list of signals |
| TakeProfit.ReachesExactlyOnGain | src/risk/TakeProfitEngine.cpp:92-115 | a target is reached if and only if the position has gained its fraction or more, long or short |
| TakeProfit.ShortMirrorsLong | src/risk/TakeProfitEngine.cpp:92-115 | over any run a short position signals what the long one does for the mirrored prices |
| TakeProfit.SignalsArePrefix | src/risk/TakeProfitEngine.cpp:117-132 | the signalled fractions are a prefix of the effective ones, in which a missing fraction is the whole |
| TakeProfit.SignalledAtMostSum | src/risk/TakeProfitEngine.cpp:59-136 | when none is negative, a run signals at most their sum |
| TakeProfit.NeverClosesMoreThanAll | src/risk/TakeProfitEngine.cpp:59-136 | for a validated, enabled ladder of non-negative fractions that is at most 1 + 1e-9 |
| TakeProfit.WithinLimitExactlyWhen | src/risk/TakeProfitEngine.cpp:59-136 | for every ladder: every run stays within a limit if and only if every prefix sum of the effective fractions does |
| TakeProfit.NegativeFractionClosesTwice | src/core/config_validator.cpp:124-149 | an accepted ladder whose first signal is twice the position |
| TakeProfit.DisabledLadderClosesTwice | src/core/config_validator.cpp:124-133 | an accepted, disabled ladder of two targets that closes the position at each |
| TakeProfit.ValidateLadder | src/core/config_validator.cpp:124-149 | accepts exactly disabled ladders and those of equal lengths whose fractions sum to at most 1 + 1e-9 |
| TakeProfit.Engine.Evaluate | src/risk/TakeProfitEngine.cpp:59-136 | every priced position takes one ladder step; exactly those that fire are signalled, once each |
| PercentEncoding.RoundTrip | src/ai/NewsFeed.cpp:62-89 | percent-decoding (section 2.1 of RFC 3986) restores every byte string |
| PercentEncoding.Injective | src/ai/NewsFeed.cpp:62-89 | different strings have different encodings |
| PercentEncoding.OutputIsSafe | src/ai/NewsFeed.cpp:67-85 | only unreserved characters (section 2.3 of RFC 3986) and percent signs, at most three bytes each |
| PercentEncoding.EscapesAreUpper | src/ai/NewsFeed.cpp:81-84 | every percent sign is followed by two upper-case hexadecimal digits |
| PercentEncoding.EncodesEachKind | src/ai/NewsFeed.cpp:69-85 | every kind of byte, literally |
| PercentEncoding.UnchangedIffUnreserved | src/ai/NewsFeed.cpp:69-73 | a string is left alone if and only if all of it is unreserved |
| PercentEncoding.UrlEncode | src/ai/NewsFeed.cpp:62-89 | the loop computes the encoding |
| RollingFeed.FreshIsFirstSeen | src/ai/TwitterFeed.cpp:207-249 | a poll takes in, in order, exactly the items whose key is seen there for the first time |
| RollingFeed.PolledDistinct | src/ai/NewsFeed.cpp:263-286 | a poll keeps the keys of the window distinct |
| RollingFeed.WindowIsDistinct | src/ai/NewsFeed.cpp:263-349 | after any polls and clears keys are distinct and at most max |
| RollingFeed.WindowIsTail | src/ai/NewsFeed.cpp:263-349 | the window is the last max of everything taken in since the last clear |
| RollingFeed.RepeatedPollIsIdleExactlyWhen | src/ai/NewsFeed.cpp:263-286 | the same batch again changes nothing if and only if all its items are still in the window, or there is no room for any |
| RollingFeed.EvictedItemReturns | src/ai/NewsFeed.cpp:281-286 | an evicted item counts as new again |
| RollingFeed.Feed.TakeBatch | src/ai/TwitterFeed.cpp:207-264 | the last max of old window and newly seen items; the index stays equal to the keys in the window |
| RollingFeed.Feed.Trim | src/ai/TwitterFeed.cpp:256-261 | evicts from the front, index in step |
| RollingFeed.Feed.ClearAll | src/ai/TwitterFeed.cpp:317-322 | window and index empty |
| TaskQueue.TasksAreConservedInOrder | src/heartbeat/TaskQueue.cpp:65-157 | in every interleaving: high-priority tasks newest first, then normal ones oldest first; each arrival is taken once or pending; normal tasks are taken in order of arrival |
| TaskQueue.NoTaskIsForgotten | src/heartbeat/TaskQueue.cpp:65-134 | a worker asleep over a non-empty queue is still to be notified; the guard for an empty queue after the wait is dead |
| TaskQueue.AfterStopRequest | src/heartbeat/TaskQueue.cpp:38-136 | after the stop request nothing is taken, save one task when the worker had just seen no request |
| TaskQueue.OneMoreIsTaken | src/heartbeat/TaskQueue.cpp:124-136 | that exception occurs |
| TaskQueue.StopCompletesExactlyWhen | src/heartbeat/TaskQueue.cpp:38-57 | left alone after the notification the worker exits if and only if it was not between a false predicate and blocking |
| TaskQueue.StopUnderLockCompletes | src/heartbeat/TaskQueue.cpp:38-57 | a stop requested while the worker does not hold the lock completes, whatever happens before its notification |
| TaskQueue.LostWakeUpIsForever | src/heartbeat/TaskQueue.cpp:38-57 | a lost notification is not made good by worker or stopping thread |
| TaskQueue.StopCanHang | src/heartbeat/TaskQueue.cpp:38-122 | stopping an idle queue reaches that state |
| TaskQueue.Queue.EnqueueTask | src/heartbeat/TaskQueue.cpp:65-80 | front for high priority, back for normal; order kept |
| TaskQueue.Queue.TakeFront | src/heartbeat/TaskQueue.cpp:123-136 | the task that precedes all others, or none when stopped or empty |
| Utf8Width.Decode | tools/diagramGen.hpp:39-92 | the decoder always advances, and by no more than the lead byte announces |
| Utf8Width.DecodesEncoded | tools/diagramGen.hpp:39-92 | every code point encoded by section 3 of RFC 3629 is read back, whatever follows |
| Utf8Width.MalformedIsReplaced | tools/diagramGen.hpp:73-90 | a byte that starts nothing and a sequence that breaks off are one replacement character, and the byte at which it broke off is read afresh |
| Utf8Width.WidthOfText | tools/diagramGen.hpp:101-144 | the width of well-formed text is two columns for each of ten symbols and one for every other character |
| Utf8Width.DecodeAppend | tools/diagramGen.hpp:39-92 | appended bytes do not change a code point they cannot belong to |
| Utf8Width.WidthAppend | tools/diagramGen.hpp:133-144 | width adds up over concatenation when the left part decodes completely or the right part does not start with a continuation byte |
| Utf8Width.WidthNotAdditiveAcrossCut | tools/diagramGen.hpp:133-144 | otherwise it need not |
| Utf8Width.Utf8Next | tools/diagramGen.hpp:39-92 | the pointer loop decodes one code point, within bounds |
| Utf8Width.VisualWidth | tools/diagramGen.hpp:133-144 | the loop computes the width |
| Diagram.MakeHline | tools/diagramGen.hpp:165-174 | n line symbols |
| Diagram.HlineWidth | tools/diagramGen.hpp:159-174 | of width 2n |
| Diagram.PadToVisual | tools/diagramGen.hpp:148-157 | padding by visual width |
| Diagram.PadWidth | tools/diagramGen.hpp:146-157 | reaches the target exactly, unless the text is already wider |
| Diagram.OuterBorderWidth | tools/diagramGen.hpp:216-217 | the outer border loses one column for an odd width |
| Diagram.InnerBorderWidth | tools/diagramGen.hpp:395-414 | the inner border is exact for every width from 20 |
| Diagram.InnerRowWidth | tools/diagramGen.hpp:417-426 | exact unless the text is wider than its field |
| Diagram.ConnectorWidth | tools/diagramGen.hpp:432-445 | exact unless the label is too wide |
| Diagram.TitleRowWidth | tools/diagramGen.hpp:257-266 | a title throws exactly when wider than the inner width, and otherwise fills its row |
| Diagram.CallExactIffFits | tools/diagramGen.hpp:248-319 | for every width from 20 and any byte strings, all lines of a call have the exact width if and only if the call fits |
| Diagram.CallDraws | tools/diagramGen.hpp:248-319 | what each call draws, line by line and character by character: its borders, and every text whole and in its place, titles centred |
| Diagram.EveryLineExact | tools/diagramGen.hpp:206-445 | every line of any sequence of calls is exact if and only if every call fits |
| Diagram.Generator.Make | tools/diagramGen.hpp:206-236 | widths below 20 are refused |
| Diagram.Generator.BeginOuterBox | tools/diagramGen.hpp:248-270 | the lines added, also when the title throws |
| Diagram.Generator.EndOuterBox | tools/diagramGen.hpp:273-281 | the lines added |
| Diagram.Generator.AddInnerBox | tools/diagramGen.hpp:288-301 | the lines added |
| Diagram.Generator.AddConnectorDown | tools/diagramGen.hpp:304-307 | the line added |
| Diagram.Generator.AddConnectorArrow | tools/diagramGen.hpp:310-313 | the line added |

## Left out

- All input and output: HTTP, WebSocket and database layers, logging, the language-model clients, the dashboard.
- JSON and TOML decoding: the model starts from typed values, with explicit cases for incomplete messages, entries that do not parse and fields that are missing or malformed. Exceptions thrown by the JSON library are not part of this model.
- Weak memory ordering: the lock-free parts are modelled under sequential consistency.
- Floating-point rounding: all arithmetic is exact. The square root is any non-negative number whose square is the variance.
- Wrap-around of 64-bit counters (lock word, reservation and position ids) and of 32-bit `int` in widths and counts.
- OrderRateLimiter.WindowBound: states the slack of 0.001 for calls by one thread at a time without spurious failures. Under contention a refill can fail and be made up later, so there the bound counts from the last refill (LimiterRaces.GrantsSinceLastRefill), and only while no instant is credited twice.
- LimiterRaces.GrantsWithinTime: covers no reset; LimiterResets.GrantsWithinTimeAndResets does, at one burst each.
- LimiterRaces.NoInstantTwiceExactlyWhen: is stated without resets, which move the timestamp whether or not it was credited.
- ReservationLedger.LimitsHoldExactlyWhen: covers neither price updates nor partial closes, because both reprice notional after admission.
- CompletionFlow.LiveLimitsHoldExactlyWhen: is for full closes and sizes that are not negative, for the same reason.
- KlineBuffer.Buffer.Push: asks for a positive capacity; with capacity 0 a push indexes an empty vector in the original.
- MeanReversion.Scalper.OnKline: asks for a non-empty window whenever the warm-up test passes, because the original reads the last close of the window; that excludes only a period below 1 over an empty buffer. The missing market feed is not modelled.
- SuperTrend.Scalper.OnKline: asks for a positive period; period 0 divides by zero and yields not-a-number in the original.
- DrawdownGuard.HaltedExactlyWhen: takes an equity report as one step; a clearHalt that lands between that report's own stores is the subject of HaltRaces.
- RiskManager.Gate.EvaluateOrder: is one call alone; calls beside each other and beside halts are in GateRaces. The futures variant and the message strings are left out.
- OrderTracker.Tracker.TrackOrder: the subscription flag is tested and set outside the lock in the original; first calls racing on it, which could subscribe twice, are not modelled.
- OrderTracker.Tracker.ActiveOrders: lists whole orders rather than the snapshot structure with some of their fields.
- TaskQueue.StopCompletesExactlyWhen: models one call of stop; the start-up order of thread and flag and what a task does are left out.
- KlineBuffer.Buffer.Snapshot: the object form is for calls between pushes; concurrency is in KlineSeqlock.
- StopLoss.Engine.Evaluate: positions are visited in some order; the hash map's order, and with it the order of the result, is not modelled. The same holds for TakeProfit.Engine.Evaluate.
- Sorting of recent reports, portfolio summaries and other queries, rendering of a diagram to one string, text for prompts, timestamp parsing: nothing about them goes beyond reading one body.
- Signal aggregation, parameter clamping, endpoint routing, backoff formulas and configuration defaults beyond those cited, for the same reason.
- CompletionFlow.ReservationsKeptExactlyWhen: a filled or cancelled buy is a completion with whatever was filled, possibly nothing; an order that could not be placed is an abandoned one. A completed sell consumes its own reservation too, which is the same step as abandoning, and then closes positions.
- The sell path of the completion handler, which closes every position of a symbol by the full filled quantity: no conservation law holds there.
