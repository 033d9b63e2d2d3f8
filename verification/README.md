# Recomma in Dafny

Recomma mirrors 3Commas bot orders onto Hyperliquid. This project models the parts of it whose
correctness is not visible from any one function and proves what they promise:

- **The reservation rate limiter** (`LimiterModel`, `LimiterSafety`, `LimiterWindows`, `LimiterQuota`,
  `LimiterFairness`, `Limiter`).
  Each critical section is one atomic step; clock readings are parameters. The class is proved
  against the step functions, and the step functions are proved safe over every run. The invariant
  that makes them safe, consumed + sum of unused reservations <= limit, appears nowhere in the code.
- **The fill tracker** (`TrackerOrders`, `TrackerDeals`, `TrackerModel`, `Tracker`,
  `TrackerEffects`, `Reconcile`, `Acknowledged`, `TakeProfits`):
  ingesting statuses out of order, two indexes over the same order objects, cached positions, the
  hydration gate, splitting a deal's position by venue, and the take-profit reconciler with its
  fixed point, down to the statuses that bring it about.
- **Mirroring and targeting** (`Adapter`, `Targeting`, `Mirroring`, `MirroringRuns`): reducing an
  order's history to the next request, choosing venues, and the refinement theorem that any
  schedule of runs leaves the venues holding what the latest snapshot asks for.
- **Stack rounding, price rounding and IOC retries** (`StackRounding`, `StackPreferences`, `OrderScaler`,
  `Decimals`, `PriceRounding`, `IocRetry`): optimality of the backtracking search, shape of significant-figure
  rounding, and monotone compounding retries. Floating-point numbers are modelled as reals.
- **The shutdown protocol of the asynchronous log handler** (`LogHandler`, `LogDelivery`): interleaved steps of
  any number of producers and closers and one consumer.
- **The rate gate and the order id codec** (`RateGate`, `OrderIds`, `PrintedOrder`). Hex is Base16, section 8 of
  RFC 4648; the checksum is an arbitrary function, so nothing depends on CRC-32 itself.

`MapSums`, `RealSums`, `Counting`, `Sorting` and `Wrappers` hold what the rest shares. Sums over maps
are shown independent of iteration order, because Go's is not fixed.

Conventions: times are integers in a unit the module names; a lookup, quote, clock reading, store
answer or exchange answer is a parameter; a returned error is a value. Where a map is iterated the
model takes the keys in an arbitrary order.

Where code and documentation disagree the model follows the code:

- `SignalComplete` is documented as freeing the workflow's quota claim (ratelimit/limiter.go:387-390).
  It frees nothing; only `Release` and `AdjustDown` do (`SignalCompleteFreesNothing`).
- specs/rate_limit.adoc asks that the API quota is never exceeded. A sliding interval as long as a
  window may see twice the limit (`TwiceTheLimitIsReached`); the quota holds only for a limit of zero
  or windows of one tick (`QuotaHoldsExactlyWhen`). `Extend` ignores other holders
  (`ExtendOverlooksOtherHolders`; `ExtendSafeExactlyWithinSpare` and
  `ExtendAgainSafeExactlyWithinSpare` say exactly when it is safe).
- Waiters are described as served first come, first served. A fresh `Reserve` may overtake them, by
  asking for less (`SmallRequestOvertakes`) or by opening the new window itself
  (`LargeRequestOvertakes`; `GrantedExactlyWhen` says when), and a reset outside a granting pass
  leaves a waiter that fits asleep (`LostWakeUp`, `SleepsUntilWoken`).
- `RequireStatusHydration` is documented as making reconciliation wait. `ReconcileTakeProfits` does;
  `UpdateStatus` reconciles without the gate (filltracker/service.go:145-147): `TakeProfits.UpdateStatus`
  says what it then requests and `UngatedRequests` that this happens while hydration is awaited.

## Model
| member | source | states |
|---|---|---|
| LimiterImplementation.Limiter.constructor | ratelimit/limiter.go:79-109 | A new limiter has nothing consumed, reserved or queued, and an unset window length becomes the default of one minute. |
| LimiterImplementation.Limiter.Reserve | ratelimit/limiter.go:122-185 | In place: rejects a blank id, a non-positive count and a second reservation for the same id; otherwise resets a due window, and grants or queues the request, leaving exactly the model's next state. |
| LimiterImplementation.Limiter.RemoveFromQueue | ratelimit/limiter.go:588-595 | Gives up waiting: the first waiter with the id leaves the queue, the rest keep their order. |
| LimiterImplementation.Limiter.Consume | ratelimit/limiter.go:215-249 | One call is counted against the reservation and the window, after resetting a due window; refused without a reservation or beyond it. |
| LimiterImplementation.Limiter.AdjustDown | ratelimit/limiter.go:257-295 | A reservation shrinks to a total not below what it consumed, then waiting requests are granted; every error leaves the state alone. |
| LimiterImplementation.Limiter.SignalComplete | ratelimit/limiter.go:391-428 | Marks the reservation complete and runs one granting pass. |
| LimiterImplementation.Limiter.Release | ratelimit/limiter.go:435-487 | Drops the reservation and runs one granting pass. |
| LimiterImplementation.Limiter.ResetWindowIfNeeded | ratelimit/limiter.go:503-532 | A window that has run its length is replaced by one starting now with nothing consumed; reservations survive. |
| LimiterImplementation.Limiter.TryGrantWaiting | ratelimit/limiter.go:535-576 | The mutating loop over the queue leaves the state of the recursive granting pass and reports how many waiters it granted. |
| LimiterImplementation.Limiter.CalculateTotalReserved | ratelimit/limiter.go:579-585 | The loop over the reservations adds up the same total whatever order they are visited in. |
| LimiterImplementation.Limiter.Stats | ratelimit/limiter.go:490-496 | Reports the window's figures after resetting a due window, and wakes nobody. |
| LimiterImplementation.Limiter.Tick | ratelimit/limiter.go:599-615 | The background watcher grants only when somebody waits and the window has just been reset. |
| LimiterSafety.GrantCheckIsConservative | ratelimit/limiter.go:139-147 | The admission check counts slots already consumed twice: it admits a request exactly when it fits the true spare capacity less everything consumed by live reservations. |
| LimiterSafety.StepKeepsCapacity | ratelimit/limiter.go:122-615 | Every critical section but those of Extend keeps consumed + sum(reserved - consumed by reservation) <= limit and 0 <= consumed by reservation <= reserved. |
| LimiterSafety.RunKeepsCapacity | ratelimit/limiter.go:122-615 | The same over every run, from any state that has it. |
| LimiterSafety.NoWindowOverrun | ratelimit/limiter.go:122-295 | Over every run of a limiter with a non-negative limit no window consumes more than the limit, window resets in mid-reservation and queued ids that overwrite active ones included. |
| LimiterSafety.RemoveFirstAt | ratelimit/limiter.go:588-595 | What removal removes: the first occurrence, or nothing. |
| LimiterSafety.GrantPassIsPrefix | ratelimit/limiter.go:535-576 | One pass grants exactly a prefix of the queue in order, closes each granted channel once, keeps the order of the rest, and stops only because the queue is empty or its head does not fit. |
| LimiterSafety.NoDoubleClose | ratelimit/limiter.go:535-576 | Over every run no ready channel is closed twice, and nobody still queued has been signalled. |
| LimiterSafety.ReserveThenRelease | ratelimit/limiter.go:122-158 | Reserving on the spot and releasing unused restores the limiter exactly. |
| LimiterSafety.ReleaseFreesUnused | ratelimit/limiter.go:257-295 | Shrinking, like releasing, returns the unused slots and only those. |
| LimiterSafety.SignalCompleteFreesNothing | ratelimit/limiter.go:385-428 | Contrary to the comment that a completed workflow has freed its quota claim, completion changes no total and grants what a bare pass would. |
| LimiterSafety.ResizeSafeExactly | ratelimit/limiter.go:320-323 | Resizing a reservation keeps the safety invariant if and only if the new total covers what it consumed and the growth fits the spare capacity. |
| LimiterSafety.ExtendSafeExactlyWithinSpare | ratelimit/limiter.go:298-334 | Extending on the spot keeps the safety invariant if and only if the extra slots fit the spare capacity. |
| LimiterSafety.ExtendAgainSafeExactlyWithinSpare | ratelimit/limiter.go:346-383 | Extending after the wait for a reset keeps it if and only if the total covers what was consumed meanwhile and the growth fits; refused, or on a reservation released meanwhile, it changes nothing but a due window. |
| LimiterSafety.SoleHolderExtendIsSafe | ratelimit/limiter.go:298-383 | For the only holder both checks of Extend are exact: it is extended if and only if the growth fits, and stays safe as long as the total covers what it consumed. |
| LimiterSafety.ExtendOverlooksOtherHolders | ratelimit/limiter.go:298-383 | With a second holder Extend can break the invariant. |
| LimiterWindows.RunKeepsSpaced | ratelimit/limiter.go:503-532 | Windows start at least a window length apart and each holds at most the limit, over every run on a clock that never goes back. |
| LimiterWindows.RunRecords | ratelimit/limiter.go:215-249 | The calls recorded window by window are, in order, exactly the successful consumes of the run. |
| LimiterWindows.SlidingBound | ratelimit/limiter.go:215-249 | Any half-open interval of length L sees at most (ceil(L / window) + 1) * limit successful consumes. |
| LimiterWindows.TwiceTheLimitPerWindowLength | ratelimit/limiter.go:503-532 | Upper bound: an interval as long as a window never sees more than twice the limit. |
| LimiterQuota.TwiceTheLimitIsReached | ratelimit/limiter.go:503-532 | The bound is reached: for every limit of at least one and every window longer than a tick some well-timed run has exactly twice the limit in one window length. |
| LimiterQuota.OneTickWindowsKeepTheQuota | ratelimit/limiter.go:503-532 | With windows of a single tick no instant sees more than the limit, over every run. |
| LimiterQuota.QuotaHoldsExactlyWhen | ratelimit/limiter.go:503-532 | No interval as long as a window ever sees more than the limit if and only if the limit is zero or the window is a single tick. |
| LimiterFairness.GrantedExactlyWhen | ratelimit/limiter.go:122-158 | A fresh request is granted on the spot if and only if it is valid and fits the window it finds or opens, whoever is waiting; it then passes a head either by asking for less or because the head fits too; one that does not fit joins the end of the queue with a channel of its own, and an invalid one changes nothing. |
| LimiterFairness.PassWakesHeadExactlyWhen | ratelimit/limiter.go:535-576 | A granting pass wakes the head of the queue if and only if it fits the window open then. |
| LimiterFairness.ReleaseWakesHeadExactlyWhen | ratelimit/limiter.go:435-487 | Releasing wakes the head of the queue if and only if it fits the window open then without the released slots, and leaves nobody at the head who fits. |
| LimiterFairness.ShrinkingWakesHeadExactlyWhen | ratelimit/limiter.go:257-295 | The same for shrinking a reservation, without the slots given up. |
| LimiterFairness.CompletionWakesHeadExactlyWhen | ratelimit/limiter.go:391-428 | The same for completion, which gives up none. |
| LimiterFairness.TickWakesHeadExactlyWhen | ratelimit/limiter.go:599-615 | The watcher wakes the head if and only if the window has elapsed and the head fits beside what is reserved. |
| LimiterFairness.SmallRequestOvertakes | ratelimit/limiter.go:141-158 | For every limit of at least two some run lets a small request pass a waiter that does not fit. |
| LimiterFairness.LargeRequestOvertakes | ratelimit/limiter.go:141-158 | And some run lets a request for the whole limit pass a waiter that does fit, by opening the new window itself. |
| LimiterFairness.SleepsUntilWoken | ratelimit/limiter.go:503-615 | Over every run of reservations, consumes, statistics, watcher looks at an open window and other waiters giving up, the head stays queued and unsignalled, however much room there is. |
| LimiterFairness.LostWakeUp | ratelimit/limiter.go:490-615 | For every limit some run ends with a head that fits left asleep after a reset by Stats, and the watcher does nothing for it until the window after. |
| LogHandler.RunKeepsInv | pkg/sqllogger/handler.go:143-279 | Over every interleaving of any number of Handle calls, Close calls and the consumer: the wait group is exact, accepted entries are inserted, in hand or queued in acceptance order, each once, and each phase of shutdown implies the ones before. |
| LogHandler.NothingEnqueuedAfterWait | pkg/sqllogger/handler.go:143-165 | After the winning close has seen the handle wait group at zero no run of further steps accepts another entry. |
| LogHandler.NoAcceptedEntryLost | pkg/sqllogger/handler.go:255-279 | When close returns nil through done, every accepted entry has been inserted exactly once, in acceptance order, every other call's never, and that stays so. |
| LogHandler.DrainEnds | pkg/sqllogger/handler.go:212-253 | Over every interleaving after cancellation the consumer is never blocked before it exits, takes at most a fixed number of steps, and once it has taken that many has exited with every accepted entry inserted. |
| LogHandler.ShutdownFinishes | pkg/sqllogger/handler.go:212-279 | From any reachable cancelled state the consumer's own steps, at most that many, end in its exit with every accepted entry inserted. |
| LogHandler.ExitedForGood | pkg/sqllogger/handler.go:212-253 | Once the consumer has exited nothing more is inserted. |
| LogDelivery.OpenHandlerDelivers | pkg/sqllogger/handler.go:143-210 | On an open handler with room a call that nobody comes between is accepted, last in the queue; with a full queue it is told so and not accepted. |
| LogDelivery.EndedContextReturns | pkg/sqllogger/handler.go:197-210 | A call whose context ends while it waits to enqueue can return that at once; nothing is accepted for it. |
| LogDelivery.ClosedHandlerRefuses | pkg/sqllogger/handler.go:143-210 | Once the handler is closed, over every interleaving, a call that has not passed its second check is never accepted and can only return that the handler is closed. |
| LogDelivery.RunHasOneWinner | pkg/sqllogger/handler.go:255-279 | Over every interleaving exactly one Close call wins once the handler is closed, and none before. |
| LogDelivery.CloseCanReturn | pkg/sqllogger/handler.go:255-279 | Once it only waits for the consumer, the winning close can return nil within the consumer's remaining steps and two more, with every accepted entry inserted. |
| StackRounding.EvaluateStackCost | engine/orderscaler/service.go:301-329 | The loop computes the cost of a rounding as the sum over legs plus the weighted error of the total. |
| StackRounding.Options | engine/orderscaler/service.go:237-261 | Floor and ceiling of a leg, ascending, once each. |
| StackRounding.Search.Backtrack | engine/orderscaler/service.go:220-299 | The backtracking over mutable steps and incumbent leaves the incumbent of a left-to-right scan of all completions. |
| StackRounding.CompletionsComplete | engine/orderscaler/service.go:220-299 | The search visits every floor/ceiling choice for every leg. |
| StackRounding.CompletionsSorted | engine/orderscaler/service.go:220-299 | It visits them in lexicographic order. |
| StackRounding.ScanFindsFirstCheapest | engine/orderscaler/service.go:220-299 | Keeping strictly cheaper incumbents ends at the first of the cheapest. |
| StackRounding.SearchIsOptimal | engine/orderscaler/service.go:220-299 | The result is the lexicographically first minimiser of the cost over all choices, and the fallback for an infinite best cost is never needed. |
| StackRounding.ComputeStackRoundedSizes | engine/orderscaler/service.go:220-299 | For a positive step the sizes are the best rounding; otherwise they are the scaled originals. |
| StackRounding.BestRoundingUnique | engine/orderscaler/service.go:220-329 | There is only one best rounding, so the specification fixes the result. |
| StackRounding.RoundingStaysClose | engine/orderscaler/service.go:220-299 | For non-negative targets each size is a non-negative multiple of the step less than one step from its target, and n legs are off by less than n steps in total. |
| StackRounding.CostVanishesOnlyOnTargets | engine/orderscaler/service.go:301-329 | For a positive multiplier the cost vanishes exactly on the scaled targets themselves. |
| StackPreferences.DominatingIsCheaper | engine/orderscaler/service.go:301-329 | A rounding nowhere further off in its total, in the size, order or proportion of a leg, and somewhere nearer, is strictly cheaper. |
| StackPreferences.ChosenIsUndominated | engine/orderscaler/service.go:220-329 | No rounding of the stack is nowhere worse and somewhere better than the one chosen. |
| StackPreferences.RoundingExactlyWhen | engine/orderscaler/service.go:237-261 | The roundings searched are exactly those that take every non-negative leg less than one step up or down, and every negative one to nothing. |
| StackPreferences.OneLegDecidesByItsErrors | engine/orderscaler/service.go:301-329 | Of two roundings that differ in one leg the cheaper is the one with the smaller errors, an error in the total counting twice one in the leg, and a ratio off by one, or a leg no longer above its predecessor, twenty times. |
| OrderScaler.Scale | engine/orderscaler/service.go:90-203 | The order is changed in place to the rounded price and the rounded, clamped size, of its own or of its place in the stack; below the venue minimum it is left alone, and whatever is sent is worth the minimum. |
| OrderScaler.ScaledSizeIsClose | engine/orderscaler/service.go:90-203 | A scaled size is within half a lot of the original times the multiplier in force, or within a lot of its own leg's target in a stack. |
| OrderScaler.StackPlace | engine/orderscaler/service.go:332-347 | The place in the stack derived from an event always lies inside a non-empty stack. |
| PriceRounding.RoundToSignificantFigures | hl/constraints.go:129-170 | The counting and scaling loops compute rounding half away from zero at the decade of the price, or truncation where no decimals are left; both loops terminate. |
| PriceRounding.UpscaleProgress | hl/constraints.go:157-161 | Scaling a price below one up by tens terminates with a genuine measure. |
| PriceRounding.SigRoundOdd | hl/constraints.go:129-165 | Rounding is odd. |
| PriceRounding.SigRoundMonotone | hl/constraints.go:129-165 | Rounding is monotone across every digit-count boundary and sign. |
| PriceRounding.SigRoundIdempotent | hl/constraints.go:129-165 | Rounding twice is rounding once. |
| PriceRounding.RelativeError | hl/constraints.go:129-165 | The relative error is below 10^(1 - figures). |
| PriceRounding.RoundsToNearestFigure | hl/constraints.go:129-170 | A positive price becomes the nearest number with that many significant figures, the larger of two equally near, or its whole part once that has all the figures. |
| PriceRounding.CoinConstraints.RoundPrice | hl/constraints.go:30-36 | Prices are rounded to the coin's significant figures, five unless set. |
| PriceRounding.CoinConstraints.RoundSizeIsNearestLot | hl/constraints.go:22-27 | A rounded size is a nearest whole number of lots and stays where it is when rounded again. |
| IocRetry.RoundHalfEvenMonotone | emitter/emitter.go:809-833 | Rounding to eight decimals, ties to even, is monotone. |
| IocRetry.ConstrainIdempotent | emitter/emitter.go:556-566 | Constraining a price twice is constraining it once. |
| IocRetry.BothRoundingsSettle | emitter/emitter.go:264-327 | A price that went through eight-decimal rounding and then significant figures is unchanged by either. |
| IocRetry.RetryMovesTowardsFill | emitter/emitter.go:404-428 | From a settled price other than zero an attempt never moves away from being filled. |
| IocRetry.RetreatsExactlyWhen | emitter/emitter.go:264-327 | An attempt moves away from being filled if and only if the settled price before it is zero and the market's price, offset and constrained, lies above zero for a sell or below zero for a buy. |
| IocRetry.BuysNeverRetreat | emitter/emitter.go:264-327 | A buy never retreats from a market that asks at least nothing. |
| IocRetry.RetriesOnlyGetMoreAggressive | emitter/emitter.go:404-469 | While the price does not vanish successive attempt prices never fall for buys and never rise for sells, although bumps compound through both roundings. |
| IocRetry.PrepareAttempt | emitter/emitter.go:421-428 | One attempt: quote or round, offset, constrain. |
| IocRetry.SubmitCreate | emitter/emitter.go:404-475 | The loop sends at most the configured number of orders, one turn each, stops as the exchange's answers say, and records the last order sent exactly when it was placed or turned down for good. |
| IocRetry.ProgressStopsAt | emitter/emitter.go:404-475 | Where the attempts stop and why: all but the last found no counterparty, all but the first got a turn, and the last answer, or the missing turn, decides the result. |
| IocRetry.RetriesAreSpentExactlyWhen | emitter/emitter.go:404-469 | The order is sent as many times as the configured limit, or once without one, exactly when every attempt before the last found no counterparty and every one after the first got a turn; never more often. |
| IocRetry.SendsAsAsked | emitter/emitter.go:404-428 | Every order sent is the one asked for, at its size to eight decimals, each at the price the one before it leads to. |
| IocRetry.PricedOrdersKeepTheirPrice | emitter/emitter.go:264-327 | An order that is not immediate and has a price is sent at that price every time. |
| IocRetry.SubmitModify | emitter/emitter.go:568-615 | A modification is recorded exactly when the exchange took it or an empty answer was confirmed; one refused because the order is filled or cancelled succeeds without a record. |
| IocRetry.Emit | emitter/emitter.go:329-554 | The whole outcome of a call: refused without an order of its own, skipped without work or a turn; otherwise the order asked for, on its side, for its size, at its price or the market's ask for a buy and bid for a sell, as rounded, constrained and offset, is created over ever more aggressive attempts, modified or cancelled, with one turn for each exchange call, the request recorded exactly when it was carried out or turned down for good, and a cooldown exactly after a rate limit. |
| IocRetry.VanishedPriceIsRequoted | emitter/emitter.go:264-327 | It happens: a sell whose price rounds to zero is quoted afresh and sent above what was sent before. |
| RateGate.GrantsSpaced | emitter/rate_gate.go:36-57 | Over every interleaving of Wait and Cooldown consecutive grants are at least the spacing apart. |
| RateGate.CooldownHolds | emitter/rate_gate.go:59-71 | No grant falls within d after Cooldown(d). |
| RateGate.TurnsPerInterval | emitter/rate_gate.go:36-57 | An interval of length L holds at most floor(L / spacing) + 1 grants. |
| RateGate.OpensExactlyWhenFree | emitter/rate_gate.go:36-71 | After any interleaving the gate is set to the earliest instant that neither its start, nor the last turn's spacing, nor any cooldown holds back. |
| RateGate.TurnIsGrantedExactlyWhenFree | emitter/rate_gate.go:36-57 | A goroutine that looks gets the turn if and only if nothing holds it back. |
| RateGate.RateGate.constructor | emitter/rate_gate.go:20-28 | A gate opens at once and spaces turns by a positive duration. |
| RateGate.RateGate.TakeTurn | emitter/rate_gate.go:36-57 | One pass under the lock grants exactly when the gate is due and then moves it on by the spacing. |
| RateGate.RateGate.Cooldown | emitter/rate_gate.go:59-71 | Never moves the gate back. |
| RateGate.RateGate.Wait | emitter/rate_gate.go:36-57 | The waiting loop, with others at work between its passes, ends in a turn or a cancellation. |
| RateGate.WaitReturnsWithATurn | emitter/rate_gate.go:36-57 | A Wait that returns nil took the last turn granted. |
| RateGate.WaitEndsExactlyWhen | emitter/rate_gate.go:36-57 | A wait sleeps through every look that finds no turn while its context lives; the first that finds one takes it, a context ending during a sleep gives the wait up, and the gate then sees no more of it. |
| OrderIds.Codec.AsHex | orderid/orderid.go:34-44 | The buffer holds three big-endian words and their checksum. |
| OrderIds.Codec.FromHexAcceptsEncodingsOnly | orderid/orderid.go:51-67 | Parsing bytes yields an id if and only if they are that id's encoding. |
| OrderIds.Codec.FromHexStringAcceptsPrintedOnly | orderid/orderid.go:70-78 | Parsing text yields an id if and only if, prefix, spaces and letter case aside, it is that id's printed form. |
| OrderIds.Codec.RoundTrip | orderid/orderid.go:24-78 | Every id is parsed back from its printed form. |
| OrderIds.Codec.HexInjective | orderid/orderid.go:24-26 | Different ids print differently. |
| PrintedOrder.PrintedOrderIsNumberOrder | orderid/orderid.go:24-44 | Printed ids compare as text exactly as their bot, deal and event numbers compare in that order: three fixed-width words, most significant byte first, before the checksum. |
| PrintedOrder.AcceptedExactlyWhenChecked | orderid/orderid.go:51-67 | Sixteen bytes are accepted exactly when their last word is the checksum of the twelve before, and then name the three numbers those bytes spell. |
| PrintedOrder.ListedByWhatTheyPrint | engine/engine.go:778-828 | Comparing the numbers in an id is comparing what it prints. |
| PrintedOrder.InOrderMeans | engine/engine.go:778-855 | Targets are listed by venue, then wallet, then printed id, as texts. |
| Targeting.NormalizeSubmissionIdentifiers | engine/engine.go:857-913 | The loops over lookup tables and a seen set compute the normal form of the stored submissions. |
| Targeting.NormalizeHasNoDuplicates | engine/engine.go:857-913 | The result has one submission per venue and wallet, each in normal form and standing for a stored one, and misses none that has a normal form. |
| Targeting.NormalizeIdempotent | engine/engine.go:857-913 | Normalising twice is normalising once. |
| Targeting.NormalFormIs | engine/engine.go:857-913 | With unique venues and wallets on record a stored submission stands for its venue's assigned place, or else for a place with its wallet, letter case aside, and for nothing exactly when neither is assigned. |
| Targeting.OnePerPlace | engine/engine.go:857-913 | No two normalised submissions share venue and wallet, whatever the letter case. |
| Targeting.ResolveOrderTargets | engine/engine.go:778-828 | Creates go to places without a submission, modifies and cancels to places with one, each place once, in order of venue, wallet and id. |
| Targeting.MissingAssignmentTargets | engine/engine.go:830-855 | Exactly the assigned places without a submission, in order, and once each when venues are unique. |
| Targeting.CreateTargetsAreTheMissing | engine/engine.go:778-855 | With assignments the targets of a create are the missing places. |
| Targeting.FallbackIsUsedExactlyWhen | engine/engine.go:778-828 | A create goes to the fallback place if and only if there is no assignment and no submission, and to the missing places otherwise. |
| Targeting.HeldVenueIsNeverMissing | engine/engine.go:830-913 | With unique venues and non-empty wallets a venue that holds a submission under any wallet is never missing. |
| Mirroring.FindPreviousDistinct | engine/engine.go:586-598 | The backward loop finds the previous distinct snapshot. |
| Mirroring.LastDistinctIs | engine/engine.go:586-607 | That is a snapshot that differs, followed only by repetitions of the latest; there is none exactly when all repeat it. |
| Mirroring.ReduceOrderEvents | engine/engine.go:507-581 | The history is reduced to the next action, with the fallbacks for orders never created. |
| Mirroring.UnplacedOrdersAreOnlyCreated | engine/engine.go:336-581 | All that a run ever emits for an order without submissions is creates, and unless it is a take-profit only while it is active, so neither fallback is ever taken. |
| Mirroring.EmittedTakeProfitsFit | engine/engine.go:336-717 | With at most one active take-profit in the deal, whatever a run emits for a take-profit history, replay included, is a cancellation or a reduce-only request of exactly the tracked position's size, and only while that position is not flat. |
| Mirroring.TakeProfitIsPlacedExactlyWhen | engine/engine.go:616-717 | A take-profit not placed yet is placed at every assigned venue if and only if the deal has a position and no take-profit that already rests for it. |
| Mirroring.SeveralTakeProfitsLeaveItsSize | engine/engine.go:616-717 | With several active take-profits in the deal one not placed yet is placed as its snapshot has it. |
| Mirroring.TakeProfitIsModifiedExactlyWhen | engine/engine.go:616-717 | A placed one whose snapshot noticeably changed is modified wherever it is placed under the same condition. |
| Mirroring.EmissionsAskForTheLatest | adapter/adapter.go:20-50 | Whatever a run emits, replays included, asks for the latest snapshot: its side, price, coin, identifier and time in force, and, unless it is a take-profit, its size and reduce-only flag. |
| Adapter.RequestAsksFor | adapter/adapter.go:20-50 | There is exactly one order that asks for a snapshot, and it is the one built. |
| Adapter.TransitionsAre | adapter/adapter.go:97-142 | Which request each change of status leads to. |
| Adapter.LeftUnsentExactlyWhen | adapter/adapter.go:79-160 | A change is left unsent if and only if side, kind and type agree and price and size are within 1e-8 or a millionth of each other. |
| Mirroring.ProcessOrder | engine/engine.go:336-498 | One run sends each identifier exactly the actions planned for it, the ordinary one before the replayed creates, one for each time the place is assigned. |
| Mirroring.TargetsAreRight | engine/engine.go:349-497 | Every create, replay included, goes to identifiers without a normalised submission, every modify and cancel to identifiers with one. |
| MirroringRuns.PreviousIs | engine/engine.go:586-598 | In a history of active snapshots followed by one terminal one, the previous distinct snapshot is active, and noticeably different while the order is active. |
| MirroringRuns.RunHolds | engine/engine.go:336-498 | What one identifier holds after a run, from what it held before. |
| MirroringRuns.StepSyncs | engine/engine.go:336-498 | One run keeps the venues in step with the latest snapshot seen. |
| MirroringRuns.RunsKeepSynced | engine/engine.go:336-607 | The same over every schedule of runs over growing prefixes and growing assignments. |
| MirroringRuns.MirrorsLatest | engine/engine.go:336-607 | After every run that ends active exactly the assigned venues hold exactly the latest snapshot's order; after one that ends cancelled every order ever created is withdrawn and none is created; after one that ends filled nothing has changed. |
| MirroringRuns.RestingOrdersAskForTheLatest | engine/engine.go:336-607 | After every run that ends active each assigned venue's resting order buys exactly when the latest snapshot does, at its price, size, coin and id, reduce-only exactly for a take-profit sell and good till cancelled exactly for a limit. |
| MirroringRuns.RestingOrdersAskForASnapshot | engine/engine.go:336-607 | Over any schedule and any history whatsoever every resting order asks for some snapshot seen so far. |
| MirroringRuns.ResyncsExactlyWhen | adapter/adapter.go:97-162 | A venue holding an older snapshot's order is brought up to date if and only if that order is already right or the previous distinct snapshot is active and noticeably different. |
| MirroringRuns.SmallChangesDrift | adapter/adapter.go:83-94 | Changes within tolerance add up to a difference beyond it that is never sent. |
| MirroringRuns.ReactivationIsIgnored | adapter/adapter.go:127-128 | An order active again after its end changes nothing where it was placed. |
| TrackerOrders.ConvergesToNewest | filltracker/service.go:1030-1077 | Full statuses with distinct positive times, in any order of arrival, leave status, limit price, original, remaining and observed time of the newest, its filled quantity when it gives a size, and its coin and side when it sends them. |
| TrackerOrders.ArrivalOrderDoesNotMatter | filltracker/service.go:1030-1077 | Any two permutations of the statuses agree on everything the newest of them sends. |
| TrackerOrders.TextConvergesExactlyWhen | filltracker/service.go:1043-1048 | The coin of a fresh order, and likewise the side, is independent of arrival if and only if the newest status sends one or no status does. |
| TrackerOrders.FilledConvergesExactlyWhen | filltracker/service.go:1065-1076 | The filled quantity of a fresh order is independent of arrival if and only if the newest status gives a positive size or no status shows a fill. |
| TrackerOrders.StaleFillDependsOnArrival | filltracker/service.go:1065-1076 | Otherwise two orders of arrival give different filled quantities. |
| TrackerOrders.WellFormedStatusKeepsBounds | filltracker/service.go:1030-1077 | Well-formed statuses keep 0 <= filled, 0 <= remaining, filled + remaining <= original. |
| TrackerOrders.StatusKeepsBoundsExactlyWhenSensible | filltracker/service.go:1030-1077 | The exact condition for any accepted status, cancelling or not, whichever of the two sizes it gives, to keep the bounds. |
| TrackerOrders.InferKeepsBoundsExactlyWhen | filltracker/service.go:1079-1096 | Falling back on the bot event breaks the bounds exactly for an order with an event, fills and nothing left. |
| TrackerDeals.CalculateVenuePositions | filltracker/service.go:344-372 | One representative identifier per venue, carrying the venue's net position. |
| TrackerDeals.TotalIsSum | filltracker/service.go:344-372 | Totals do not depend on the order the orders are visited in. |
| TrackerDeals.VenuesExceedDealBy | filltracker/service.go:344-372 | The venues' positions exceed the deal's by exactly twice the fills whose side text contradicts their bot event. |
| TrackerDeals.Conservation | filltracker/service.go:1179-1207 | With side texts and events in agreement the venues' positions sum exactly to the deal's net quantity, for every enumeration and choice of representatives. |
| TrackerDeals.Survey | filltracker/service.go:1228-1260 | One pass finds active take-profits, open buys, outstanding quantities, whether all buys are filled and the latest take-profit event. |
| TrackerDeals.SurveyShows | filltracker/service.go:1218-1269 | What the pass finds is what the orders of the deal show, whatever order they come in. |
| TrackerDeals.CancelledBuyCountsAsFilled | filltracker/service.go:1122-1130 | After a cancellation, local or by a venue status, an order is inactive with nothing remaining, and the deal's buys are all filled if and only if the others are and the order, if a buy, has a size. |
| TrackerModel.RunKeepsRecorded | filltracker/service.go:1010-1028 | In every reachable state a reduce-only order has its bot event on record and every order's deal is tracked. |
| TrackerModel.RunKeepsBounds | filltracker/service.go:109-226 | Over every run with well-formed statuses and reloads of untracked orders only, 0 <= filled, 0 <= remaining and filled + remaining <= original. |
| TrackerModel.ReloadForgetsTheFill | filltracker/service.go:811-834 | Reachable: a filled order reloaded from its bot event alone has its whole size both filled and remaining. |
| TrackerModel.GateWaitsForEveryReduceOnly | filltracker/service.go:152-188 | The hydration gate stays closed while one tracked reduce-only order has had no status of its own, whatever else happens, cleanups that keep the order included. |
| TrackerModel.GateOpensOnceCovered | filltracker/service.go:152-188 | Statuses for all waiting reduce-only orders, in any order and among any others, open it. |
| TrackerService.OrderState.ApplyEvent | filltracker/service.go:1010-1028 | In place, as the value-level rule says. |
| TrackerService.OrderState.ApplyStatus | filltracker/service.go:1030-1077 | In place, with older statuses ignored. |
| TrackerService.OrderState.InferFromEvent | filltracker/service.go:1079-1096 | In place, as the value-level rule says. |
| TrackerService.OrderState.Reload | filltracker/service.go:811-834 | Event, then status or inference, then the scaled size. |
| TrackerService.DealState.Recompute | filltracker/service.go:1179-1216 | The cached position becomes the from-scratch sums over the deal's orders; the currency is some order's coin. |
| TrackerService.DealState.Snapshot | filltracker/service.go:1218-1269 | A consistent copy of the deal. |
| TrackerService.Service.PositionsAreCurrent | filltracker/service.go:1179-1216 | In every valid state every deal's cached position equals the from-scratch position of the orders filed under it. |
| TrackerService.Service.UpdateStatus | filltracker/service.go:109-144 | Keeps both indexes on the same identifiers and objects and every cache current, leaves exactly the model's next state, and returns the deal's snapshot; the reconciliation that follows is TakeProfits.UpdateStatus. |
| TrackerService.Service.MarkOrderHydrated | filltracker/service.go:152-188 | The order is hydrated if it needs to be, and the gate opens exactly when all that need it are. |
| TrackerService.Service.ApplyScaledOrder | filltracker/service.go:191-226 | Same for a scaled size and price. |
| TrackerService.Service.MarkOrderCancelled | filltracker/service.go:468-488 | Same for a cancellation; an unknown order changes nothing. |
| TrackerService.Service.ReloadOrder | filltracker/service.go:791-841 | Same for one stored submission. |
| TrackerService.Service.EnsureOrder | filltracker/service.go:851-864 | The tracked object, or a fresh one. |
| TrackerService.Service.CleanupStaleDeals | filltracker/service.go:898-938 | Exactly the deals without recent updates and without active orders leave both indexes, with their orders. |
| TrackerService.Service.CloseOpenOrdersForDeal | filltracker/service.go:940-964 | Exactly the deal's active buys are cancelled and its position brought up to date. |
| TrackerEffects.ClosingCancelsExactlyTheOpenBuys | filltracker/service.go:940-964 | Closing a deal leaves each of its active buys inactive with nothing remaining and its fill as it was, and every other order, take-profits and other deals included, untouched. |
| TrackerEffects.ClosedDealShowsNoOpenBuys | filltracker/service.go:940-964 | Its snapshot then lists no open buys and no outstanding buy quantity, and the position and the active take-profits it listed before. |
| TrackerEffects.CancellingKeepsTheFill | filltracker/service.go:468-488 | A local cancellation touches one order, and of it only what is left to fill. |
| TrackerEffects.CleanupForgetsExactlyTheStale | filltracker/service.go:898-938 | A deal is forgotten if and only if it has had no update for that long and nothing of it can still fill; its orders go with it and the rest is untouched. |
| TrackerEffects.ActiveOrdersAreKept | filltracker/service.go:898-938 | No order that could still fill is ever forgotten. |
| TrackerEffects.ScalingAddsUp | filltracker/service.go:191-226 | After scaling, filled and remaining add up to the scaled size, and price and limit are set as asked; nothing else changes. |
| TrackerEffects.EndedOrdersStayInactive | filltracker/service.go:1105-1113 | A cancelled or filled order stays inactive through scaling. |
| TrackerEffects.EventDescribesTheOrder | filltracker/service.go:1010-1028 | A new order takes what its status does not say from its bot event: coin, side, size, price and whether it is a take-profit. |
| TrackerEffects.BuyIsDoneExactlyWhen | filltracker/service.go:1105-1130 | The exact condition for a deal's buys to hold no take-profit back. |
| TrackerEffects.FillsMoveQuantity | filltracker/service.go:1228-1260 | A fill moves quantity from what is outstanding to the position and creates none. |
| TrackerEffects.ReloadShowsTheStatus | filltracker/service.go:811-834 | A reloaded order shows its stored status, at the size it was last scaled to. |
| TrackerEffects.RunKeepsSides | filltracker/service.go:109-150 | Over every run whose statuses send an order's own side, side texts and bot events agree. |
| TrackerEffects.RunConserves | filltracker/service.go:1179-1207 | In every state such a run with sensible sizes reaches, splitting a deal's position by venue loses nothing. |
| TrackerEffects.AverageEntryIsBetween | filltracker/service.go:1179-1207 | The average entry lies between the lowest and highest price the deal's buys filled at. |
| TrackerService.Service.SnapshotOfDeal | filltracker/service.go:229-238 | The snapshot of a deal shows the orders filed under it. |
| Reconcile.ReconcileSnapshot | filltracker/service.go:258-303 | The two loops request at each venue exactly what is planned for it, in whatever order venues are visited. |
| Reconcile.ReconcilesVenue | filltracker/service.go:258-332 | At most one request per venue; a flat venue only has its take-profit cancelled; any other is only sent a reduce-only request for exactly its net position; cancel-and-recreate never happens. |
| Reconcile.WorksAreAddressed | filltracker/service.go:305-332 | Every request for a venue is addressed to that venue and wallet. |
| Reconcile.NoStrayTakeProfits | filltracker/service.go:298-302 | Every active take-profit's venue is among the computed positions, so the trailing loop cancels nothing. |
| Reconcile.OnlyTheLastIsTouched | filltracker/service.go:271-275 | Of several active take-profits on one venue only the last is ever touched. |
| Reconcile.NeedyVenueIsServed | filltracker/service.go:294-295 | A venue with a position and no take-profit is sent one whenever take-profit metadata exists. |
| Reconcile.NextPassIsQuiet | filltracker/service.go:258-538 | Fixed point: after every venue has done as asked without its fills changing, the next pass asks for nothing. |
| Acknowledged.StatusPerformsExactlyWhen | filltracker/service.go:109-150 | Ingesting an accepted status that shows a requested order resting performs the request, as far as the fixed point is concerned, if and only if the fill it implies is the fill on record. |
| Acknowledged.WholeOrderPerformsExactlyWhenUnfilled | filltracker/service.go:109-150 | For a create or modify reported with the requested size as the whole order: if and only if the order had no fill on record. |
| Acknowledged.RepliesPerform | filltracker/service.go:109-150 | Every request of a pass is performed by its own reply, whichever replies come before and after. |
| Acknowledged.AcknowledgedPassIsQuiet | filltracker/service.go:109-332 | Fixed point on statuses: once the statuses acknowledging a pass's requests on unfilled orders are ingested and its cancellations recorded, the next pass asks for nothing. |
| Acknowledged.DecidedByNet | filltracker/service.go:305-332 | A venue with one tracked take-profit is left alone if and only if it has a position and the take-profit's remaining size is close to it or known to be asked for. |
| Acknowledged.QuietAfterALostFillExactlyWhen | filltracker/service.go:305-332 | A resized take-profit reported without its earlier fill: the next pass leaves the venue alone if and only if the position less that fill is not flat and is close to the size just requested or known to be asked for. |
| Acknowledged.HeldBackExactlyWhen | filltracker/service.go:587-655 | A request is held back as already made if and only if the store shows the order live and last asked for, reduce-only, at that size. |
| Acknowledged.RequestsAskForTheirEvent | filltracker/service.go:402-538 | Every order requested is reduce-only and asks for its bot event: its side, its price, the deal's coin and the take-profit's identifier; a cancel names the deal's coin and the take-profit it withdraws. |
| Acknowledged.FilledTakeProfitFlattens | filltracker/service.go:402-538 | A request made from a sell event is a sell at the event's price, and once it is filled in full the venue's net position is zero. |
| TakeProfits.ReconcileDeal | filltracker/service.go:258-303 | On a live tracker: the requests are those planned for a snapshot of the deal, and afterwards exactly the cancellations that went through are recorded, both indexes still in agreement. |
| TakeProfits.RequestsExactlyWhenPlanned | filltracker/service.go:258-303 | Something is requested if and only if something is planned at some venue. |
| TakeProfits.ReconcileTakeProfits | filltracker/service.go:241-256 | The loop over all tracked deals: nothing is requested and nothing changes while hydration is awaited; otherwise every deal's requests are those planned for a snapshot of it, its cancellations are recorded, and no pass over one deal disturbs another. |
| TakeProfits.RecordsWhatWentThrough | filltracker/service.go:374-400 | Exactly the tracked orders whose cancellation went through are recorded as cancelled, their fills kept; every other order is untouched. |
| TakeProfits.UpdateStatus | filltracker/service.go:109-150 | The whole of UpdateStatus: after the status is recorded the deal is reconciled if requests can be sent at all, whether or not hydration is awaited. |
| TakeProfits.UngatedRequests | filltracker/service.go:145-147 | Reachable: hydration is awaited before and after a status whose reconciliation sends a request, whatever snapshot it takes. |
| Reconcile.QuietEverywhere | filltracker/service.go:258-303 | Nothing requested at any venue means nothing requested. |

## Left out
- LimiterSafety.ExtendAgainSafeExactlyWithinSpare: giving up the wait on a cancelled context, which changes nothing, is not modelled.
- LimiterSafety.NoWindowOverrun: runs do not contain `Extend`, for which the bound does not hold, nor the race between a grant and a cancelled context in `Reserve`, where a granted reservation can be left behind.
- LimiterImplementation.Limiter.Consume: the model stores a reservation as a value in the map, not behind a pointer; only an `Extend` that waits keeps the pointer, which `ExtendAgain` takes as its orphan.
- LogHandler.NoAcceptedEntryLost: says nothing of a close that times out, or of one that lost the race and returns early; misuse of a wait group that would panic is not modelled.
- PriceRounding.RoundToSignificantFigures: exact arithmetic; NaN, infinities, IEEE rounding of intermediate results and overflow of the digit count are not modelled.
- StackRounding.SearchIsOptimal: exact arithmetic; ties that differ only by floating-point error are not modelled.
- OrderScaler.Scale: store errors and audit records are left out, and a failed stack lookup counts as no stack.
- IocRetry.Emit: what the venue already holds, whether it matches, whether a queried order confirms a modification and which kind of error an answer is are inputs; a store write that fails is only logged, so a record stands for the attempt to write it.
- IocRetry.RetriesOnlyGetMoreAggressive: constraints resolve the same way for all attempts of one call.
- OrderIds.Codec.FromHexStringAcceptsPrintedOnly: letter case is folded for ASCII letters only, here and for wallets and statuses.
- Mirroring.ProcessOrder: no scaler is configured, so requests go out unscaled; database errors, which skip the order, are left out.
- MirroringRuns.MirrorsLatest: the venue accepts what it is asked and the store lists what was submitted; take-profits, which follow the position instead, are covered by `EmittedTakeProfitsFit` and `Reconcile`.
- TrackerOrders.ConvergesToNewest: a price or size that does not parse counts as absent, as in the code; times are whole milliseconds.
- TrackerService.OrderState.ApplyStatus: the fields of an order are kept together as one value in the object; the object itself is updated in place and shared by both indexes.
- TrackerService.DealState.Snapshot: orders are listed first and surveyed in the order listed, in one pass in the program.
- TrackerService.Service.UpdateStatus: the lock and a failed load of the bot event are not part of the method.
- TrackerService.Service.ReloadOrder: the loops of `reloadDeal` and `Rebuild` over stored identifiers are left out; each call is one round of them.
- TrackerService.Service.MarkOrderHydrated: atomics and the log line are left out.
- Reconcile.ReconcileSnapshot: the store answers the same throughout one pass.
- TakeProfits.ReconcileTakeProfits: cancellations are recorded after a deal's pass instead of within it, which the pass cannot see since its snapshot is a copy; the store answers per deal.
- Reconcile.NextPassIsQuiet: a store that calls a take-profit live that the tracker does not track as active is outside the hypothesis.
- Two take-profit events count as the same when they are equal; the SDK's fingerprint is not part of this model.
- Each identifier is emitted at most once per run: not claimed, since an ordinary create and a replay can target the same venue.
- Pagination, SQL, HTTP, streaming, authentication, the work queue, configuration and the web UI.
- Vault, stream fan-out and plan tiers are not modelled.
