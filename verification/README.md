# Verified model of the benchmarking platform's core logic

The platform runs contestants' exchanges under synthetic load and scores them.
This project models the parts of it that decide something, and proves what
they promise.

- **Reference matching engine** (`libs/rme`). `OrderBook.dfy`, `Matching.dfy`
  and `Engine.dfy` hold the mutable book: two maps from price key to FIFO queue
  (bids under the inverted key), a cancel index, and the matching loops, with
  separate code for the two sides. `ReferenceEngine.dfy` says what the engine
  should do on two flat priority lists; `PriceLevels.dfy` proves that the
  levels, read in key order, are such a list and that every update commutes
  with this reading. The mutable engine is proved to compute the
  specification for every event sequence, with no assumption on ids. The
  theorems about single events and whole runs (`Execution`, `Safety`, `RunLaws`,
  `Conservation`, `IndexAgreement`, `CancelFills`, `Duality`, `TimePriority`)
  are about the specification and so about the engine.
- **Bot scheduler** (`RoundRobin.dfy`, `Apportionment.dfy`, `Scheduler.dfy`).
- **Upload rate limiter** (`RateLimit.dfy`): the lazily pruned, expiring set
  against the full log of accepted uploads.
- **Benchmark-run lifecycle** (`BenchmarkRuns.dfy`): atomic transactions in any
  interleaving.
- **WebSocket hub** (`Hub.dfy`): the event loop, its bounded queues and closed
  channels, in any interleaving.
- **FIX 4.2 messages** (`Fix.dfy`, `FixFields.dfy`, `FixDamage.dfy`): builder
  and checksum verifier over bytes, the messages read back tag by tag, and what
  the checksum finds of a changed byte.

Where the code and its own comments or tests disagree, the code is modelled:

- `match_order` says sequence numbers decide time priority
  (`libs/rme/src/matching.rs:12-13`). They are never read; arrival order decides
  (`Duality.SequenceNumbersAreIgnored`, `TimePriority.PriceThenTime`).
- The cancel index agrees with the queues as long as no limit order comes to
  rest under an id that still rests, and exactly then
  (`IndexAgreement.StepAgrees`, `IndexAgreement.ReusedIdDisagrees`).
- Terminal failure states are said to be accepted from every unfinished state
  (`services/control-plane-api/internal/benchmark/service.go:247-248`). Only
  FAILED is (`BenchmarkRuns.AcceptedFromEverywhere`), and
  PROVISIONING_TIMEOUT is never entered (`BenchmarkRuns.ReachableStatuses`).
- The limit of three concurrent runs is checked outside the inserting
  transaction. It holds exactly as long as no two calls overlap
  (`BenchmarkRuns.LimitHoldsUnlessCallsOverlap`); with k calls overlapping the
  exact bound is k + 2 (`BenchmarkRuns.ConcurrentRunLimit`,
  `BenchmarkRuns.LimitIsExceeded`).
- A caller that waits exactly Retry-After seconds is still refused when the
  remaining time was a whole number of seconds (`RateLimit.WaitingAsAdvised`,
  `RateLimit.EvenWaitIsRefused`).
- A single changed byte in a FIX message can go unnoticed, because the checksum
  is scanned leniently and its tag is searched from the end. Every change is
  found exactly when the checksum has no leading zero and no tag 10 inside the
  fields happens to fit, as they stand or with their last delimiter changed
  (`FixDamage.AnyChangeFound`). Without a delimiter inside a field only the
  checksum matters (`FixDamage.PlainMessageChangeFound`). Both failures happen
  to the generator's own messages (`FixDamage.SmallChecksumMessage`,
  `FixDamage.StrayMarkerHidesDamage`).
- A ClOrdID is called globally unique
  (`services/bot-fleet-manager/internal/bot/fix/generator.go:55`). It is among
  runs whose ids are equally long, as UUIDs are, and not for ids of different
  lengths (`Fix.ClOrdIdsCollide`, `Fix.ClOrdIdsDoCollide`).
- A client registered again after it has left brings the hub down
  (`HubModel.RejoiningPanics`, `HubModel.RejoiningHappens`).
- With negative weights, which nothing forbids, the scenario interleaver panics
  exactly when an apportioned count is negative (`Scheduler.Interleave`,
  `Scheduler.NegativeCounts`, `Scheduler.NegativeWeightPanics`).

## Model

| member | source | states |
|---|---|---|
| PriorityList.RestSplits | libs/rme/src/order_book.rs:30-34 | A new resting order stands behind everything at least as good and ahead of everything worse; the side stays in priority order. |
| PriorityList.RemoveSplits | libs/rme/src/order_book.rs:38-49 | Removal takes out exactly the first order with that id at that price, or nothing when there is none. |
| PriorityList.SweepInStages | libs/rme/src/matching.rs:53-80 | Sweeping level after level is one sweep to the order's own limit. |
| PriceLevels.FlattenOrdered | libs/rme/src/order_book.rs:80-89 | Levels read in key order form one list in price-time order, bids included, and its head is the first order of the first level. |
| PriceLevels.FlattenEnqueue | libs/rme/src/order_book.rs:97-113 | Appending to a level's queue is insertion into the list, also when the level is new. |
| PriceLevels.FlattenPopFront | libs/rme/src/order_book.rs:68-76 | Popping the best level's front, and dropping a level that empties, is taking the head off the list. |
| PriceLevels.FlattenUpdateFront | libs/rme/src/matching.rs:223-228 | A partial fill in place changes only the head of the list. |
| PriceLevels.FlattenWithout | libs/rme/src/order_book.rs:38-49 | Removing an order from its level is removing it from the list, and it is found in one iff in the other. |
| PriceLevels.DepthOfLevel | libs/rme/src/order_book.rs:151-168 | The sum over one level is the quantity resting at that price in the whole list. |
| OrderBooks.BookSide.Insert | libs/rme/src/order_book.rs:32-34 | Inserts into the list and keeps every queue non-empty and under its own key. |
| OrderBooks.BookSide.Remove | libs/rme/src/order_book.rs:38-49 | Removes the first order with the id and price; true iff it was there. |
| OrderBooks.BookSide.Best | libs/rme/src/order_book.rs:52-57 | The head of the list with its key; nothing iff the side is empty. |
| OrderBooks.BookSide.PopBest | libs/rme/src/order_book.rs:68-76 | Takes and returns the head of the list. |
| OrderBooks.OrderBook.AddLimit | libs/rme/src/order_book.rs:97-113 | The book and index after resting an order, as the specification has them. |
| OrderBooks.OrderBook.Cancel | libs/rme/src/order_book.rs:116-129 | The book and index after a cancel; true iff the indexed order was found. |
| OrderBooks.OrderBook.BestBid | libs/rme/src/order_book.rs:133-139 | The highest resting bid, un-inverted. |
| OrderBooks.OrderBook.BestAsk | libs/rme/src/order_book.rs:142-149 | The lowest resting ask. |
| OrderBooks.OrderBook.BidQtyAt | libs/rme/src/order_book.rs:152-159 | Total bid quantity at a price over the whole list. |
| OrderBooks.OrderBook.AskQtyAt | libs/rme/src/order_book.rs:162-168 | Total ask quantity at a price over the whole list. |
| OrderBooks.OrderBook.IsEmpty | libs/rme/src/order_book.rs:171-173 | True iff no order rests on either side. |
| Matching.FillAgainstAsk | libs/rme/src/matching.rs:175-231 | One level's loop is the sweep to that price, fill by fill; it ends with nothing left or the level deleted, so progress is made and no lookup fails. |
| Matching.FillAgainstBid | libs/rme/src/matching.rs:235-285 | The same for bids under inverted keys. |
| Matching.CrossAsks | libs/rme/src/matching.rs:54-66 | The outer loop terminates and is one sweep of the asks (with no limit: lines 113-124). |
| Matching.CrossBids | libs/rme/src/matching.rs:68-80 | The outer loop terminates and is one sweep of the bids (with no limit: lines 125-136). |
| Matching.ProcessLimit | libs/rme/src/matching.rs:42-96 | Fills, rejections and new book of a limit order equal the specification's. |
| Matching.ProcessMarket | libs/rme/src/matching.rs:102-149 | The same for a market order. |
| Matching.ProcessCancel | libs/rme/src/matching.rs:155-167 | The same for a cancel. |
| Matching.MatchOrder | libs/rme/src/matching.rs:14-36 | Every event is processed as the specification says, for every valid book. |
| Engine.BuildSnapshot | libs/rme/src/lib.rs:133-146 | The snapshot has exactly the occupied prices, each with its resting quantity. |
| Engine.RunMatchingEngine | libs/rme/src/lib.rs:161-178 | Fills, rejections and final book of a whole run equal the specification's; what the first n events report stands in front, and every fill was reported by one event whose order is its aggressor. Every bid price is below every ask price and every level quantity is positive. |
| ReferenceEngine.RunAppends | libs/rme/src/lib.rs:161-178 | Running on from a state is running the concatenated events. |
| RunLaws.NextReport | libs/rme/src/lib.rs:161-178 | Each event's fills and rejections are put behind those of the events before it. |
| RunLaws.ReportsGrow | libs/rme/src/lib.rs:161-178 | What has been reported is never touched again. |
| RunLaws.EveryFillHasItsEvent | libs/rme/src/matching.rs:201-214 | Every fill of a run was reported by one event, with its id and side as aggressor, within its limit, against an order then resting on the other side. |
| RunLaws.EveryRejectionHasItsEvent | libs/rme/src/matching.rs:138-167 | Every rejection carries the id of the market order or cancel that caused it, and the matching reason. |
| RunLaws.RestingWereSubmitted | libs/rme/src/matching.rs:82-93 | Every resting order was submitted as a limit order with this id, side, price and sequence number, and has at most the submitted quantity left. |
| Execution.SweepTakesPrefix | libs/rme/src/matching.rs:184-230 | An incoming order uses up a prefix of the list, takes part of at most one more order, and leaves the rest alone. |
| Execution.SweepConserves | libs/rme/src/matching.rs:194-228 | Filled plus remaining is the order's quantity, and the side loses exactly what was filled. |
| Execution.SweepIsMaximal | libs/rme/src/matching.rs:53-80 | Filled is the minimum of the quantity wanted and the quantity at acceptable prices anywhere on the side. |
| Execution.SweepFillsFollow | libs/rme/src/matching.rs:201-214 | Fill i carries the incoming id and side, the i-th resting id and price, and a positive quantity: all of that order but for the last fill. Prices keep within the limit and never improve. |
| Execution.SweepLeaves | libs/rme/src/matching.rs:216-229 | Orders filled in full are gone from list and index, the one filled in part has that much less, and the others are untouched. |
| Safety.StepIsSafe | libs/rme/src/matching.rs:14-36 | Each event keeps priority order, positive quantities, an uncrossed book and an index whose entries lead to orders. |
| Safety.RunIsSafe | libs/rme/src/lib.rs:161-178 | The same after every run, with no assumption on ids. |
| Safety.NeverCrossed | libs/rme/src/matching.rs:53-93 | After any number of events every bid is below every ask. |
| Safety.LimitOrderExecution | libs/rme/src/matching.rs:42-96 | Everything a limit order does: it trades min(quantity, acceptable quantity), and rests the remainder at its own price under its own id and sequence number, behind everything at least as good and ahead of everything worse; the rest of book and index stays. |
| Safety.MarketOrderExecution | libs/rme/src/matching.rs:102-149 | Everything a market order does: NoLiquidity under its id iff it exceeds the whole opposite side, which is then empty; its own side stays. |
| Safety.CancelOrderExecution | libs/rme/src/matching.rs:155-167 | Everything a cancel does: UnknownOrderId under its id iff the id is not indexed, and else the indexed order alone is taken out. |
| Conservation.StepConserves | libs/rme/src/matching.rs:197-229 | No event creates or loses quantity. |
| Conservation.WholeRunConserves | libs/rme/src/lib.rs:161-178 | Submitted quantity is twice the filled plus resting, cancelled and unfilled market quantity. |
| IndexAgreement.StepAgrees | libs/rme/src/order_book.rs:97-129 | One event keeps index and queues in agreement iff it does not rest an order under an id still resting; the condition reads the book before the event. |
| IndexAgreement.RunAgrees | libs/rme/src/order_book.rs:86-88 | Agreement holds all through a run iff no event of it clashes. |
| IndexAgreement.UniqueIdsAgree | libs/rme/src/lib.rs:30-32 | With globally unique ids the agreement always holds. |
| IndexAgreement.ReusedIdDisagrees | libs/rme/src/order_book.rs:97-113 | The same order sent twice: one of the two can no longer be cancelled. |
| IndexAgreement.CancelsIfIndexed | libs/rme/src/order_book.rs:116-129 | A cancel succeeds iff the id is indexed, unique ids or not. |
| IndexAgreement.CancelIsExact | libs/rme/src/order_book.rs:116-129 | In agreement, a cancel succeeds iff the id rests, and takes out that order only. |
| CancelFills.FilledIdsDistinct | libs/rme/src/lib.rs:365-380 | The collected ids are exactly those in the fills, each once. |
| CancelFills.CancellingMany | libs/rme/src/lib.rs:345-356 | Cancelling distinct ids removes exactly the resting ones among them, in order, and rejects exactly the others. |
| CancelFills.CancellingTheFilled | libs/rme/src/lib.rs:341-417 | Appended cancels for all filled ids: same fills, one UnknownOrderId per id not resting, all other orders kept in order. |
| CancelFills.NoFilledIdRests | libs/rme/src/lib.rs:345-356 | Afterwards no id that appears in the fills rests. |
| CancelFills.CancelsNeverGrow | libs/rme/src/lib.rs:386-416 | For any ids at all, appended cancels add no fills, never increase resting quantity and leave only positive quantities. |
| Duality.MirroredRun | libs/rme/src/matching.rs:175-285 | Mirroring sides and prices of the input mirrors fills and book and leaves ids, quantities and rejections alone. |
| Duality.SequenceNumbersAreIgnored | libs/rme/src/matching.rs:12-13 | Inputs that differ only in sequence numbers trade and reject alike and leave the same book: the same orders in the same places and the same index. |
| TimePriority.PriceThenTime | libs/rme/src/order_book.rs:1-6 | On each side the order ahead has the better price, or the same price and an earlier place in the input. |
| RoundRobin.FairSpread | services/bot-fleet-manager/internal/scheduler/scheduler.go:111-130 | At every point no capacity is exceeded, and two places differ by more than one only if the smaller is full. |
| RoundRobin.FairIsGreedy | services/bot-fleet-manager/internal/scheduler/scheduler.go:111-130 | Every item goes to the first of those places with room that have been dealt the least. |
| RoundRobin.FairIsUnique | services/bot-fleet-manager/internal/scheduler/scheduler.go:111-130 | Capacities and number of items determine the whole sequence. |
| Scheduler.Probe | services/bot-fleet-manager/internal/scheduler/scheduler.go:117-126 | Probing stops at the first node with room, less than one round on; the error branch is unreachable. |
| Scheduler.EligibleHaveRoom | services/bot-fleet-manager/internal/scheduler/scheduler.go:69-78 | Exactly the nodes below their capacity (500 by default) are eligible, each as often as it is listed. |
| Scheduler.EligibleInOrder | services/bot-fleet-manager/internal/scheduler/scheduler.go:69-78 | Eligible nodes stay in the order in which they are listed. |
| Scheduler.EligibleRoom | services/bot-fleet-manager/internal/scheduler/scheduler.go:83-94 | The capacity that is checked is all the room there is. |
| Scheduler.PlaceBots | services/bot-fleet-manager/internal/scheduler/scheduler.go:111-130 | Exactly fleetSize bots are placed and after each one node j holds min(capacity, r + (1 if j < k)) for some round r and turn k. |
| Apportionment.SortByKey | services/bot-fleet-manager/internal/scheduler/scheduler.go:197-199 | A sorted permutation, nothing more. |
| Apportionment.BumpedArePositive | services/bot-fleet-manager/internal/scheduler/scheduler.go:187-202 | Leftover slots go to positive remainders only, and there are strictly fewer slots than such remainders; without any there is no slot. |
| Apportionment.CutIsClosest | services/bot-fleet-manager/internal/scheduler/scheduler.go:146-148 | Rounding up at a cut-off of the remainders minimises total absolute deviation among all integer vectors of that sum. |
| Apportionment.LargestRemainder | services/bot-fleet-manager/internal/scheduler/scheduler.go:177-202 | Counts sum to the fleet size, are floor or ceiling of the shares, no other integer vector is closer, and the leftover slots are fewer than the positive remainders. Any real shares with that sum, negative ones included. |
| Scheduler.SharesAddUp | services/bot-fleet-manager/internal/scheduler/scheduler.go:155-175 | Whatever the weights, the shares add up to the fleet size; non-negative weights give non-negative shares. |
| Scheduler.SharesAre | services/bot-fleet-manager/internal/scheduler/scheduler.go:149-175 | Each scenario's share is that of its own weight, or a fifth when the weights add up to zero. |
| Scheduler.Interleave | services/bot-fleet-manager/internal/scheduler/scheduler.go:213-231 | The round loop terminates; it writes out of range iff some count is negative, and otherwise fills the slice with every prefix fair. |
| Scheduler.InterleavingIsPlacement | services/bot-fleet-manager/internal/scheduler/scheduler.go:213-231 | The interleaver gives the sequence the node placement would give for those counts. |
| Scheduler.ScenarioTotals | services/bot-fleet-manager/internal/scheduler/scheduler.go:213-231 | The result holds exactly counts[j] copies of scenario j. |
| Scheduler.ScenarioNumbers | services/bot-fleet-manager/internal/scheduler/scheduler.go:146-148 | The number of bots with each scenario is within one of its exact share. |
| Scheduler.AssignScenarios | services/bot-fleet-manager/internal/scheduler/scheduler.go:149-232 | Optimally apportioned counts for any weights, fairly interleaved; a panic iff one of the counts is negative. |
| Scheduler.NegativeCounts | services/bot-fleet-manager/internal/scheduler/scheduler.go:169-202 | No count is negative when no weight is; a share of minus one or less makes one negative. |
| Scheduler.NegativeWeightPanics | services/bot-fleet-manager/internal/scheduler/scheduler.go:213-231 | Weights 2, -1, 0, 0, 0 for one bot: whatever the order of equal remainders, a count is negative. |
| Scheduler.Schedule | services/bot-fleet-manager/internal/scheduler/scheduler.go:67-144 | Each error iff its cause, over all nodes with room; a panic iff the fleet size or an apportioned count is negative; otherwise a fair placement on exactly the nodes with room, least loaded first, with fairly interleaved scenarios, each within one of its own weight's share. |
| RateLimit.Limiter.Allow | services/submission-engine/internal/ratelimit/limiter.go:87-149 | One call prunes, counts and records or refuses as the script does; other contestants' keys are untouched. |
| RateLimit.AddScoreSorted | services/submission-engine/internal/ratelimit/limiter.go:45-61 | The set stays sorted whatever score is added. |
| RateLimit.RemoveRangeRemoves | services/submission-engine/internal/ratelimit/limiter.go:45-61 | Pruning removes exactly the scores in its range. |
| RateLimit.ContestantsAreSeparate | services/submission-engine/internal/ratelimit/limiter.go:87-104 | In any mixture of calls a contestant's key depends on that contestant's calls alone. |
| RateLimit.CallsAreConsistent | services/submission-engine/internal/ratelimit/limiter.go:45-61 | Over any run the stored set is the tail of the accept log that still counts, and the key expires one window after the last accept. |
| RateLimit.DecidesAsRecount | services/submission-engine/internal/ratelimit/limiter.go:52-57 | The pruned, expiring set decides as a recount of the full log; only accepts exactly 3600 s old may differ, when keys lapse on the dot. |
| RateLimit.WindowIsSafe | services/submission-engine/internal/ratelimit/limiter.go:25-30 | No half-open window of 3600 s in any run holds more than five accepted uploads. |
| RateLimit.ClosedWindowIsSafe | services/submission-engine/internal/ratelimit/limiter.go:58-59 | With both ends included the bound holds for all runs iff keys outlive their deadline. |
| RateLimit.NextDecision | services/submission-engine/internal/ratelimit/limiter.go:52-60 | The next call is accepted iff fewer than five were accepted so far or the fifth last is more than 3600 s old; when keys lapse on the dot also iff it is exactly so old and nothing was accepted in between. |
| RateLimit.RetryAfterIsTight | services/submission-engine/internal/ratelimit/limiter.go:134-149 | Retry-After is between 1 and 3600 and the least whole seconds covering the time left. |
| RateLimit.RefusedUntilOldestLeaves | services/submission-engine/internal/ratelimit/limiter.go:79-86 | With no accept in between, a call is refused until the oldest upload is more than 3600 s old and accepted afterwards; at exactly 3600 s it is accepted iff the key has just lapsed. |
| RateLimit.WaitingAsAdvised | services/submission-engine/internal/ratelimit/limiter.go:142-147 | Waiting exactly the advised time suffices iff the wait was rounded up or the key lapses at that instant. |
| RateLimit.EvenWaitIsRefused | services/submission-engine/internal/ratelimit/limiter.go:134-149 | Five uploads at 0, a refusal at 1 s advising 3599 s, and a refusal again at 3600 s. |
| BenchmarkRuns.BenchmarkService.CountNonTerminalRuns | services/control-plane-api/internal/benchmark/service.go:312-329 | Counts exactly the contestant's unfinished runs. |
| BenchmarkRuns.BenchmarkService.CreateRun | services/control-plane-api/internal/benchmark/service.go:82-146 | Alone, it is refused iff three runs are unfinished, and else inserts a queued run as requested, with a thousand bots by default, and the first audit row. |
| BenchmarkRuns.BenchmarkService.TransitionState | services/control-plane-api/internal/benchmark/service.go:249-310 | The error for each refused transition; otherwise the new status and an audit row with both states, actor and reason, and nothing else. |
| BenchmarkRuns.BenchmarkService.CancelRun | services/control-plane-api/internal/benchmark/service.go:238-240 | A transition to FAILED by the operator. |
| BenchmarkRuns.AllowedTransitions | services/control-plane-api/internal/benchmark/service.go:32-66 | From each stage exactly the next one and the failures of that stage, listed failure by failure. |
| BenchmarkRuns.AlwaysAudited | services/control-plane-api/internal/benchmark/service.go:276-298 | In any interleaving each run's audit rows are one chain from nothing to QUEUED to its status along allowed transitions. |
| BenchmarkRuns.AlwaysFaithful | services/control-plane-api/internal/benchmark/service.go:120-138 | In any interleaving every run is as some counted call requested it, and every transition in the trail was asked for, by this actor and for this reason. |
| BenchmarkRuns.TrailIsShort | services/control-plane-api/internal/benchmark/service.go:30-66 | At most six transitions, no status twice, only the latest may be terminal. |
| BenchmarkRuns.CompleteAfterAllStages | services/control-plane-api/internal/benchmark/service.go:245-246 | A completed run has gone through all seven stages in order. |
| BenchmarkRuns.TerminalIsForever | services/control-plane-api/internal/benchmark/service.go:266-269 | A terminal run keeps its row and its trail whatever follows. |
| BenchmarkRuns.AcceptedFromEverywhere | services/control-plane-api/internal/benchmark/service.go:242-248 | FAILED, and no other status, is accepted from every unfinished state. |
| BenchmarkRuns.ReachableStatuses | services/control-plane-api/internal/benchmark/service.go:32-66 | A run can be in every known status but PROVISIONING_TIMEOUT. |
| BenchmarkRuns.CancellableRuns | services/control-plane-api/internal/benchmark/service.go:235-240 | A run can be cancelled iff it exists and is not terminal. |
| BenchmarkRuns.ConcurrentRunLimit | services/control-plane-api/internal/benchmark/service.go:82-92 | With at most k calls between count and commit a contestant has at most k + 2 unfinished runs. |
| BenchmarkRuns.LimitIsExceeded | services/control-plane-api/internal/benchmark/service.go:82-146 | For every k an interleaving reaches k + 2. |
| BenchmarkRuns.LimitHoldsUnlessCallsOverlap | services/control-plane-api/internal/benchmark/service.go:82-146 | At most three unfinished runs in every interleaving iff at most one call at a time is between count and commit. |
| HubModel.Hub.OnUnregister | services/leaderboard-service/internal/hub/hub.go:65-69 | A registered client, and no other, leaves and its channel closes, with what waits in it; a second close panics. |
| HubModel.Hub.OnBroadcast | services/leaderboard-service/internal/hub/hub.go:71-79 | Every client is offered the message in whatever order; full queues count a drop each; it panics iff a registered channel is closed. |
| HubModel.Hub.OnDone | services/leaderboard-service/internal/hub/hub.go:54-60 | Closes every registered channel and stops, or panics iff one is already closed. |
| HubModel.AlwaysAccounted | services/leaderboard-service/internal/hub/hub.go:51-92 | In any interleaving, per client: the messages processed while the history has it registered = taken + waiting + dropped, in order and within the buffer; DroppedCount is the sum of drops. |
| HubModel.WhoIsRegistered | services/leaderboard-service/internal/hub/hub.go:54-69 | Without a panic, the hub's clients are exactly those that registered and have not unregistered since, until it is shut down. |
| HubModel.WhoIsClosed | services/leaderboard-service/internal/hub/hub.go:54-69 | Without a panic, a channel is closed iff its client left, or the hub stopped, while it was registered. |
| HubModel.LeaveChanges | services/leaderboard-service/internal/hub/hub.go:65-69 | Unregistering changes neither membership nor channel of any other client. |
| HubModel.NextChanges | services/leaderboard-service/internal/hub/hub.go:71-79 | The first waiting message goes to every registered client with room, and one drop is counted for each one without. |
| HubModel.ShutdownChanges | services/leaderboard-service/internal/hub/hub.go:54-60 | Stopping closes the channels of all registered clients and no other, with what waits in them. |
| HubModel.StepSafe | services/leaderboard-service/internal/hub/hub.go:51-82 | With no closed channel registered no step panics, and this is kept by every step but registering a closed channel. |
| HubModel.NeverPanics | services/leaderboard-service/internal/hub/hub.go:51-82 | If each client registers at most once, no channel is used after it was closed. |
| HubModel.RejoiningPanics | services/leaderboard-service/internal/hub/hub.go:62-79 | A client registered again with its closed channel brings the hub down at the next broadcast. |
| HubModel.RejoiningHappens | services/leaderboard-service/internal/hub/hub.go:62-79 | Register, unregister, register, broadcast: the hub panics. |
| Fix.BuildMessage | services/bot-fleet-manager/internal/bot/fix/generator.go:65-92 | The bytes of the message: header, body, and the checksum of both. |
| Fix.VerifyChecksum | services/bot-fleet-manager/internal/bot/fix/generator.go:157-188 | The verifier's two results on arbitrary bytes. |
| Fix.LastMarkerDecides | services/bot-fleet-manager/internal/bot/fix/generator.go:157-188 | The last SOH "10=" decides: the sum of what stands before it against the number in the three bytes behind it. |
| Fix.NoMarkerDecides | services/bot-fleet-manager/internal/bot/fix/generator.go:160-168 | Without one, -1 and failure, unless the message begins with "10=". |
| Fix.BuiltMessagesVerify | services/bot-fleet-manager/internal/bot/fix/generator.go:65-92 | Every built message passes its check, whatever its fields contain, when the body tags are empty or end with the delimiter. |
| Fix.UnterminatedFails | services/bot-fleet-manager/internal/bot/fix/generator.go:157-168 | Without a stray marker, a sealed payload passes iff it ends with the delimiter. |
| Fix.BodyLengthIsExact | services/bot-fleet-manager/internal/bot/fix/generator.go:66-78 | Tag 9 read back is the byte count from tag 35 to the delimiter before tag 10. |
| FixFields.DecodeEncode | services/bot-fleet-manager/internal/bot/fix/generator.go:55-92 | Fields in the wire format are read back as they were, as long as no value holds a delimiter. |
| FixFields.LimitReadsBack | services/bot-fleet-manager/internal/bot/fix/generator.go:97-115 | A limit order message read back tag by tag: each value under its own tag, in this order, between body length and checksum. |
| FixFields.MarketReadsBack | services/bot-fleet-manager/internal/bot/fix/generator.go:119-134 | The same for a market order. |
| FixFields.ReplaceReadsBack | services/bot-fleet-manager/internal/bot/fix/generator.go:137-153 | The same for a cancel/replace request. |
| FixFields.NumbersReadBack | services/bot-fleet-manager/internal/bot/fix/generator.go:66-78 | Sequence numbers, times and quantities read back as the same numbers. |
| FixDamage.PayloadChangeFound | services/bot-fleet-manager/internal/bot/fix/generator.go:169-187 | One changed byte before the payload's last delimiter always fails the check. |
| FixDamage.MarkerChangeFound | services/bot-fleet-manager/internal/bot/fix/generator.go:160-168 | A changed byte of the tag-10 marker goes unnoticed iff the last marker left in the fields is followed by a fitting checksum, whatever the fields hold. |
| FixDamage.DigitChangeFound | services/bot-fleet-manager/internal/bot/fix/generator.go:177-187 | A changed checksum digit fails the check, except exactly the changes the lenient scan reads as the same number. |
| FixDamage.AnyChangeFound | services/bot-fleet-manager/internal/bot/fix/generator.go:157-188 | For every terminated payload: all single-byte changes before the final delimiter fail the check iff the checksum is at least 100 and no marker in the fields fits, as they stand or with another last byte. |
| FixDamage.PlainMessageChangeFound | services/bot-fleet-manager/internal/bot/fix/generator.go:97-153 | When run id, bot id, side, price and OrigClOrdID hold no delimiter, all single-byte changes of limit, market and cancel/replace messages are found iff the checksum is at least 100. |
| FixDamage.SmallChecksumMessage | services/bot-fleet-manager/internal/bot/fix/generator.go:119-134 | A market order of the generator whose checksum is 050, so that a changed byte goes unnoticed. |
| FixDamage.StrayMarkerHidesDamage | services/bot-fleet-manager/internal/bot/fix/generator.go:137-188 | For every cancel/replace request some OrigClOrdID that carries its own tag 10 lets the message pass with a destroyed trailer. |
| Fix.FixGenerator.LimitOrder | services/bot-fleet-manager/internal/bot/fix/generator.go:97-115 | A message that passes its own check, under the next sequence number and its ClOrdID. |
| Fix.FixGenerator.MarketOrder | services/bot-fleet-manager/internal/bot/fix/generator.go:119-134 | The same for a market order. |
| Fix.FixGenerator.CancelReplace | services/bot-fleet-manager/internal/bot/fix/generator.go:137-153 | The same for a cancel/replace request. |
| Fix.ClOrdIdsCollide | services/bot-fleet-manager/internal/bot/fix/generator.go:55-58 | Two ClOrdIDs are equal iff the sequence numbers are and run and bot ids read the same once joined; with run ids of equal length, iff run, bot and number are equal. |
| Fix.ClOrdIdsDoCollide | services/bot-fleet-manager/internal/bot/fix/generator.go:55-58 | Run "a", bot "b-c" and run "a-b", bot "c" share a ClOrdID. |

## Left out

- Engine.BuildSnapshot: level totals are unbounded naturals; the 64-bit sum is not part of this model.
- Order ids are strings compared for equality; JSON, serde and the C ABI are not modelled.
- `BookSide::best_mut` hands out a mutable reference; only reading the best order is modelled.
- Apportionment.LargestRemainder: weights and shares are exact reals; float32 and float64 rounding is not modelled.
- Scheduler.SharesAddUp: exact reals, as above.
- Scheduler.Schedule: the sorts promise only a sorted permutation, as the unstable library sort does.
- RateLimit.Limiter.Allow: exact integer nanoseconds on one clock, distinct set members, no Redis errors; score rounding to doubles is not modelled. Whether a key is gone at its very deadline is a parameter.
- BenchmarkRuns.BenchmarkService.CreateRun: database errors and rollbacks appear only as the step that abandons a call; timestamps and score columns are not modelled. A run id is a fresh number.
- HubModel.Hub.OnBroadcast: after a panic nothing more is said about the state; sockets and the reading goroutines are one receive step.
- HubModel.Hub.Broadcast: blocking on a full inbox is a step that does nothing.
- Fix.VerifyChecksum: the byte sum is unbounded.
- Fix.FixGenerator.LimitOrder: the clock and the text of the price come as parameters; formatting of floats is not modelled.
- Services that wrap Kubernetes, HTTP, gRPC, Postgres, Redis and Kafka, authentication, the scoring formula, telemetry windows, the pacing limiter and the frontend: wrappers or easier logic.
