# TitanX matching core

A Dafny model of the TitanX C++ matching engine: the price-time order book, the risk
gate in front of it, the fill consumer behind it, the circuit breaker, the token-bucket
rate limiter and the event queue; and of the stop cascade of the Java engine. Check the
whole project with `dafny verify dfyconfig.toml`.

## How it is built

- **Order book.** `PriceTime` and `Books` describe one book as two flat lists, best price
  first and oldest first, and every order type as a sweep, an insertion or a cut on them.
  `BookLaws` proves what the lists promise. `OrderBooks.OrderBook` is the book as the program
  keeps it (ordered levels of queues, an id index, loops that update all of them in place);
  each method is proved to do to the flat view what `Books` says (`Levels`, `Filling`,
  `Snapshots` hold the steps).
- **Engine machine.** `EngineModel` is a state machine: any number of threads, every locked
  region of `submit`, `cancel` and the fill consumer one atomic step, all interleavings.
  `EngineSafety`, `EnginePositions`, `EngineLimits` and `EngineRecords` prove invariants of every
  reachable state; `PositionRace` builds executions that break the position limit and makes its
  conditions exact.
- **Engine objects.** `RiskEngines` and `Engines` hold the classes. `Sessions` proves that any
  list of calls on a new engine is an execution of the machine, and concludes for the objects
  what the machine guarantees.
- **Circuit breaker, risk arithmetic.** `CircuitBreakers`, `Risk`, `Int64`: prices and products
  in 64-bit two's complement, with the exact prices up to which each computation is right.
- **Rate limiter.** `TokenBuckets` (calls one after another), `RateLimiters` (one bucket per
  key), `BucketRaces` (every load, store and compare-and-swap its own step).
- **Event queue.** `EventQueue`: appenders, the writer thread and `close`, interleaved.
- **Stop cascade.** `StopCascade`: the mutual recursion of the Java engine.

## Where code and documentation disagree

The model follows the code.

- A halt "at 5%" needs a move of 5.01%, and the price check "at 10%" one of 10.01%: basis
  points are rounded down and compared with `>` (`TripsExactly`, `FatFingerBand`).
- Both miss a large enough move, because ten thousand times the distance overflows: they are
  right for all prices from 1 to m exactly when m is at most (2^63 - 1) / 10,000 + 1
  (`WatchesExactly`, `ThresholdExactly`; `TripIsMissed` is a missed halt).
- "100 orders/second" admits 200 within one second (`StandardBurst`), and any number once
  refills race (`RefillRaceIsUnbounded`).
- Cancelling, and the removal inside immediate-or-cancel, leave an order with price 0 in its
  queue and only drop it from the index (`CancelRemovesIff`, `IocLeavesNoTrace`).
- The position limit does not count orders in flight: two overlapping orders are always safe
  exactly when their sum is within it (`OverlapExactly`). It holds in every execution whose
  approvals fit together with what is in flight (`PositionLimitHolds`).
- The position check passes a projected position of exactly 2^63 (`PositionCheckExactly`), and
  one such order breaks both limits without any concurrency (`LimitsFailAtEdge`).
- Away from that edge the notional limit, a 64-bit product, holds exactly up to a price of
  (2^63 - 1) / 10,000 (`NotionalLimitExactly`).
- Self-trade prevention never forgets an order, so an account that bought can never sell
  again (`AccountsKeepOneSide`).
- `close` can leave the event writer asleep: exactly when the flag is stored between the
  writer's test and its wait (`StrandsExactly`).

## Modelling choices

- Ids, accounts and symbols are abstract values with equality.
- The book erases the id of the order it has just popped; the program reads that id through
  a reference to the popped element.
- A price move that trips the breaker records the halt; the program takes its own lock a
  second time there.
- A cached position changes by addition, one key at a time.
- Signed overflow, undefined in C++, wraps around.
- Clock readings, generated ids and spurious failures are parameters.

## Model

| member | source | states |
|---|---|---|
| PriceTime.SweepTradesInOrder | backend/src/engine/OrderBook.cpp:31-78 | trade i is with the i-th resting order at that order's price, for what is left once everybody ahead is served; the sweep stops exactly where the quantity or the limit runs out |
| PriceTime.SweepLeavesBehind | backend/src/engine/OrderBook.cpp:43-67 | what stays is the untouched tail, with a partly filled order keeping the head; the unfilled remainder is the quantity minus what stood ahead |
| PriceTime.SweepConserves | backend/src/engine/OrderBook.cpp:43-63 | volume plus remainder is the incoming quantity, and each resting order loses exactly what the trades show under its id |
| PriceTime.SweepStopsDry | backend/src/engine/OrderBook.cpp:90-102 | a sweep with something left over has exhausted everything within its limit |
| PriceTime.CountedSweepStaysWithin | backend/src/engine/OrderBook.cpp:162-168 | an unrestricted sweep for no more than the counted quantity fills completely and equals the sweep that respects the limit |
| PriceTime.InsertAtPlace | backend/src/engine/OrderBook.cpp:174-181 | a newcomer stands behind everybody at least as good, ahead of everybody worse, and nobody else moves |
| Books.MatchKeepsWf | backend/src/engine/OrderBook.cpp:13-25 | every order type keeps both sides sorted, ids distinct, remainders positive, and adds at most the order's own id |
| Books.CancelKeepsWf | backend/src/engine/OrderBook.cpp:183-213 | a cancel keeps the book well-formed and adds no id |
| BookLaws.MatchKeepsUncrossed | backend/src/engine/OrderBook.cpp:84-145 | after any order type every bid is strictly below every ask, if it was before |
| BookLaws.MarketLaw | backend/src/engine/OrderBook.cpp:31-78 | a market order serves the opposite side in price-time order, each order for what those ahead leave, until it is filled or the side is empty; it never rests, and the last price is that of its last trade |
| BookLaws.LimitLaw | backend/src/engine/OrderBook.cpp:84-145 | a limit order does so within its limit; if that is too little the exact remainder rests behind everybody at least as good and ahead of everybody worse, otherwise its own side is unchanged |
| BookLaws.IocLaw | backend/src/engine/OrderBook.cpp:151-156 | an immediate-or-cancel order with a price serves the opposite side within its limit and leaves its own side unchanged |
| BookLaws.FokLaw | backend/src/engine/OrderBook.cpp:162-168 | a fill-or-kill order is served completely within its limit, a price of 0 being none, exactly when enough rests there; otherwise nothing changes |
| BookLaws.StopLimitLaw | backend/src/engine/OrderBook.cpp:19-22 | a stop order changes no book |
| BookLaws.FokAllOrNothing | backend/src/engine/OrderBook.cpp:162-168 | a fill-or-kill order fills exactly its quantity within its limit when that much rests there, and otherwise changes nothing |
| BookLaws.IocLeavesNoTrace | backend/src/engine/OrderBook.cpp:151-156 | immediate-or-cancel trades as a limit order; it rests nothing if and only if it has a price or is filled by what is in reach |
| BookLaws.RestThenCancel | backend/src/engine/OrderBook.cpp:174-213 | queueing a new order and cancelling it is the identity, or, without a price, hides the order from the index |
| BookLaws.CancelCutsOut | backend/src/engine/OrderBook.cpp:192-210 | cancelling the k-th order of a side takes out that order and keeps everybody else in place |
| BookLaws.CancelRemovesIff | backend/src/engine/OrderBook.cpp:183-213 | a cancel reports success exactly for ids resting with a price; exactly an order without a price stays queued, hidden from the index |
| BookLaws.TradeParties | backend/src/engine/OrderBook.cpp:44-50 | whatever the order type, trade i names the incoming order and the i-th resting one, at the resting price, for a positive quantity it had, no worse than the limit of a limit, immediate-or-cancel or unfilled priced fill-or-kill order |
| BookLaws.MatchCarries | backend/src/engine/OrderBook.cpp:52-62 | whatever rests after a call rested before, perhaps with more, or is the incoming remainder |
| BookLaws.MatchConserves | backend/src/engine/OrderBook.cpp:13-25 | for every other order, what it lost in the book is what the trades show |
| BookLaws.MatchFillsIncoming | backend/src/engine/OrderBook.cpp:13-25 | the trades add up to what the incoming order lost and never exceed what it wanted |
| Levels.FlattenInjective | backend/src/engine/OrderBook.cpp:174-181 | two canonical level maps with the same flat view are equal, so nothing of the two-level book is lost in the flat view |
| Levels.PushBackInserts | backend/src/engine/OrderBook.cpp:174-179 | appending to the queue of a price is inserting into the price-time list |
| Levels.EraseRemoves | backend/src/engine/OrderBook.cpp:192-200 | erasing an id from the level of its price is erasing it from the whole list |
| Filling.IndexIsComplete | backend/src/engine/OrderBook.cpp:180-190 | nothing is hidden if and only if the id index holds exactly the queued orders with equal values |
| OrderBooks.DrainQueue | backend/src/engine/OrderBook.cpp:43-63 | the inner loop keeps index, queue and last price consistent while it performs the sweep one fill at a time |
| OrderBooks.OrderBook.MatchMarket | backend/src/engine/OrderBook.cpp:31-78 | the nested loops leave the book and return the trades of the flat unrestricted sweep |
| OrderBooks.OrderBook.MatchLimit | backend/src/engine/OrderBook.cpp:84-145 | the same for a limit order, with the remainder queued |
| OrderBooks.OrderBook.MatchIoc | backend/src/engine/OrderBook.cpp:151-156 | the same for immediate-or-cancel |
| OrderBooks.OrderBook.MatchFok | backend/src/engine/OrderBook.cpp:162-168 | the same for fill-or-kill |
| OrderBooks.OrderBook.Match | backend/src/engine/OrderBook.cpp:13-25 | whatever the order, the two-level book moves as the flat lists do and stays canonical and indexed |
| OrderBooks.OrderBook.InsertIntoBook | backend/src/engine/OrderBook.cpp:174-181 | appending to the level and indexing is the flat insertion |
| OrderBooks.OrderBook.RemoveFromBook | backend/src/engine/OrderBook.cpp:183-213 | the removal through index and level is the flat cancellation, with its result |
| OrderBooks.OrderBook.AvailableQuantityAtOrBetter | backend/src/engine/OrderBook.cpp:219-244 | the counting loops return the quantity resting in the leading prices within reach |
| OrderBooks.OrderBook.Snapshot | backend/src/engine/OrderBook.cpp:267-289 | the best `depth` prices, best first, each with the total quantity and number of orders resting there; every other price is worse |
| OrderBooks.OrderBook.BestBid | backend/src/engine/OrderBook.cpp:246-249 | the maximum of the bid prices, and nothing exactly when there are no bids |
| OrderBooks.OrderBook.BestAsk | backend/src/engine/OrderBook.cpp:251-254 | the minimum of the ask prices, and nothing exactly when there are no asks |
| OrderBooks.OrderBook.Spread | backend/src/engine/OrderBook.cpp:256-261 | present exactly when both sides are; the smallest distance from a bid to an ask, and positive in an uncrossed book |
| EngineSafety.AlwaysInv | backend/src/engine/MatchingEngine.cpp:38-93 | every reachable state: approved orders tracked on their own side, waiting orders distinct and unmatched, books well-formed and uncrossed, resting remainders equal quantity minus the tape, no pending stops |
| EngineSafety.NeverSelfTrades | backend/src/risk/RiskEngine.cpp:67-82 | in every interleaving no trade has the same account on both legs |
| EngineSafety.NeverOverfills | backend/src/engine/OrderBook.cpp:43-63 | no order is filled beyond its quantity, and a resting order shows exactly what the tape has left of it, with the status that fits |
| EngineSafety.NeverCrosses | backend/src/engine/OrderBook.cpp:84-145 | every book in every reachable state is well-formed and uncrossed |
| EngineSafety.NeverHides | backend/src/engine/OrderBook.cpp:183-213 | when submitted limit and immediate-or-cancel orders carry prices, no queued order is ever missing from the index |
| EngineSafety.AccountsKeepOneSide | backend/src/risk/RiskEngine.cpp:123-129 | any two approved orders of one account, on any symbols, are on the same side |
| EngineSafety.StopsKeepInv | backend/src/engine/MatchingEngine.cpp:134-165 | the stop step keeps the invariant, the pending map being empty in every reachable state |
| EngineSafety.HaltHolds | backend/src/risk/CircuitBreaker.cpp:47-75 | in every execution a halted symbol stays halted until it is resumed |
| EngineSafety.HaltRejects | backend/src/risk/RiskEngine.cpp:17-20 | until then every check of an order for it is turned down |
| EngineRecords.HaltedAdmitsNothing | backend/src/engine/MatchingEngine.cpp:38-44 | in every execution, while the kill switch is set idle threads stay idle and a submission changes nothing |
| EngineRecords.BreakerSeesEveryFill | backend/src/main.cpp:103-103 | in every execution the breaker's state is the run of exactly the recorded fills, halts and resumes, in their order |
| EngineRecords.LastPriceIsLastRecorded | backend/src/risk/RiskEngine.cpp:97-101 | in every execution the price that orders are compared with is that of the fill of the symbol recorded last |
| EnginePositions.PositionsAreZeroSum | backend/src/main.cpp:86-94 | cached positions of a symbol sum to zero over all accounts whenever no fill of it is between its two cache updates |
| EnginePositions.AlwaysBalanced | backend/src/main.cpp:86-94 | at every moment they sum to exactly the half-recorded legs |
| EnginePositions.AlwaysExplained | backend/src/main.cpp:86-104 | at every moment an account's cached position and what threads have still to post are the signed sum of both its legs over the whole tape, and its recorded position and what is still to be recorded that of its aggressor legs |
| EnginePositions.TapeExplainsPositions | backend/src/main.cpp:86-104 | whenever nothing of the account is half recorded, the cached position is the sum of both legs over the tape, the recorded one of the aggressor legs, and they differ by the passive legs |
| EngineLimits.StepDemand | backend/src/risk/RiskEngine.cpp:36-52 | no step takes a recorded position back, and only an approval adds to the position plus everything in flight, by its quantity |
| EngineLimits.PositionWithinCommitment | backend/src/risk/RiskEngine.cpp:89-95 | in every execution a recorded position is at most the sum of what was approved for the account and symbol |
| EngineLimits.PositionLimitHolds | backend/src/risk/RiskEngine.cpp:36-52 | in every execution whose approvals, together with everything of the account and symbol in flight, fit within 10,000, no recorded position ever leaves the limit, even between two fills of one order |
| EngineLimits.OrderlyIsPrudent | backend/src/risk/RiskEngine.cpp:36-52 | that covers every execution in which no account has an order approved while another of the symbol is in flight, for 64-bit quantities and away from a projected position of 2^63 |
| PositionRace.BothAreRecorded | backend/src/engine/MatchingEngine.cpp:46-79 | for any two sizes up to 10,000, an execution in which both orders pass the gate in flight together and the recorded position ends at their sum |
| PositionRace.OverlapExactly | backend/src/engine/MatchingEngine.cpp:46-79 | two orders of one account stay within the limit in every execution, however they overlap, if and only if their quantities sum to at most 10,000 |
| PositionRace.LimitsFailAtEdge | backend/src/risk/RiskEngine.cpp:27-52 | one thread, one order at a time: from a position of one share, a bid for 2^63 - 1 passes, is over the notional limit, and leaves a position of 20,000 |
| Risk.PositionCheckExactly | backend/src/risk/RiskEngine.cpp:46-52 | from a position within the limit and for every 64-bit quantity, the check is right if and only if the projected position is not 2^63 or -2^63 |
| Risk.VerdictExactly | backend/src/risk/RiskEngine.cpp:13-83 | as long as nothing leaves the 64-bit range, the verdict and its reason are the first of six conditions in plain integers: halted, id used, notional over 5,000,000.00000000, position beyond 10,000, price 10.01 percent off, active on the other side; so an order passes exactly when none holds |
| Risk.CheckEffect | backend/src/risk/RiskEngine.cpp:13-25 | a check spends the id even when it rejects, unless the symbol was halted, counts itself and its rejection, and leaves positions and prices alone |
| Risk.CheckTracks | backend/src/risk/RiskEngine.cpp:80-82 | exactly an approved order joins the active set of its side and account |
| Risk.PriceCheckFollowsTrade | backend/src/risk/RiskEngine.cpp:54-65 | after a trade is recorded the price check compares with that trade's price, from 10.01 percent on, and other symbols keep theirs |
| Risk.GateIgnoresInFlight | backend/src/risk/RiskEngine.cpp:36-52 | approving one order never makes the gate reject another of the same account and side |
| Risk.CheckKeepsOneSided | backend/src/risk/RiskEngine.cpp:67-82 | a check keeps every account on one side, only ever adds tracked ids, and tracks what it approves |
| Risk.CheckSpendsId | backend/src/risk/RiskEngine.cpp:22-25 | a check never forgets an id, and approves only a new one, which it spends |
| Risk.FatFingerBand | backend/src/risk/RiskEngine.cpp:54-65 | for positive prices at most (2^63 - 1) / 10,000 apart, the check objects exactly from 10.01 percent of the last price on |
| Int64.ThresholdExactly | backend/src/risk/RiskEngine.cpp:59-61 | a basis-point threshold is exact for all prices from 1 to m if and only if m is at most (2^63 - 1) / 10,000 + 1 |
| EngineLimits.ApprovedFollowsPosition | backend/src/risk/RiskEngine.cpp:67-82 | in every reachable state, whoever may buy holds no short position and whoever may sell no long one |
| EngineLimits.ApprovedQuantity | backend/src/risk/RiskEngine.cpp:36-52 | in every reachable state an approved quantity is at most 10,000, for orders away from the edge |
| Risk.WrappedNotionalApproved | backend/src/risk/RiskEngine.cpp:27-34 | at every price beyond (2^63 - 1) / 10,000 the first order of a new account can be over the limit and pass |
| EngineLimits.NotionalLimitExactly | backend/src/risk/RiskEngine.cpp:27-52 | in every reachable state and for orders away from the edge, the exact notional of an approved order at a price is within the limit if and only if the price is at most (2^63 - 1) / 10,000 |
| RiskEngines.RiskEngine.CheckPreTrade | backend/src/risk/RiskEngine.cpp:13-83 | the verdict is the first of the six objections; the id is spent unless the symbol was halted, and an approved order is tracked |
| RiskEngines.RiskEngine.CheckLimits | backend/src/risk/RiskEngine.cpp:27-78 | the last four checks in their order, without changing anything |
| RiskEngines.RiskEngine.TrackOrder | backend/src/risk/RiskEngine.cpp:123-129 | the id joins the account's set on the order's side only |
| RiskEngines.RiskEngine.RecordFill | backend/src/risk/RiskEngine.cpp:89-95 | the nested position table changes by the signed quantity at one account and symbol only |
| RiskEngines.RiskEngine.UpdateLastTradePrice | backend/src/risk/RiskEngine.cpp:97-103 | the price is stored and the breaker sees the trade |
| RiskEngines.RiskEngine.GetNetPosition | backend/src/risk/RiskEngine.cpp:109-117 | the recorded position, zero when there is none |
| RiskEngines.CircuitBreaker.RecordTrade | backend/src/risk/CircuitBreaker.cpp:7-45 | the object opens windows and records halts as the value function says |
| RiskEngines.CircuitBreaker.HaltSymbol | backend/src/risk/CircuitBreaker.cpp:47-57 | the symbol's flag is set and nothing else changes |
| RiskEngines.CircuitBreaker.ResumeSymbol | backend/src/risk/CircuitBreaker.cpp:59-68 | the flag is cleared and the window forgotten, for that symbol only |
| RiskEngines.CircuitBreaker.IsHalted | backend/src/risk/CircuitBreaker.cpp:70-75 | reads the flag; an unknown symbol is not halted |
| CircuitBreakers.WindowInvariant | backend/src/risk/CircuitBreaker.cpp:7-45 | in every run whose prices of the symbol are positive and at most (2^63 - 1) / 10,000 apart, the breaker keeps the start and first price of the window as times alone define it (a resume closes it, a trade 61 seconds or more after its start opens a new one), and unless the symbol is halted every price of the window is within 5.01 percent of the first |
| CircuitBreakers.WindowByTime | backend/src/risk/CircuitBreaker.cpp:22-30 | with a window open, a trade 61 seconds or more after its start makes its own price and time the new reference and start and halts nothing; an earlier one leaves both |
| CircuitBreakers.FirstTradeOpens | backend/src/risk/CircuitBreaker.cpp:15-20 | without a window the trade opens one at its own price and time and halts nothing |
| CircuitBreakers.ZeroReferenceNeverTrips | backend/src/risk/CircuitBreaker.cpp:33-34 | with a reference of zero no trade halts anything |
| CircuitBreakers.OthersAreLeftAlone | backend/src/risk/CircuitBreaker.cpp:7-75 | trades, halts and resumes of one symbol leave halt, reference and window of every other symbol alone |
| CircuitBreakers.ManualControl | backend/src/risk/CircuitBreaker.cpp:47-68 | a halt halts and keeps the window, a resume clears the halt and forgets the window |
| CircuitBreakers.WatchesExactly | backend/src/risk/CircuitBreaker.cpp:34-44 | that holds for all runs with prices from 1 to m if and only if m is at most (2^63 - 1) / 10,000 + 1 |
| CircuitBreakers.TripIsMissed | backend/src/risk/CircuitBreaker.cpp:37-40 | a run of two trades whose move the breaker misses |
| CircuitBreakers.TripsExactly | backend/src/risk/CircuitBreaker.cpp:34-44 | with a window open and a positive reference at most (2^63 - 1) / 10,000 away, a trade halts the symbol if and only if it comes less than 61 seconds after the start and is 5.01 percent or more off |
| CircuitBreakers.HaltLatches | backend/src/risk/CircuitBreaker.cpp:47-75 | only a resume of that symbol ends a halt |
| Engines.FillConsumer.OnFill | backend/src/main.cpp:86-104 | the consumer's five updates, as one change of cache, positions, last price and breaker |
| Engines.FillConsumer.OnFills | backend/src/engine/MatchingEngine.cpp:74-79 | the loop over the trades consumes them in order |
| Engines.MatchingEngine.GetOrCreateBook | backend/src/engine/MatchingEngine.cpp:14-22 | the symbol's own book, a new empty one on first use; no other book is touched or shared |
| Engines.MatchingEngine.Submit | backend/src/engine/MatchingEngine.cpp:38-93 | the objects move from gate to book to fills as the value says, trades are returned, books stay separate, valid and within the checked ids |
| Engines.MatchingEngine.Cancel | backend/src/engine/MatchingEngine.cpp:99-112 | only the symbol's book changes, by the cancellation, with its result; an unknown symbol changes nothing |
| Engines.MatchingEngine.Halt | backend/src/engine/MatchingEngine.cpp:171-174 | the kill switch is set and nothing else changes |
| Engines.MatchingEngine.Resume | backend/src/engine/MatchingEngine.cpp:176-179 | the kill switch is cleared and nothing else changes |
| Engines.HaltedTakesNothing | backend/src/engine/MatchingEngine.cpp:38-44 | a halted engine is unchanged by a submission and returns no trades |
| Engines.FillIsRecorded | backend/src/main.cpp:86-104 | a fill moves the aggressor's recorded position by its signed quantity, sets the symbol's last price and reaches the breaker; no other position or price moves |
| Engines.CancelledIsGone | backend/src/engine/MatchingEngine.cpp:99-112 | after a cancel the id is in the book exactly if it rests without a price, and every other book is as before |
| Engines.SubmitIsARun | backend/src/engine/MatchingEngine.cpp:38-93 | from any state with an idle thread, some sequence of enabled steps of that thread alone has the effect of the call |
| Engines.PlayIsExecution | backend/src/engine/MatchingEngine.cpp:38-93 | such sequences from the start are executions of the machine |
| Engines.MatchingEngine.GetSnapshot | backend/src/engine/MatchingEngine.cpp:118-128 | the snapshot of the symbol's book, nothing for an unknown symbol |
| Sessions.SessionIsARun | backend/src/engine/MatchingEngine.cpp:38-112 | for any list of submits, cancels, halts and resumes on a new engine there is a run of the machine with the same effect, in which only the submitted orders enter |
| Sessions.Operate | backend/src/engine/MatchingEngine.cpp:38-112 | the objects after any list of calls are what the calls say; every book is uncrossed, and with priced limit and immediate-or-cancel orders every id index holds exactly the queued orders |
| Sessions.SessionKeepsBooks | backend/src/engine/OrderBook.cpp:174-213 | after any list of calls every book is uncrossed, and with priced orders nothing is hidden from the index |
| Sessions.SnapshotOverIndex | backend/src/engine/OrderBook.cpp:267-289 | with an exact index every level of a snapshot shows quantity and number as sums over the index |
| TokenBuckets.RateBoundFromCreation | backend/src/gateway/TokenBucketRateLimiter.cpp:37-75 | from its creation a bucket grants at most capacity plus rate times elapsed time |
| TokenBuckets.RateBound | backend/src/gateway/TokenBucketRateLimiter.cpp:37-75 | in any window of any run of calls, at most capacity plus the earned tokens rounded up |
| TokenBuckets.BoundIsAttained | backend/src/gateway/TokenBucketRateLimiter.cpp:61-75 | the bound from creation is reached for every capacity, rate and interval that earns between one token and the capacity |
| TokenBuckets.StandardBurst | backend/include/titanx/gateway/TokenBucketRateLimiter.hpp:35-36 | with the standard settings 200 calls within one second are granted |
| TokenBuckets.CallByTime | backend/src/gateway/TokenBucketRateLimiter.cpp:37-75 | until a whole token is earned a call only takes a token and the time goes on counting; from then on it is granted, credits what was earned up to the capacity and moves the time |
| TokenBuckets.NobodyStarves | backend/src/gateway/TokenBucketRateLimiter.cpp:61-75 | however often a bucket is called, some call is granted by the time a whole token has been earned |
| TokenBuckets.PolledBucketGrants | backend/src/gateway/TokenBucketRateLimiter.cpp:61-75 | a bucket called at least once per token earned grants at least one call for every two tokens, up to the last fraction |
| TokenBuckets.ZeroMeansNow | backend/src/gateway/TokenBucketRateLimiter.cpp:51-59 | an empty bucket advertises zero seconds if and only if a retry at once is granted, and otherwise one |
| TokenBuckets.RetryAfterIsHonoured | backend/src/gateway/TokenBucketRateLimiter.cpp:51-59 | after a refusal, a retry made at least the advertised seconds later with no other call between is granted, for every capacity and rate of at least one |
| RateLimiters.KeysAreIndependent | backend/src/gateway/TokenBucketRateLimiter.cpp:5-22 | a key's calls fare as if it had the limiter to itself |
| RateLimiters.RateBoundPerKey | backend/src/gateway/TokenBucketRateLimiter.cpp:5-22 | in every log of calls over all keys, each key is within the rate bound in every stretch between two times |
| RateLimiters.NewKeyStartsFull | backend/src/gateway/TokenBucketRateLimiter.cpp:11-17 | a key that has not called before fares as with a bucket of 100 tokens refilled at 100 per second from its first call |
| RateLimiters.RateLimiter.TryAcquire | backend/src/gateway/TokenBucketRateLimiter.cpp:5-22 | only the key's bucket changes, made full on first use; the answer is whether it holds a token after the refill |
| RateLimiters.RateLimiter.RetryAfterSeconds | backend/src/gateway/TokenBucketRateLimiter.cpp:24-31 | zero for an unknown key, otherwise the bucket's answer |
| RateLimiters.TokenBucket.TryConsume | backend/src/gateway/TokenBucketRateLimiter.cpp:37-49 | refill, then one token less exactly when the call is granted |
| RateLimiters.TokenBucket.Refill | backend/src/gateway/TokenBucketRateLimiter.cpp:61-75 | earned tokens up to the capacity, and the time moves only when something was earned |
| RateLimiters.TokenBucket.SecondsUntilRefill | backend/src/gateway/TokenBucketRateLimiter.cpp:51-59 | zero exactly when a token has been earned since the last refill |
| BucketRaces.TokensAreSafe | backend/src/gateway/TokenBucketRateLimiter.cpp:37-75 | under every interleaving tokens stay within zero and capacity, every grant is exactly one decrement from a positive value, and there are at most `capacity` of them per refill store |
| BucketRaces.AloneIsSerial | backend/src/gateway/TokenBucketRateLimiter.cpp:37-75 | a thread that is not interrupted does, load by load and store by store, exactly what the serial call does, and returns the same answer |
| BucketRaces.RefillRaceIsUnbounded | backend/src/gateway/TokenBucketRateLimiter.cpp:67-74 | once a token is due, any number of threads can all be granted at one instant |
| BucketRaces.BurstBoundExactly | backend/src/gateway/TokenBucketRateLimiter.cpp:61-75 | grants at one instant are bounded by the capacity under every interleaving if and only if no token is due |
| EventQueue.AttemptsFollowAppends | backend/src/persistence/EventStore.cpp:42-75 | in every interleaving the attempted writes, the event in flight and the queue are together the append order |
| EventQueue.ExitAfterDrain | backend/src/persistence/EventStore.cpp:69-75 | whatever was appended at any moment before the writer exited has been attempted once it has, in order; nothing is attempted afterwards |
| EventQueue.AppendIsNotForgotten | backend/src/persistence/EventStore.cpp:42-55 | in every execution, a writer asleep over a queue that is not empty has a notification to come that wakes it |
| EventQueue.WriterSettles | backend/src/persistence/EventStore.cpp:50-75 | left alone, a writer that is awake attempts everything appended within a bounded number of steps, then sleeps if it is to go on and exits if it is to stop |
| EventQueue.StrandsExactly | backend/src/persistence/EventStore.cpp:50-55 | in every execution, after the stop flag is stored some continuation leaves the writer asleep with its notification spent if and only if the writer stood between its test and its wait at the store; the queue is empty then |
| EventQueue.StrandedSleepsOn | backend/src/persistence/EventStore.cpp:128-134 | without another append or a spurious wake-up a writer left asleep never exits |
| EventQueue.LockedStoreNeverStrands | backend/src/persistence/EventStore.cpp:128-130 | if the flag is stored only while the writer does not hold the lock, no execution leaves it asleep |
| EventQueue.CloseCanStrandTheWriter | backend/src/persistence/EventStore.cpp:128-134 | an execution in which that happens |
| StopCascade.StopEngine.Submit | matching-engine/src/main/java/com/titanx/engine/MatchingEngine.java:81-135 | terminates; a submission that trades ends with no pending stop touched by the last price, every stop pending or activated exactly once, each activated at a price the book had traded at as a limit order of its side, limit price and remaining quantity, and the book that of matching these in turn |
| StopCascade.StopEngine.CheckStopTriggers | matching-engine/src/main/java/com/titanx/engine/MatchingEngine.java:162-184 | the same for one trigger pass with everything it sets off; nothing happens before the first trade |
| StopCascade.FiredSplits | matching-engine/src/main/java/com/titanx/engine/MatchingEngine.java:167-174 | due and remaining stops are together the pending list |
| StopCascade.SinglePassLaw | backend/src/engine/MatchingEngine.cpp:134-165 | the C++ trigger step, for any pending list: exactly the stops whose price is touched leave it, and only the symbol's book and list change |
| StopCascade.SinglePassReplays | backend/src/engine/MatchingEngine.cpp:155-164 | it matches them in pending order, each as a new limit order of its side, limit price and remaining quantity |
| StopCascade.FiredAreDue | backend/src/engine/MatchingEngine.cpp:144-153 | the stops taken out are those whose stop price the last price has reached, from below for a buy and from above for a sell; those kept are not |
| StopCascade.MatchSetsLast | backend/src/engine/OrderBook.cpp:49-49 | the last trade price moves exactly with the trades |

## Left out

- HTTP routes, JSON, JWT, logging, metrics, and the calls into Redis and PostgreSQL.
- Floating-point conversion and formatting of prices; prices are integers.
- Generated ids and timestamps, apart from the clock of breaker and limiter.
- Mutexes and memory orders: locked regions are atomic steps. The unguarded reads of the book and lock maps in `cancel` and `getSnapshot` are not modelled.
- 64-bit wrap-around of quantities, position sums already recorded, and elapsed time times rate; only the products and sums of the pre-trade checks and the breaker wrap.
- The key of the limiter as a joined string: two different pairs that join to the same text share a bucket.
- OrderBooks.DrainQueue: works on local copies of queue, index and last price that are stored when the level is done, where the program updates the fields after each fill.
- Engines.MatchingEngine.Submit: emits no events and does not call the stop check, because no pending stop ever exists in the C++ engine (`EngineSafety.AlwaysInv`); the check is a step of the machine.
- RateLimiters.TokenBucket.TryConsume: the compare-and-swap loop is one decrement here; its retries are steps in `BucketRaces`.
- StopCascade.StopEngine.Submit: one symbol and one thread; the flat book stands for the Java book, and the risk engine is any answer.
- Rebuilding books from the event log: cancels emit no event and trades of triggered stops are dropped, so the log does not determine the books.
- The halt listing of the breaker, which only copies, and the events emitted by `submit`.
- The Java order book, risk engine, breaker and limiter, the simulators and the deployment files.
