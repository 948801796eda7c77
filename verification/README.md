# Trading bots: a verified model

Dafny models of the arithmetic and state machines behind the trading strategies, the alpha executor, the order-book store
and the dashboard's session tokens, with proofs about every input, every response of the exchange and every run.

| module | models |
|---|---|
| Common, Rounding | options, minima; `Decimal` division with ROUND_DOWN |
| Book | a sorted ask side: cost of the n cheapest units, convexity, optimality of the walk |
| Cutoff, BoxSpread | the box-spread sweep over two books, its binary search, its cap, and the scanner's edge filter |
| Liquidity | the single-book walk, the paper simulator, the momentum strategy's budget scaling |
| Orders, RateLimiter | order splitting, submission accounting, on-chain amounts, the sliding-window rate limiter |
| RiskState, RiskManager | the latency bot's risk manager, as a function of its history and as a class |
| WindowTracker | per-window positions, settlement, and what unresolved windows do to recorded profit |
| LatencySignal, LatencyWindow | the latency bot's decision per tick, one whole window over three ledgers, and the loop over windows |
| LatencySession | recorded against true profit, and a bound on a day's recorded loss, over any sequence of windows |
| AlphaRisk, AlphaLedger, AlphaExecutor | Kelly sizing and risk checks, the position ledger, and runs of the executor |
| BookStore | the Redis ZSET and HASH per book side against a plain map |
| SessionToken | base64url, signing and verification of session tokens |

Objects whose methods change fields are classes (`LatencyRiskManager`, `WindowPnL`, `WindowTracker`, `Signal`,
`LatencyBot`, `Limiter`, `PositionManager`, `AlphaService`, `RedisStore`); loops are loops. Every such method equates its
result or its new state with a function of the inputs and the old state, and the theorems are proved about those functions.

**Units.** Shares are integers in steps of 0.01, prices integers in ticks, money their product; `one` is a dollar in ticks.
Averages are compared by cross-multiplication, which `TruncatedAverageTest` justifies for `Decimal`'s truncated quotients.
The money ledgers of the latency bot and all of the alpha executor use exact rationals (`real`).

**Inputs.** Clock readings, dates, kill switches, fetched books, model probabilities, exchange responses, oracle
resolutions, stored figures, `f64` parsing, the MAC and the JSON reader are arbitrary parameters. Clocks and dates do not go
back; how long a sleep takes is left open. Books arrive filtered and sorted
(services/strategies/btc-5m/src/arb-scanner.ts:116-118), and sizes lie on the 0.01 grid
(services/strategies/btc-5m/src/arb-scanner.ts:281). One caller at a time uses the rate limiter, and the alpha executor
handles one signal at a time.

## What the proofs found

The code is modelled as it is. Where it does not do what its documentation or its purpose suggests, the exact condition is
proved:

- **Cap before threshold.** The sweep's cap branch does not look at the average again. With P the greatest size below the
  threshold and K the greatest under the cap, the sweep returns min(P, K), except that it returns K when P < K and no book
  level ends after P and up to K (`GreatestUnderBothLimitsIff`, `BelowThresholdIff`, `MaximalIff`, `OvershootExample`). The
  scanner's edge filter drops such a fill when the minimum edge is at least the margin the threshold leaves below a dollar,
  as at the defaults of 150 basis points and 0.985, although a profitable size within the cap exists
  (`OvershootIsFilteredOut`). With any smaller minimum edge there are books on which a fill above the threshold reaches the
  caller (`FilterKeepsThresholdIff`, `OvershootPassesExample`).
- **Binary search off the grid.** It leaves its loop if and only if it does not stall; stalling needs a step that is not a
  multiple of the grid (`EndsIffNotStalling`, `StallExample`).
- **Order splitting.** The loop ends if and only if the configured chunk is positive or the first turn takes the whole order
  (`SplittingEndsIff`). A split order has a chunk below the exchange minimum exactly when the configured chunk is below it
  and the order does not end up as one chunk of at least the minimum (`NoSmallChunkIff`).
- **Box-spread submission report.** After a failed order that was not split the whole order is reported as filled size, and
  an exception after an accepted chunk is reported as success (`OneSideReportsAcceptedIff`, `OneSideExample`). The latency bot's own report
  has neither trait (`SingleReportsAccepted`).
- **Rate limiter, spacing.** Where every sleep lasts as long as asked on the clock the limiter reads, eleven consecutive
  requests span at least a second in every run (`ElevenSpanASecond`). A timer that fires early breaks this: the list grows
  past ten, and a later call then lets the eleventh request through too soon (`EarlySleepExample`). In general the spacing
  holds over a run if and only if each request is recorded when all but the nine youngest recent ones are a second old
  (`RunSpacedIff`), and list and spacing both stay in order if and only if the second filter of a full window always drops
  something (`AdmitTracksIff`, `RunTracksIff`).
- **Rate limiter, kept list.** The list a call leaves behind is exactly the history younger than a second if and only if no
  entry turns a second old between the reading of the clock that kept it and the recorded time (`LeavesRecentIff`,
  `RunLeavesRecentIff`). Otherwise an entry that is too old stays until the next call's first filter (`LeftoverExample`,
  `FirstFilterIsExact`), and because the second filter reads the clock for every entry, the list need not even be a suffix
  of the history (`NoSuffixExample`).
- **Scaled orders.** The momentum strategy does not compare a scaled order with the exchange minimum again; it keeps the
  minimum exactly when the bet limit pays for it at the truncated ratio (`ScaledMinimumIff`, `UndersizedExample`).
- **Restart.** A restart keeps the losing streak, also on a later day. The count is that of today's traded windows except
  when the bot came up today with a count and every window traded since has lost (`StreakIsTodaysRunIff`, `StreakExample`).
  A restart also drops a streak pause that is running (`RestartKeepsStreak`): a pause is in force only if a window settled
  since the start triggered it (`PausedIff`), so after a restart trading is allowed inside the old pause.
- **Position ledger.** `openPosition` overwrites a record but adds to the counter, so it keeps the books exactly when the
  market has no open position, or one of the same vertical that cost nothing (`OpeningBalancedIff`, `OpenedTwiceExample`); the executor's
  duplicate check keeps every run inside that condition (`RunBalanced`).
- **NaN prices.** A price change whose price parses to NaN enters the HASH while Redis refuses its score, so keys and
  members of a side agree exactly when no stored price parses to NaN (`MembersEqualKeysIff`, `NaNPartsThem`).
- **Text that decodes.** Two different texts can decode to the same bytes: encoding gives a text back exactly when its
  unused bits are zero (`CanonicalTextIff`).

## Model

| member | source | states |
|---|---|---|
| Rounding.TruncatedAverageTest | services/strategies/btc-5m/src/arb-scanner.ts:203-209 | comparing a quotient truncated to any number of digits with a representable threshold is comparing cost with threshold times shares |
| Rounding.NestedTruncation | services/strategies/btc-5m-momentum/src/momentum-signal.ts:94-102 | dividing with truncation to many digits and then cutting to two decimals is one truncated division |
| Rounding.TruncatedBounds | services/strategies/btc-5m-latency/src/orderbook-checker.ts:90-100 | a quotient truncated to kept digits is short by less than the last one |
| Rounding.TruncDivAtLeast | services/strategies/btc-5m/src/arb-scanner.ts:185-192 | q is at most a quotient truncated toward zero exactly when q whole copies of the divisor fit |
| Book.UnitPriceMonotone | services/strategies/btc-5m/src/arb-scanner.ts:116-118 | on a sorted ask side the price of the next unit never falls and is positive |
| Book.CostWithinLevel | services/strategies/btc-5m/src/arb-scanner.ts:172-178 | stepping through a level adds shares times its price to the unit-by-unit cost of the cheapest units |
| Book.AverageNeverFalls | services/strategies/btc-5m/src/arb-scanner.ts:170-246 | convexity: the average price of the walked prefix never falls as it grows |
| Book.CostGrows | services/strategies/btc-5m/src/arb-scanner.ts:170-246 | every further unit costs at least one tick |
| Book.WalkIsCheapest | services/strategies/btc-5m/src/arb-scanner.ts:170-246 | greedy optimality: no allocation of n units across the levels costs less than the walk of n units |
| Book.WalkAttainsPrefixCost | services/strategies/btc-5m/src/arb-scanner.ts:170-246 | the walk is itself such an allocation, and its cost is the prefix cost |
| Cutoff.KeepsDownward | services/strategies/btc-5m/src/arb-scanner.ts:295-306 | the amounts that keep the average below the threshold are downward closed |
| Cutoff.BinarySearchCutoff | services/strategies/btc-5m/src/arb-scanner.ts:272-310 | unless the search stalls it ends, and returns the greatest grid amount of the step that keeps the average strictly below the threshold, 0 if none does |
| Cutoff.EndsIffNotStalling | services/strategies/btc-5m/src/arb-scanner.ts:290-310 | the loop ends if and only if the search does not stall, and it never stalls for a step on the grid |
| Cutoff.StallExample | services/strategies/btc-5m/src/arb-scanner.ts:290-310 | a concrete off-grid step on which the loop runs forever |
| BoxSpread.FindOptimalFill | services/strategies/btc-5m/src/arb-scanner.ts:142-266 | null exactly when the size the sweep arrives at is under 5 shares; otherwise that size, its cheapest costs on both sides, neither above the cap, and the last prices touched; at most as many rounds as there are levels |
| BoxSpread.StepAdvances | services/strategies/btc-5m/src/arb-scanner.ts:234-245 | a whole step under both limits advances at least one cursor and leads to a loop head where both (index, consumed) pairs locate the total in their books |
| BoxSpread.StepEffect | services/strategies/btc-5m/src/arb-scanner.ts:172-178 | what x shares of a step do to both running costs and both worst prices |
| BoxSpread.CapRoom | services/strategies/btc-5m/src/arb-scanner.ts:179-192 | inside a step the cap allows exactly the truncated quotients of the room left |
| BoxSpread.CapEndsSweep | services/strategies/btc-5m/src/arb-scanner.ts:179-201 | when the cap fires the sweep ends at K, the greatest size under the cap |
| BoxSpread.CutoffEndsSweep | services/strategies/btc-5m/src/arb-scanner.ts:203-225 | when the threshold is crossed in a step the cap allows, the sweep ends at P, the greatest profitable size |
| BoxSpread.SearchIsValid | services/strategies/btc-5m/src/arb-scanner.ts:207-213 | the sweep calls the binary search as the search expects, with a position under the threshold and a whole step that is not |
| BoxSpread.SizeWithinCap | services/strategies/btc-5m/src/arb-scanner.ts:179-201 | on every exit both side costs are at most the cap |
| BoxSpread.ProfitableIffSomeAllocation | services/strategies/btc-5m/src/arb-scanner.ts:142-266 | a size is profitable exactly when some way of buying it on both books costs less than the threshold per share |
| BoxSpread.UnderBothLimits | services/strategies/btc-5m/src/arb-scanner.ts:142-266 | the sizes under both limits are those up to min(P, K) |
| BoxSpread.GreatestUnderBothLimitsIff | services/strategies/btc-5m/src/arb-scanner.ts:179-225 | the sweep returns the greatest size under both limits if and only if not P < K inside the same step |
| BoxSpread.BelowThresholdIff | services/strategies/btc-5m/src/arb-scanner.ts:179-225 | what the sweep returns is below the threshold under exactly that condition |
| BoxSpread.MaximalWithoutCap | services/strategies/btc-5m/src/arb-scanner.ts:142-266 | maximality: where the cap allows the end of the step that holds P, the size is the greatest whose cheapest combined cost is strictly below the threshold per share |
| BoxSpread.MaximalIff | services/strategies/btc-5m/src/arb-scanner.ts:142-266 | the sweep arrives at that maximum, whatever the cap, if and only if the cap allows that step or K is P |
| BoxSpread.Scan | services/strategies/btc-5m/src/arb-scanner.ts:47-104 | a found opportunity is an exact fill of at least 5 shares with the minimum edge, within the threshold when the minimum edge covers its margin; otherwise there was none, or its edge was too small |
| BoxSpread.EdgeMeansProfit | services/strategies/btc-5m/src/arb-scanner.ts:73-78 | whatever passes the edge filter costs less than the dollar per share that one side pays |
| BoxSpread.OvershootIsFilteredOut | services/strategies/btc-5m/src/arb-scanner.ts:73-78 | a fill strictly above the threshold does not pass a minimum edge of at least the margin the threshold leaves below a dollar, although a profitable size within the cap exists |
| BoxSpread.FilterKeepsThresholdIff | services/strategies/btc-5m/src/arb-scanner.ts:73-78 | everything scan returns, on all books and caps, averages at most the threshold if and only if the minimum edge is at least the threshold's margin (or there is one level a side, or a threshold of two ticks) |
| BoxSpread.UncoveredOvershoot | services/strategies/btc-5m/src/arb-scanner.ts:73-78 | for every other configuration, books and a cap on which an overshoot passes |
| BoxSpread.OvershootPassesExample | services/strategies/btc-5m/src/arb-scanner.ts:73-78 | concrete books on which 500 shares averaging 0.988 pass a threshold of 0.985 at a minimum edge of one basis point |
| BoxSpread.OvershootExample | services/strategies/btc-5m/src/arb-scanner.ts:179-201 | concrete books on which the cap branch returns a size averaging over a dollar |
| Liquidity.GetAvailableLiquidity | services/strategies/btc-5m-latency/src/orderbook-checker.ts:56-100 | takes exactly min(maxShares, depth at prices up to maxPrice), null exactly when that is under 5 shares, with its cheapest cost and last price |
| Liquidity.EligibleWithinPrice | services/strategies/btc-5m-latency/src/orderbook-checker.ts:67-70 | every unit the walk may take is priced within the limit |
| Liquidity.TakesIff | services/strategies/btc-5m-latency/src/orderbook-checker.ts:56-100 | the walk takes a unit if and only if the book has it at a price within the limit and the size limit allows it, and fails exactly under 500 units (5 shares) |
| Liquidity.WalkPrices | services/strategies/btc-5m-latency/src/orderbook-checker.ts:90-100 | best ask <= average <= worst price <= limit, also for the truncated average |
| Liquidity.CountLevels | services/strategies/btc-5m-latency/src/paper-simulator.ts:52-61 | the separate counting loop stops at the level that holds the last share of the fill |
| Liquidity.SimulateFill | services/strategies/btc-5m-latency/src/paper-simulator.ts:21-98 | an order fills on paper exactly when the walk does, with the walk's shares and cost, its truncated average, the level count of the walk, and fill ratio and slippage each short by less than the last kept digit |
| Liquidity.PaperFillConsistent | services/strategies/btc-5m-latency/src/paper-simulator.ts:63-98 | reported average times shares is the cost, short by less than the last kept digit of the average; likewise ratio and slippage |
| Liquidity.ScaledWithinBudget | services/strategies/btc-5m-momentum/src/momentum-signal.ts:94-102 | the scaled size is within the budget at the average price, reported cost included, and short of the exact proportion by less than one unit plus the truncation |
| Liquidity.ReportedAtAverage | services/strategies/btc-5m-momentum/src/momentum-signal.ts:99-112 | the reported cost is the order's shares at the walk's average price, short by at most a kept digit per share |
| Liquidity.SmallerWalkWithinBudget | services/strategies/btc-5m-momentum/src/momentum-signal.ts:94-102 | by convexity the scaled size walked anew is within the budget too |
| Liquidity.ScaledMinimumIff | services/strategies/btc-5m-momentum/src/momentum-signal.ts:94-102 | the scaled size, which is not compared with the minimum again, keeps 5 shares if and only if the budget pays for them at the truncated ratio |
| Liquidity.UndersizedExample | services/strategies/btc-5m-momentum/src/momentum-signal.ts:94-102 | a concrete book on which the scaled order falls under 5 shares |
| Liquidity.NoLimit | services/strategies/btc-5m-momentum/src/momentum-signal.ts:78-86 | without a lowest entry price, where the size limit is infinite or not a number, everything up to the highest price is walked |
| Liquidity.EvaluateMomentum | services/strategies/btc-5m-momentum/src/momentum-signal.ts:30-130 | an order exists exactly when the gates pass and the side's asks hold 5 shares within the price and size limits; its entry price is that of the last unit of the unscaled walk, its size the walk's, or when that costs more than the bet limit the limit's proportion of it to the unit and the truncation, its reported cost the shares at the walk's average, bounded from both sides; both costs are within the limit; it has 5 shares exactly when the limit pays for them at the truncated ratio |
| Orders.SplitOrder | services/strategies/btc-5m-latency/src/trade-executor.ts:199-211 | the splitting loop computes the chunks of the order |
| Orders.SplitIsExact | services/strategies/btc-5m-latency/src/trade-executor.ts:199-211 | chunks sum to the order, all but the last are full, every one lies in [5, maxOrderShares + 5) shares when a full chunk and the order reach 5 |
| Orders.NoSmallChunkIff | services/strategies/btc-5m-latency/src/trade-executor.ts:199-211 | no chunk is under 5 shares exactly when a full chunk is not, or the whole order ends up in one chunk |
| Orders.SplittingEndsIff | services/strategies/btc-5m-latency/src/trade-executor.ts:201-211 | the loop ends if and only if the chunk size is positive or the first turn takes the whole order |
| Orders.ExecuteChunked | services/strategies/btc-5m-latency/src/trade-executor.ts:192-266 | for every response sequence, exceptions included, the reported size is the sum of the accepted prefix of chunks, with their order ids |
| Orders.ExecuteSingle | services/strategies/btc-5m-latency/src/trade-executor.ts:114-190 | paper, dry run without a simulator, single or split: the report for every venue and response |
| Orders.ExecutedWithinOrder | services/strategies/btc-5m-latency/src/trade-executor.ts:114-266 | a success buys more than nothing, at most the order, at a positive price within the limit; a failure buys nothing |
| Orders.PaperReports | services/strategies/btc-5m-latency/src/trade-executor.ts:114-150 | on paper a report succeeds exactly when 5 shares are asked and for sale at the limit; it buys exactly the units within the limit up to the order, at their average price short by less than a kept digit |
| Orders.SingleReportsAccepted | services/strategies/btc-5m-latency/src/trade-executor.ts:114-266 | live, the reported size is what the exchange accepted, at the limit price, success means there is some, and the order ids are those the accepted chunks came with, none after an exception |
| Orders.ExecuteOneSide | services/strategies/btc-5m/src/trade-executor.ts:164-283 | the box-spread bot's report for every response sequence |
| Orders.OneSideReportsAcceptedIff | services/strategies/btc-5m/src/trade-executor.ts:170-283 | it reports the order price, the accepted shares except after a failed unsplit order, and success exactly when everything was accepted except after an exception that follows an accepted chunk |
| Orders.OneSideExample | services/strategies/btc-5m/src/trade-executor.ts:170-283 | five refused shares are reported as filled size, and 10 of 15 shares before an exception as a success |
| Orders.MakerAmountShort | services/strategies/btc-5m-latency/src/trade-executor.ts:282-286 | the USDC amount is a whole number of cents, never above price times shares and short by less than a cent |
| Orders.TotalsShort | services/strategies/btc-5m-latency/src/trade-executor.ts:222-247 | both facts summed over any chunks |
| Orders.SplitAmounts | services/strategies/btc-5m/src/trade-executor.ts:351-358 | over all chunks of an order the USDC total never exceeds price times shares and falls short by less than a cent per chunk, while the share total is exact |
| RateLimiter.RecentIsSuffix | services/strategies/btc-5m-latency/src/trade-executor.ts:353-355 | filtering a sorted history by age keeps a suffix of it |
| RateLimiter.FirstFilterIsExact | services/strategies/btc-5m-latency/src/trade-executor.ts:353-355 | after a call's first filter the kept list is exactly the suffix of the full history younger than a second |
| RateLimiter.AdmitAgrees | services/strategies/btc-5m-latency/src/trade-executor.ts:352-365 | one call keeps the list in agreement with the history on all that is younger than a second, however long it slept |
| RateLimiter.AdmitTracksIff | services/strategies/btc-5m-latency/src/trade-executor.ts:352-365 | one call keeps list and spacing, at most ten kept and eleven requests over at least a second, if and only if its second filter, where it comes to that, drops something |
| RateLimiter.SpacedCallIff | services/strategies/btc-5m-latency/src/trade-executor.ts:352-365 | a request keeps the spacing if and only if all but the nine youngest of the recent ones are a second old when it is recorded |
| RateLimiter.HonouredDrops | services/strategies/btc-5m-latency/src/trade-executor.ts:356-361 | a sleep that lasts as long as asked makes the second filter drop something |
| RateLimiter.EarlySleepExample | services/strategies/btc-5m-latency/src/trade-executor.ts:356-361 | a sleep that ends a millisecond early leaves eleven entries, and after the next call, which sleeps as asked, eleven requests span a tenth of a second |
| RateLimiter.LeavesRecentIff | services/strategies/btc-5m-latency/src/trade-executor.ts:352-365 | the list a call leaves behind is exactly the part of the full history younger than a second if and only if no entry turns a second old between the clock reading that kept it and the recorded time |
| RateLimiter.LeftoverExample | services/strategies/btc-5m-latency/src/trade-executor.ts:352-365 | a concrete call that leaves an entry of exactly a second |
| RateLimiter.NoSuffixExample | services/strategies/btc-5m-latency/src/trade-executor.ts:361-361 | a concrete call whose second filter, reading the clock anew for each entry, keeps an entry and drops a younger one |
| RateLimiter.ElevenSpanASecond | services/strategies/btc-5m/src/trade-executor.ts:440-453 | over every run whose sleeps last as long as asked, requests i and i + 10 are at least 1000 ms apart |
| RateLimiter.RunSpacedIff | services/strategies/btc-5m-latency/src/trade-executor.ts:352-365 | over every run, whatever its sleeps, any eleven consecutive recorded requests span at least 1000 ms if and only if each request is recorded in time |
| RateLimiter.RunTracksIff | services/strategies/btc-5m-latency/src/trade-executor.ts:352-365 | after every call of a run the list is short and the requests are spaced if and only if the second filter always drops something |
| RateLimiter.RunAgrees | services/strategies/btc-5m-latency/src/trade-executor.ts:352-365 | every run keeps the agreement, and its history is the list of recorded times |
| RateLimiter.RunLeavesRecentIff | services/strategies/btc-5m-latency/src/trade-executor.ts:352-365 | the exact condition for every call of every run |
| RateLimiter.Limiter.WaitForRateLimit | services/strategies/btc-5m-latency/src/trade-executor.ts:352-365 | the kept list after a call is what is recent plus the recorded time, exactly the recent history if and only if nothing aged meanwhile; list and spacing stay in order if and only if a full window drops something |
| RiskState.DivergenceStep | services/strategies/btc-5m-latency/src/risk-manager.ts:147-176 | divergenceStart is the time of the first check of the current unbroken over-limit run (0 if none), and the halt is on exactly when that run has lasted the configured time |
| RiskState.HaltsStep | services/strategies/btc-5m-latency/src/risk-manager.ts:157-160 | the event counter counts the beginnings of halts |
| RiskState.DayStep | services/strategies/btc-5m-latency/src/risk-manager.ts:222-273 | daily profit and volume are those of the traded windows of the current date; the streak is the losing run they end with |
| RiskState.CountsStep | services/strategies/btc-5m-latency/src/risk-manager.ts:222-273 | traded + skipped = total, wins + losses = traded, session profit, total profit and total loss are the sums over all traded windows |
| RiskState.PauseStep | services/strategies/btc-5m-latency/src/risk-manager.ts:262-268 | the pause is the one the latest streak of the current date has set, 0 without one |
| RiskState.PauseEffect | services/strategies/btc-5m-latency/src/risk-manager.ts:306-318 | a triggering loss sets the pause, a later date clears it, anything else leaves it |
| RiskState.StepExplained | services/strategies/btc-5m-latency/src/risk-manager.ts:92-318 | one event keeps the whole explanation |
| RiskState.RunExplained | services/strategies/btc-5m-latency/src/risk-manager.ts:92-318 | after every history the clock allows, the risk state is the function of the history that the definitions read off it |
| RiskState.StreakIsTodaysRunIff | services/strategies/btc-5m-latency/src/risk-manager.ts:222-273 | the streak counter is today's trailing losing run exactly when no count was carried in from before a restart |
| RiskState.StreakExample | services/strategies/btc-5m-latency/src/risk-manager.ts:38-90 | two losses from before a restart and one loss today count as three |
| RiskState.PausedIff | services/strategies/btc-5m-latency/src/risk-manager.ts:262-268 | a pause is in force exactly when a window settled since the start, on the current date, triggered it and it is not over |
| RiskManager.ReasonsIff | services/strategies/btc-5m-latency/src/risk-manager.ts:105-138 | each field canTrade compares is read off the history: the day's and the session's profit on record, a pause a window of the current date triggered and that is not over, an over-limit run that has lasted the configured time |
| RiskManager.LatencyRiskManager.Initialize | services/strategies/btc-5m-latency/src/risk-manager.ts:38-90 | the stored counters and daily figures, the daily ones only if stored for today, no session profit, no pause, no divergence; without stored figures nothing changes |
| RiskManager.LatencyRiskManager.CheckDailyReset | services/strategies/btc-5m-latency/src/risk-manager.ts:306-318 | a new date clears the daily figures, the streak and the pause, and nothing else |
| RiskManager.LatencyRiskManager.CanTrade | services/strategies/btc-5m-latency/src/risk-manager.ts:92-141 | one if-and-only-if per verdict, in the order of the checks and in the figures of the history: global switch off, latency switch off, day's profit at most minus the daily limit, session profit at most minus the drawdown limit, a pause in force, a divergence halt, else allowed; the switch is turned off exactly when both are on and the day's loss has reached its limit |
| RiskManager.LatencyRiskManager.CheckOracleDivergence | services/strategies/btc-5m-latency/src/risk-manager.ts:147-176 | a check is over the limit when the prices are that far apart either way; the halt flag is exactly what the history of checks says |
| RiskManager.LatencyRiskManager.RecordWindowResult | services/strategies/btc-5m-latency/src/risk-manager.ts:222-273 | the fields remain the function of the history with the settled window added |
| RiskManager.LatencyRiskManager.ResetWindowPosition | services/strategies/btc-5m-latency/src/risk-manager.ts:198-202 | a window starts with nothing spent; nothing else changes |
| RiskManager.LatencyRiskManager.AddWindowPosition | services/strategies/btc-5m-latency/src/risk-manager.ts:207-213 | adds to the spend of one side only |
| WindowTracker.AveragedBack | services/strategies/btc-5m-latency/src/window-tracker.ts:72-84 | the weighted average times the shares gives the cost back |
| WindowTracker.RecordedConserved | services/strategies/btc-5m-latency/src/window-tracker.ts:60-114 | a fill keeps shares, cost and average of both sides those of the recorded fills |
| WindowTracker.FillsConserved | services/strategies/btc-5m-latency/src/window-tracker.ts:60-114 | for any fills, average cost times shares summed over both sides is the volume |
| WindowTracker.SettledGross | services/strategies/btc-5m-latency/src/window-tracker.ts:147-154 | after any fills a window settles Up exactly when the final price is at least the price to beat, and its P&L is the shares filled on the winning side at a dollar each less the cost of all fills |
| WindowTracker.ResolvedGross | services/strategies/btc-5m-latency/src/index.ts:343-377 | resolved, the P&L is the payout of the winning shares less the cost of all fills; unresolved, the full loss |
| WindowTracker.RecordedIsLowerBound | services/strategies/btc-5m-latency/src/index.ts:363-375 | what is recorded for a window is at most what it really made, with equality exactly when it resolved or holds no winning shares |
| WindowTracker.RecordedNeverExceedsTrue | services/strategies/btc-5m-latency/src/index.ts:343-377 | the same for the profit over any windows |
| WindowTracker.WindowPnL.Record | services/strategies/btc-5m-latency/src/window-tracker.ts:60-114 | a fill in place |
| WindowTracker.WindowPnL.Settle | services/strategies/btc-5m-latency/src/window-tracker.ts:147-154 | Up exactly when the final price is at least the price to beat; P&L is the shares of that side at a dollar each less everything spent |
| WindowTracker.WindowPnL.Resolve | services/strategies/btc-5m-latency/src/index.ts:349-375 | the resolved side overrules the outcome and pays; without a resolution the outcome stays and the loss is full |
| WindowTracker.WindowTracker.StartWindow | services/strategies/btc-5m-latency/src/window-tracker.ts:22-55 | an empty record under the timestamp; of more than ten windows exactly the oldest is dropped |
| WindowTracker.NewestIsKept | services/strategies/btc-5m-latency/src/window-tracker.ts:48-53 | a window that is started no earlier than the others is never the one that is dropped |
| WindowTracker.WindowTracker.RecordFill | services/strategies/btc-5m-latency/src/window-tracker.ts:60-114 | a fill changes the record of its window and no other; without one it is dropped |
| WindowTracker.WindowTracker.SettleWindow | services/strategies/btc-5m-latency/src/window-tracker.ts:119-170 | settles and hands out the record; without one an empty record with no outcome |
| LatencySignal.KellyBounds | services/strategies/btc-5m-latency/src/probability-model.ts:98-119 | the size is within the remaining budget and the multiplier's share of the bankroll, and positive exactly when there is an edge, a price below a dollar, bankroll and budget |
| LatencySignal.KellyIs | services/strategies/btc-5m-latency/src/probability-model.ts:98-119 | the dollars times (a dollar less the price) are edge times multiplier times bankroll, or the dollars are what is left of the window budget, whichever is less |
| LatencySignal.DecideSide | services/strategies/btc-5m-latency/src/latency-signal.ts:130-214 | the decision of one side, none where the loop body skips it |
| LatencySignal.SideDecidesIff | services/strategies/btc-5m-latency/src/latency-signal.ts:130-214 | a side is decided on if and only if its probability, the edge over its best ask, its budget, the depth at the limit and the minimum size all suffice, as inequalities; the decision then has the Kelly shares the depth allows, at the limit price |
| LatencySignal.DecisionSound | services/strategies/btc-5m-latency/src/latency-signal.ts:138-213 | every decision: limit at most probability less the buffer, minimum edge, at least 5 shares, shares at the best ask within the remaining budget, walked cost between best ask and limit |
| LatencySignal.DecidedSound | services/strategies/btc-5m-latency/src/latency-signal.ts:118-128 | a decision is on an allowed side, never opposite to one with money spent |
| LatencySignal.DecidesIff | services/strategies/btc-5m-latency/src/latency-signal.ts:73-217 | a tick leads to a decision on a side if and only if the feed is fresh, the median and the price to beat known, volatility, absolute delta and absolute z-score at their minima, the side allowed, the side qualifies, and, for down, up does not |
| LatencySignal.FresherIs | services/strategies/btc-5m-latency/src/latency-signal.ts:219-239 | a book fetched at most 499 ms ago is used again, one fetched 500 ms ago is not |
| LatencySignal.Signal.ResetWindow | services/strategies/btc-5m-latency/src/latency-signal.ts:50-56 | a window starts with nothing spent and nothing cached |
| LatencySignal.Signal.RecordFill | services/strategies/btc-5m-latency/src/latency-signal.ts:61-67 | adds to the spend of one side only |
| LatencySignal.Signal.GetCachedOrderBook | services/strategies/btc-5m-latency/src/latency-signal.ts:219-239 | a cached book younger than 500 ms, else the fetched one, which is then cached |
| LatencySignal.Signal.Evaluate | services/strategies/btc-5m-latency/src/latency-signal.ts:73-217 | decides on a side exactly when that is warranted on the reading, the spend and the books it looks at, Up before Down; which books are fetched and cached; nothing spent changes |
| LatencyWindow.OneSided | services/strategies/btc-5m-latency/src/index.ts:265-306 | in every reachable state of a window all attempts are on one side and nothing is spent or filled on the other |
| LatencyWindow.SpendPositive | services/strategies/btc-5m-latency/src/index.ts:281-287 | each attempt, failed ones included, adds a positive amount to the spend |
| LatencyWindow.SpendSplits | services/strategies/btc-5m-latency/src/index.ts:281-287 | the signal's spend exceeds the money in fills by exactly the intended cost of the failed attempts |
| LatencyWindow.FilledIsTracked | services/strategies/btc-5m-latency/src/index.ts:289-300 | money in fills is the cost of the fills handed to the tracker |
| LatencyWindow.FilledAtMostSpent | services/strategies/btc-5m-latency/src/index.ts:281-300 | money in fills never exceeds the spend |
| LatencyWindow.BudgetLeftBefore | services/strategies/btc-5m-latency/src/latency-signal.ts:138-213 | before each attempt less than the budget is spent, its shares at the best ask fit what is left, and its limit is at most probability less buffer |
| LatencyWindow.SpendBound | services/strategies/btc-5m-latency/src/latency-signal.ts:138-213 | over any run the spend is at most the budget times the largest ratio of limit to best ask used |
| LatencyWindow.LatencyBot.RiskGate | services/strategies/btc-5m-latency/src/index.ts:236-257 | the oracle comparison comes first, when there are prices, then the question, when both switches are on; allowed exactly when both are on and nothing in the history forbids trading |
| LatencyWindow.LatencyBot.Trade | services/strategies/btc-5m-latency/src/index.ts:265-306 | executes a decision and keeps all three ledgers in agreement with the attempts |
| LatencyWindow.LatencyBot.Turn | services/strategies/btc-5m-latency/src/index.ts:236-306 | one turn takes the loop to the next state of the run over ticks: when the risk check is due and what stops the loop; an attempt exactly when the turn goes on, feeds are healthy and the signal decides, executed as the exchange answers |
| LatencyWindow.OpenIff | services/strategies/btc-5m-latency/src/index.ts:221-262 | the loop still runs at a tick if and only if no earlier tick fell under minTimeRemaining and every risk check due before it allowed trading; ticks above maxTimeRemaining are only waited out |
| LatencyWindow.LastCheckIs | services/strategies/btc-5m-latency/src/index.ts:236-257 | the check a due one is measured from is that of the latest tick on which one was due, a check being due a second or more after it |
| LatencyWindow.BookIsRecent | services/strategies/btc-5m-latency/src/latency-signal.ts:219-239 | the book a side is judged on is fetched on the tick or by an earlier tick of the window less than 500 ms ago |
| LatencyWindow.TickTradesIff | services/strategies/btc-5m-latency/src/index.ts:221-306 | a tick adds an attempt if and only if it is inside the hours on healthy feeds, the loop runs through it, and a decision is warranted on what is spent and cached by then |
| LatencyWindow.StateComplete | services/strategies/btc-5m-latency/src/index.ts:221-306 | so after any ticks the attempts are exactly those of the ticks that should trade, each on its own tick, in order, with the decision and the answer of that tick |
| LatencyWindow.LatencyBot.TradeWindow | services/strategies/btc-5m-latency/src/index.ts:221-316 | over the whole loop: the ledgers agree; a tick carries an attempt if and only if it is inside the trading hours on healthy feeds, the signal decides on what is spent and cached by then, no earlier tick fell under minTimeRemaining and no due risk check up to it forbade trading; every attempt lies under a clearance of this window less than a second old when the loop came to the tick; the risk history is that of the run |
| LatencyWindow.LatencyBot.SettleAndRecord | services/strategies/btc-5m-latency/src/index.ts:343-388 | the risk manager is told the settled and resolved record of exactly the fills made |
| LatencyWindow.LatencyBot.ProcessWindow | services/strategies/btc-5m-latency/src/index.ts:184-389 | a whole window: exactly the attempts that should be made, none elsewhere, agreeing ledgers, one settled record at the end; tracked if and only if it is not the oldest of more than ten, so always on a clock that does not go back |
| LatencyWindow.LatencyBot.MainLoop | services/strategies/btc-5m-latency/src/index.ts:167-182 | over any sequence of windows on a clock that does not go back, every window with a market and a price is traded completely, tracked and recorded with exactly its own fills |
| LatencyWindow.RecordOfWindow | services/strategies/btc-5m-latency/src/index.ts:343-388 | what is recorded is the resolution applied to the settlement of the recorded fills |
| LatencySession.SessionTrades | services/strategies/btc-5m-latency/src/index.ts:167-388 | over any session the traded windows of a day, in the risk manager's history, are the records of the windows settled on it with a fill |
| LatencySession.SessionProfitNeverExceedsTrue | services/strategies/btc-5m-latency/src/index.ts:343-377 | after any session the day's recorded profit is at most the true profit of its windows, however unresolved windows end, and equal to it exactly when none of those holds shares of the winning side |
| LatencySession.WindowLoss | services/strategies/btc-5m-latency/src/index.ts:343-388 | a window loses at most the budget times the largest ratio of limit to best ask |
| LatencySession.SessionLossBounded | services/strategies/btc-5m-latency/src/risk-manager.ts:92-141 | at every moment of any session the day's recorded loss is at most the daily limit plus the window budget times that ratio, unless the bot started below |
| LatencySession.WindowEarns | services/strategies/btc-5m-latency/src/risk-manager.ts:222-273 | a window moves the session's profit by its own gross, and only with a fill |
| LatencySession.SessionDrawdownBounded | services/strategies/btc-5m-latency/src/risk-manager.ts:92-141 | at every moment of any session the session's recorded loss is at most the drawdown limit plus the window budget times that ratio, unless the bot started below |
| AlphaRisk.KellyBetBounds | services/trading/alpha-executor/src/kelly.ts:7-26 | a positive bet is within its share of the bankroll and the liquidity, and needs an edge after fees, an ask of at most one and a bankroll |
| AlphaRisk.KellyBetIff | services/trading/alpha-executor/src/kelly.ts:7-26 | with an edge after fees, a bankroll and an ask of at most one the bet is the least of three: at the odds of the ask it stakes multiplier times bankroll times edge, or it is its share of the bankroll, or the liquidity |
| AlphaRisk.PhaseNumbers | services/trading/alpha-executor/src/risk-manager.ts:56-80 | the multiplier, trade share, exposure share and drawdown limit of each phase, and the balance (10000, 100000) and traded windows (50, 200) from which it is in force |
| AlphaRisk.NoNumberNoRoom | services/trading/alpha-executor/src/risk-manager.ts:82-115 | a bet that is not a number, which takes an ask of exactly one and an empty bankroll, finds no room under the exposure cap |
| AlphaRisk.PassedIff | services/trading/alpha-executor/src/risk-manager.ts:206-242 | a size passes exactly when drawdown, daily loss with half of the open sports exposure, vertical and market cap allow it and the room under the exposure cap holds it, or at least half of the phase's trade; what passes is the size cut to the phase's trade and then to the room |
| AlphaRisk.BooksIff | services/trading/alpha-executor/src/risk-manager.ts:138-204 | the first four checks together are the plain limits on balance, peak, day's loss and vertical |
| AlphaRisk.PassedWithinExposureCap | services/trading/alpha-executor/src/risk-manager.ts:82-115 | a size that passes all checks never takes the exposure past the cap |
| AlphaRisk.KellySizedWithinCaps | services/trading/alpha-executor/src/risk-manager.ts:117-136 | a Kelly-sized bet passes the per-trade and per-market checks untouched |
| AlphaRisk.OnlyExposureAdjusts | services/trading/alpha-executor/src/risk-manager.ts:206-242 | so only the exposure cap can change it, to the whole dollars of the room left |
| AlphaLedger.OpeningBalancedIff | services/trading/alpha-executor/src/position-manager.ts:19-29 | opening keeps counter, records and verticals in balance exactly when the market has no open position, or one of the same vertical that cost nothing |
| AlphaLedger.OpenedTwiceExample | services/trading/alpha-executor/src/position-manager.ts:19-29 | a dollar position opened twice is counted as two dollars |
| AlphaLedger.ClosingBalanced | services/trading/alpha-executor/src/position-manager.ts:31-42 | closing keeps them in balance |
| AlphaLedger.OpenThenClose | services/trading/alpha-executor/src/position-manager.ts:19-42 | closing what was opened restores records, counter and verticals |
| AlphaLedger.ExposureIsSumOfVerticals | services/trading/alpha-executor/src/position-manager.ts:64-72 | the counter is the sum of the exposures of the five verticals |
| AlphaLedger.PositionManager.OpenPosition | services/trading/alpha-executor/src/position-manager.ts:19-29 | the record, the counter and the vertical of the position |
| AlphaLedger.PositionManager.ClosePosition | services/trading/alpha-executor/src/position-manager.ts:31-42 | hands out and removes the record, its cost and its membership; nothing without one |
| AlphaLedger.PositionManager.GetVerticalExposure | services/trading/alpha-executor/src/position-manager.ts:64-72 | the sum of the open entry costs of the vertical, in whatever order its members come |
| AlphaLedger.PositionManager.GetAllOpenPositions | services/trading/alpha-executor/src/position-manager.ts:74-84 | all open records, each once |
| AlphaExecutor.SubmitChunks | services/trading/alpha-executor/src/index.ts:220-270 | the loop buys as many chunks as are accepted in a row, up to the order |
| AlphaExecutor.BoughtIs | services/trading/alpha-executor/src/index.ts:207-275 | shares are bought exactly when the size pays for one and, outside a dry run, the first chunk is accepted: the whole shares the size pays for, or as many as the chunks accepted in a row hold |
| AlphaExecutor.SizeIff | services/trading/alpha-executor/src/signal-processor.ts:32-126 | a signal is accepted with a size if and only if, on the figures themselves, it is no older than its time to live, edge and liquidity are positive, confidence is above the ask, its market is not remembered from the last 5000 ms nor open, balance, peak, daily loss and vertical permit it, and Kelly bet and room make that size |
| AlphaExecutor.OpensIff | services/trading/alpha-executor/src/index.ts:129-354 | one message opens a position if and only if both switches are on, it is accepted with a size that pays for a share and, outside a dry run, its first chunk is accepted; which position, and that nothing else in the ledger changes |
| AlphaExecutor.TradeWithinCap | services/trading/alpha-executor/src/index.ts:277-292 | an accepted trade costs at most the size that passed the checks, its market was not open, and right after it the exposure is within the cap |
| AlphaExecutor.RunBalanced | services/trading/alpha-executor/src/index.ts:129-354 | in every reachable state the counter is the sum of open entry costs and of the five verticals |
| AlphaExecutor.RunWithinCap | services/trading/alpha-executor/src/index.ts:129-354 | right after each accepted trade of any run the sum of open entry costs is at most maxExposureRatio of the balance not reserved for the latency bot |
| AlphaExecutor.RunSizedWithinCaps | services/trading/alpha-executor/src/signal-processor.ts:70-126 | in every reachable state the per-trade and per-market checks leave the Kelly size alone |
| AlphaExecutor.Remembers | services/trading/alpha-executor/src/signal-processor.ts:49-68 | an accepted signal's market stays remembered at its time until the dedup window has passed |
| AlphaExecutor.AcceptedSignalsSpaced | services/trading/alpha-executor/src/signal-processor.ts:49-68 | two accepted signals for a market are more than 5000 ms apart |
| AlphaExecutor.AcceptedAtIff | services/trading/alpha-executor/src/signal-processor.ts:32-126 | over any run from a start with nothing remembered, a signal is accepted if and only if the conditions hold, remembering replaced by the run itself: every accepted signal for the market was recorded more than 5000 ms before |
| AlphaExecutor.MessageOpensIff | services/trading/alpha-executor/src/index.ts:129-354 | over any such run a message leaves its market open that was not open before if and only if it is accepted, its size pays for a share and, outside a dry run, its first chunk is accepted; the position opened, and that only it changes |
| AlphaExecutor.AlphaService.IsDuplicate | services/trading/alpha-executor/src/signal-processor.ts:49-60 | true exactly for a market remembered from at most 5000 ms ago; an older entry is dropped |
| AlphaExecutor.AlphaService.PruneStaleEntries | services/trading/alpha-executor/src/signal-processor.ts:128-135 | keeps exactly the entries of the last 5000 ms, and the ledger |
| AlphaExecutor.AlphaService.ProcessSignal | services/trading/alpha-executor/src/signal-processor.ts:86-126 | accepts with a size exactly under the conditions of SizeIff; an accepted signal is remembered at its time, one that was looked at drops an entry past the window, one that was not valid changes nothing |
| AlphaExecutor.AlphaService.HandleSignal | services/trading/alpha-executor/src/index.ts:129-354 | a market that was not open is open after a message exactly under the conditions of OpensIff, with that position, and nothing else changes in the ledger |
| BookStore.BookKeysDiffer | services/market-data/ingestion/src/redis_store.rs:178-180 | different tokens or sides never share a ZSET key |
| BookStore.SizesKeysDiffer | services/market-data/ingestion/src/redis_store.rs:178-180 | nor a HASH key |
| BookStore.UpdateRefines | services/market-data/ingestion/src/redis_store.rs:168-231 | one price change, valid or not, keeps the store a refinement of the plain map, deleting on a zero size |
| BookStore.EntriesRefine | services/market-data/ingestion/src/websocket.rs:342-357 | so does a message of changes, which stops at the first error |
| BookStore.ChangeHoldsIff | services/market-data/ingestion/src/redis_store.rs:168-231 | what a change does to any price of any side: refused for a price or size that does not parse or is below zero, else its price has its size, or is gone at size zero, and no other changes; a Redis error exactly for a price that is not a number with a size |
| BookStore.SnapshotHoldsIff | services/market-data/ingestion/src/redis_store.rs:313-352 | a snapshot leaves a price at a size exactly when the price is above zero and the last level that names it has that size |
| BookStore.SnapshotRefines | services/market-data/ingestion/src/redis_store.rs:291-366 | so does a snapshot, which replaces both sides of its token and touches no other |
| BookStore.RunRefines | services/market-data/ingestion/src/websocket.rs:342-396 | after any sequence of messages, however they fail, every HASH is the plain price-to-size fold and every ZSET score is its parsed member |
| BookStore.MembersEqualKeysIff | services/market-data/ingestion/src/redis_store.rs:168-366 | ZSET members equal HASH keys exactly when no stored price parses to NaN |
| BookStore.MembersEqualKeys | services/market-data/ingestion/src/redis_store.rs:168-366 | without NaN prices in the changes they agree after every run |
| BookStore.NaNPartsThem | services/market-data/ingestion/src/redis_store.rs:168-231 | one change with a NaN price parts them |
| BookStore.RedisStore.RunPipeline | services/market-data/ingestion/src/redis_store.rs:291-366 | every command takes effect but those refused, and an error is reported exactly when one was |
| BookStore.RedisStore.UpdatePriceLevel | services/market-data/ingestion/src/redis_store.rs:168-231 | the store after one change and the error returned; a refused change leaves the store alone |
| BookStore.RedisStore.ApplySnapshotAtomic | services/market-data/ingestion/src/redis_store.rs:291-366 | the store after a snapshot |
| BookStore.RedisStore.HandlePriceChanges | services/market-data/ingestion/src/websocket.rs:342-357 | the store after a message of changes, and its first error |
| BookStore.RedisStore.GetBest | services/market-data/ingestion/src/redis_store.rs:234-269 | after any messages: none exactly when the side holds no numeric price, else the first stored price from that end, members with equal scores in code point order, with the size stored for it |
| BookStore.BestIsUnique | services/market-data/ingestion/src/redis_store.rs:234-269 | that determines price and size; no stored bid is higher, no stored ask lower; the size is the stored one, zero where it does not parse |
| SessionToken.OctetsOfSextets | apps/dashboard/src/lib/dashboard-session.ts:9-23 | octets come back from their sextets (sections 3.2 and 4 of RFC 4648) |
| SessionToken.SextetsAreTheBits | apps/dashboard/src/lib/dashboard-session.ts:9-14 | read as numbers, three octets are their four sextets, and what is left over is followed by zero bits (section 4 of RFC 4648) |
| SessionToken.SextetsOfOctets | apps/dashboard/src/lib/dashboard-session.ts:9-23 | sextets come back from their octets exactly when their unused bits are zero |
| SessionToken.Base64UrlEncode | apps/dashboard/src/lib/dashboard-session.ts:9-14 | the encoder over btoa and its replacements gives the sextets in the URL alphabet of section 5 of RFC 4648, unpadded |
| SessionToken.Base64UrlDecode | apps/dashboard/src/lib/dashboard-session.ts:16-23 | the decoder over replacements, padding and atob, none where atob throws |
| SessionToken.RoundTrip | apps/dashboard/src/lib/dashboard-session.ts:9-23 | decoding an encoding gives the bytes back; no encoding contains a '.' or padding; its length |
| SessionToken.CanonicalTextIff | apps/dashboard/src/lib/dashboard-session.ts:9-23 | text in the alphabet decodes unless one character is left over, and is the encoding of the result exactly when its unused bits are zero |
| SessionToken.SplitsAtLastDot | apps/dashboard/src/lib/dashboard-session.ts:58-60 | splitting at the last '.' recovers both parts of any text whose second part has none |
| SessionToken.TokenSplits | apps/dashboard/src/lib/dashboard-session.ts:47-60 | a signed token has one '.', and splitting there recovers payload and signature |
| SessionToken.SignSessionToken | apps/dashboard/src/lib/dashboard-session.ts:47-55 | the token for a secret and a time |
| SessionToken.VerifySessionToken | apps/dashboard/src/lib/dashboard-session.ts:57-79 | true exactly for tokens that verify; every failure and exception is false |
| SessionToken.VerifiedIff | apps/dashboard/src/lib/dashboard-session.ts:57-79 | a text verifies exactly when it is an authentic payload and signature, neither empty, joined by a '.' not in the signature |
| SessionToken.SignedVerifiesIff | apps/dashboard/src/lib/dashboard-session.ts:47-79 | a token signed under a secret verifies under a secret exactly when both give the part before its '.' the same MAC and fewer than 604800 seconds have passed, for any JSON reader that reads an object with only a decimal numeral as its expiry |

## Left out

- HTTP, WebSocket and Redis transport, retries, reconnects, timers, SQLite, logging and publishing.
- Fetching, filtering and sorting of books: books arrive as `fetchOrderBook` leaves them. A negative `maxBookLevels` is not modelled.
- EIP-712 and request signing, nonces, HMAC and key import: the MAC is any function of secret and text; that the platform refuses an empty secret is not modelled.
- JSON and text decoding: the expiry read from decoded bytes is any function of them; `SignedVerifiesIff` asks only that it reads the decimal numeral of the expiry that was written.
- Liquidity.EvaluateMomentum: the expected profit, expected loss and distance in basis points that a momentum decision also carries are not part of it; nothing decides on them.
- `normalCdf`, `estimateProbability` and the win-probability models: floating-point functions; their results are arbitrary inputs.
- Floating-point rounding in the alpha executor and in the Rust code; `f64` values are exact rationals, infinities and NaN.
- `Decimal` digits beyond 20 in the sums, products and averages of the ledgers, which are exact here; truncation is modelled where a comparison or a size depends on it (Rounding, the sweep, the walk's average, paper fills, budget scaling, on-chain amounts).
- Concurrent callers of the rate limiter (`executeDual`) and overlapping alpha signal handlers.
- Reported figures that no decision reads: win rate, longest losing streak, last trade time, edge averages, window timestamps and market fields, paper-fill statistics, session reports, stats mirrors.
- `getTrendMultiplier`, `recordDailyLoss`, `updatePeakCapital`, book metadata, sequence numbers and market registration: single-branch facts.
- Market discovery, feeds, merging, balance guard, the signal scanners, sports and crypto models, dashboard pages and routes.
- LatencyWindow.LatencyBot.ProcessWindow: an exception in the middle of a window, after which the window is not recorded, is not part of it.
- LatencyWindow.LatencyBot.MainLoop: the same; the loop would go on with the next window.
- Orders.SplitOrder: takes a positive chunk size, because otherwise the loop need not end; `SplittingEndsIff` covers the other sizes.
- Orders.ExecuteChunked: takes a positive chunk size for the same reason.
- Orders.ExecuteSingle: takes a positive chunk size for the same reason.
- Orders.ExecuteOneSide: takes a positive chunk size for the same reason; the simulated mode of `executeDual` is not part of it, because it submits nothing.
- Cutoff.BinarySearchCutoff: asks that the search does not stall, because otherwise it does not end; `EndsIffNotStalling` covers the rest.
- BoxSpread.Scan: the edge is compared exactly, where the source converts it to a floating-point number of basis points first; one market at a time, with books already fetched; its other fields (times, identifiers) are copied through.
- Liquidity.SimulateFill: the conversion of fill ratio and slippage to floating-point numbers is not part of it.
- LatencyWindow.LatencyBot.TradeWindow: the loop is over the ticks that happen, so that it may run forever on a bot that is never stopped is not modelled; sleeping between ticks is part of the next tick's clock. The age of a clearance is taken where the source reads the clock, at the head of the loop: evaluation and submission come after it and take their own time.
- RiskManager.LatencyRiskManager.Initialize: the reported figures among the stored ones, and the warning when they cannot be read, are not part of it.
- RiskManager.LatencyRiskManager.RecordWindowResult: average edge, longest losing streak, win rate and last trade time, which no decision reads, are not part of it.
- WindowTracker.WindowPnL.Record: edge averages and times of trades, which no decision reads, are not part of the record.
- AlphaExecutor.AlphaService.HandleSignal: tokens, pair legs and order type of a signal are not part of it, nor the update of peak balance and traded-windows counter after a trade, which later signals read back as arbitrary inputs. A bet that is not a number counts as rejected, which `NoNumberNoRoom` proves unless the stored volume of the latency bot is negative.
