# Single-market robot simulator: period bookkeeping

This project models the bookkeeping core of a simulator for a single double-auction market. The market trades one good, X, among robot buyer and seller agents. The model covers:

- how a simulation lays out its agent population;
- how each period is run synchronously;
- when a period may end, judged by the order and trade inactivity clocks;
- how each trade is captured into the trade log and the period's price buffer;
- how a period is reduced to profit, ohlc (open/high/low/close) and allocative-efficiency rows;
- how the maximum possible gains from trade are computed;
- how a synchronous run repeats periods and stops early once a deadline has passed.

The two earlier revisions of the module are modelled alongside: the ES-class revision (`src/index.js`) and the prototype revision (`index.js`). Lemmas relate them to the current revision (`build/index.js`).

Modules:

- `SimTypes` (types.dfy): `Option`, `Result`, the error kinds and log cells. JavaScript truthiness is `Truthy`.
- `Clock` (clock.dfy): `potentialEndOfPeriod`.
- `Gains` (gains.dfy): `getMaximumPossibleGainsFromTrade`.
- `Telemetry` (telemetry.dfy): the simulation state, `logTrade`, `logPeriod`, the log headers and the cells written under them.
- `Period` (period.dfy): the synchronous `runPeriod` horizon loop and the synchronous `run` with its deadline.
- `Population` (population.dfy): `initAgents`, `newBuyerAgent` and `newSellerAgent`.
- `Legacy` (legacy.dfy): the earlier revisions' `Log.write`, order encoding, bid/ask rows, `logTrade`, `logPeriod`, the run loop, count inference and default price bounds.

The agent pool, the market and the statistics libraries are external collaborators. They enter as uninterpreted function fields of `Period.Pool` and `Legacy.LegacyPool`:

- the scheduled end of each period;
- the events a pool run produces up to a horizon;
- the agents' final money;
- the Gini coefficient and the price moments.

Wall-clock time enters as the predicate `pastDeadline`. JavaScript numbers are modelled as `int`, except that statistics and efficiency are `real`.

## Model

| member | source | states |
|---|---|---|
| Clock.PotentialEndOfPeriod | build/index.js:381-423 | The end time is never after the pool's scheduled end, nor after the candidate of any enabled clock. The reason is "trade clock" exactly when the trade clock cuts before both the schedule and an enabled order clock; "order clock" exactly when the order clock cuts and the trade clock does not; "duration" otherwise. Each reason carries its candidate's time. |
| Clock.ReasonCode | build/index.js:402-416 | The logged reason codes are 0 (duration), 1 (trade clock) and 2 (order clock), and the mapping is one-to-one. |
| Clock.View.LastT | build/index.js:385-393 | A log's last time is its last row's `t` when that row belongs to the current period; otherwise it is the period's start, `period * periodDuration`. |
| Clock.TieGoesToOrderClock | build/index.js:399-416 | When both clocks propose the same early cut, the reported reason is the order clock, because the trade clock replaces it only on a strictly earlier time. |
| Clock.ClocksOffMeansDuration | build/index.js:396-422 | With both clocks off (not positive), the period ends at the scheduled end with reason duration. |
| Clock.NoTradeYetCutsAtTradeWindow | test/index.js:217-236 | With trade clock 500, period 1 of 1000 and no trade in period 1, the period is cut at 1500 with reason code 1. |
| Clock.EndTimeMonotone | build/index.js:381-423 | Later last-event times in the logs never bring the decided end of the period forward. |
| Clock.AppendInPeriodNoEarlier | build/index.js:385-393 | Appending a current-period row that is no earlier than a log's last time never moves that time back. |
| Gains.Insert | build/index.js:526-531 | Inserting into a sorted list keeps it sorted and adds exactly the inserted element to its multiset. |
| Gains.Sort | build/index.js:526-531 | The sorted copy is ordered (values descending, costs ascending) and is a permutation of the configured array. |
| Gains.SortedUnique | build/index.js:526-531 | Two sorted permutations of the same multiset are the same sequence, so the sort result is determined by the multiset alone. |
| Gains.SortIgnoresOrder | build/index.js:526-531 | Sorting two permutations of one array gives the same result. |
| Gains.PrefixFrom | build/index.js:535-538 | The scan from position `i` stops at the first unprofitable pair or at the shorter list's end, with every pair before it profitable. |
| Gains.ProfitablePrefix | build/index.js:532-538 | The number of pairs the loop consumes is the length of the longest all-profitable prefix. |
| Gains.ProfitablePrefixUnique | build/index.js:535-538 | The longest profitable prefix is unique. |
| Gains.ProfitableSurplusPositive | build/index.js:535-538 | The surplus of `k` profitable integer pairs is at least `k`. |
| Gains.GetMaximumPossibleGainsFromTrade | build/index.js:519-543 | The loop computes `MaxGains`, never negative, and 0 unless both values and costs are arrays. |
| Gains.MaxGainsNonNegative | build/index.js:523-542 | The maximum possible gains are at least 0. |
| Gains.MaxGainsIgnoresOrder | build/index.js:526-531 | The gains do not depend on the order in which values and costs are configured. |
| Gains.PositiveSurplusOnPrefix | build/index.js:535-538 | On a profitable prefix, the summed surplus equals the summed positive parts. |
| Gains.PositiveSurplusPastPrefix | build/index.js:535-538 | Past the first unprofitable pair of sorted lists, every later pair is unprofitable, so it adds nothing. |
| Gains.MaxGainsIsPositivePartSum | build/index.js:519-543 | An independent characterisation: the gains equal the sum of `max(0, value - cost)` over all pairs of the sorted lists up to the shorter length. |
| Gains.NoProfitablePairGivesZero | build/index.js:535-538 | When no value exceeds any cost, the gains are 0. |
| Gains.PrefixSumIsExtreme | build/index.js:526-538 | Any `n` units drawn from a list sum to no more than its `n` largest (sorted high to low) and to no less than its `n` smallest (sorted low to high). |
| Gains.PairedSurplusIsSumDifference | build/index.js:535-538 | The surplus of the first `k` pairs is the first `k` values' sum minus the first `k` costs' sum. |
| Gains.PairedAtMostPositive | build/index.js:535-538 | The surplus of the first `k` pairs is at most the sum of their positive parts. |
| Gains.PositiveSurplusGrows | build/index.js:535-538 | The sum of positive parts over the first `k` pairs never decreases as `k` grows. |
| Gains.MaxGainsIsOptimal | build/index.js:519-543 | No feasible plan of trades, where each configured buyer and seller unit is used at most once, realises more surplus than the maximum possible gains. |
| Gains.MaxGainsIsAttained | build/index.js:519-543 | The maximum is attained: trading the highest values with the lowest costs, as far as the pairs stay profitable, is a feasible plan whose surplus equals it. |
| Gains.CostsAboveValuesGiveZero | test/index.js:314-317 | Values [10,9,8] against costs [20,40] give gains of 0. |
| Gains.SingleUnitGains | test/index.js:682-684 | Value [1000] against cost [1] gives gains of 999. |
| Telemetry.NewSim | build/index.js:117-146 | A new simulation starts at period 0 with an empty price buffer and no data rows in any log; the header rows are the fixed header constants. |
| Telemetry.ConfigOf | build/index.js:134 | The case id is the configured one when truthy and 0 otherwise; the period duration is never 0 and is the configured one when truthy; values, costs and clocks are the configured ones. |
| Telemetry.PeriodStartAgreesWithAgents | build/index.js:253-264 | The bookkeeping's period `p` starts at `p` times the duration the agent set-up chose, so the end-of-period decision and the agents share one clock. |
| Telemetry.LogTrade | build/index.js:664-693 | It succeeds exactly for a single-unit trade with a truthy price. Otherwise it fails with the single-unit error or the undefined-price error, in that order. On success it appends exactly one row after the old ones and buffers the price. That row records the period, time, time-in-period, price, ids, and profits value - price and price - cost, which together add up to value - cost. Nothing else changes. |
| Telemetry.SeqMax | build/index.js:572 | The maximum is one of the prices and bounds all of them. |
| Telemetry.SeqMin | build/index.js:573 | The minimum is one of the prices and is bounded by all of them. |
| Telemetry.OhlcOf | build/index.js:558-583 | The ohlc row has begin time `period * periodDuration`, the decided end time and reason, volume equal to the number of buffered prices, and the given Gini. Price statistics are present exactly when there was a trade. Open is the first price and close the last; high and low are buffered prices bounding all of them. |
| Telemetry.Efficiency | build/index.js:589-598 | Efficiency is defined exactly when the maximum is positive, and then satisfies efficiency × maximum = 100 × total final money. |
| Telemetry.FullSurplusIsFullEfficiency | build/index.js:597 | When final money adds up to the maximum possible gains, efficiency is exactly 100. |
| Telemetry.EffallocRows | build/index.js:589-598 | Exactly one efficiency row is written when the maximum possible gains are positive, and none otherwise. |
| Telemetry.LogPeriod | build/index.js:552-601 | Closing a period appends exactly one profit row and one ohlc row, appends the efficiency rows, and empties the price buffer. Nothing else changes. |
| Telemetry.SingleUnitPeriodIsFullyEfficient | test/index.js:859-862 | With value [1000] and cost [1], final money 1000 - p and p - 1 gives an efficiency row of 100. |
| Telemetry.EfficiencyAtMostHundred | build/index.js:589-598 | When the agents' total final money is the surplus of any feasible plan of trades between the configured units, the efficiency row holds at most 100. |
| Telemetry.NoGainsNoEfficiencyRow | test/index.js:526-528 | With values [10,9,8] and costs [20,40], no efficiency row is written. |
| Telemetry.TradeCells | build/index.js:690 | The written trade row has one cell per trade-header column, holding what that column names. |
| Telemetry.OhlcCells | build/index.js:72-83 | The written ohlc row has one cell per ohlc-header column, holding what that column names; price statistics are blank when there was no trade. |
| Telemetry.EffallocCells | build/index.js:597 | The efficiency row is caseid, period, efficiency, in header order. |
| Telemetry.NoTradeOhlcRow | test/index.js:506-524 | Case 1234, period 1, no trades, trade clock cut at 1500: the ohlc row is [1234,1,1000,1500,1,'','','','',0,'','','','','',0]. |
| Telemetry.ActiveLogNames | build/index.js:170-175 | The opened logs are all log names, or with order logs suppressed exactly those whose name does not contain "order". |
| Telemetry.Filter | build/index.js:170-172 | Filtering keeps exactly the elements satisfying the predicate. |
| Period.Decide | build/index.js:396-397 | The decided end time never exceeds the pool's scheduled end of the current period. |
| Period.AllTradesValidCons | build/index.js:672-682 | The events are all valid exactly when the first is valid and the rest are. |
| Period.Record | build/index.js:664-693 | Logging one event succeeds exactly when it is not an invalid trade, and a failure is one of the two trade refusals. Logs and the buffer only grow, the buffer by exactly the event's price, and nothing else changes. |
| Period.RecordAll | build/index.js:664-693 | Logging a pool run succeeds exactly when every trade in it is valid, and a failure is a trade refusal. On success the logs only grow and the buffer grows by exactly the run's trade prices, in order. |
| Period.Search | build/index.js:441-466 | The search keeps the period and period-close logs, returns the decision of its final state, and its final candidate is no later than the last horizon the pool was run to (or 0 if none). With a well-behaved pool it is a fixed point: see `Period.SearchEndsAtLastHorizon`. |
| Period.SearchHorizons | build/index.js:441-466 | The pool is run to strictly increasing horizons, each past the previous candidate and within the scheduled end. This is why the loop terminates. |
| Period.PeriodFacts | build/index.js:432-468 | A period advances the counter by exactly one and keeps the configuration. Its horizons increase strictly within the scheduled end. It appends exactly one ohlc row for the new period, whose end time is within the scheduled end and no later than the last horizon. It leaves the price buffer empty. |
| Period.RecordKeepsTimeOrder | build/index.js:385-393 | Logging an event that is no earlier than every log's last time moves no log's last time back, and afterwards the event itself is no earlier than every log's last time. |
| Period.RecordAllKeepsTimeOrder | build/index.js:385-393 | Logging a chronological run moves no log's last time back, so every input of the end-of-period decision is at least as late afterwards. |
| Period.SearchEndsAtLastHorizon | build/index.js:441-466 | With a pool that reports its events chronologically and within the horizon, the candidate end time never decreases during the search, and a search that ran the pool stops exactly at the last horizon. |
| Period.SearchLoop | build/index.js:441-466 | The `while (cont()) { syncRun; step() }` loop computes exactly the recursive search from candidate 0, including a refused trade's error. |
| Period.SearchExtends | build/index.js:441-466 | A search only appends to the event logs and the price buffer; the period logs are untouched. Its only failure is a refused trade. |
| Period.RunPeriod | build/index.js:432-468 | The synchronous `runPeriod` computes exactly `PeriodOf`: advance, search, close. |
| Period.AfterPeriodKeepsRunSoFar | build/index.js:725-741 | A completed period followed by the deadline check keeps the run-loop invariant. |
| Period.RunSoFarStops | build/index.js:736-741 | When the loop condition fails, the loop state is a run outcome as promised. |
| Period.PeriodKeepsOneRowPerPeriod | build/index.js:432-468 | A completed period keeps one ohlc row per period, numbered consecutively. |
| Period.RunOf | build/index.js:736-741 | The run loop as a recursive definition: run a period and apply the deadline check while the counter is below the target. The only failure is a refused trade from `logTrade`. |
| Period.Run | build/index.js:706-747 | A non-function update hook is refused. Otherwise the run computes exactly `Period.RunOf` from the requested target, so it fails only on a refused trade. Periods run until the target. If the deadline passed after some period, the run stops there, the target drops to that period and the original request is remembered. The configuration is kept, and each period run adds one ohlc row. |
| Period.ImmediateDeadlineRunsOnePeriod | test/index.js:1045-1054 | Ten periods requested with the deadline already passed: exactly one period runs, the target becomes 1 and the request 10 is kept. |
| Period.NoDeadlineRunsAll | build/index.js:736-741 | When no deadline ever passes, every requested period runs and nothing is recorded as truncated. |
| Period.ClocksOffRunsPoolOnce | build/index.js:441-466 | With both clocks off, the search runs the pool exactly once, up to the scheduled end, with reason duration. This is the earlier revisions' single `syncRun(endTime())`. |
| Population.InferCount | build/index.js:241-242 | `explicit \|\| array.length`: a truthy explicit count wins; otherwise the array's length; a missing array is an error exactly when the explicit count is falsy. |
| Population.Pick | build/index.js:294-299 | `s[i % s.length]` is defined exactly when `s` is non-empty, lies in `s`, and is `s[i]` for `i` within bounds. |
| Population.NewBuyerAgent | build/index.js:292-303 | Buyer `i` gets id `1 + i`, type `types[i % n]` and rate `rates[i % m]`. An empty type list cannot name an agent. |
| Population.NewSellerAgent | build/index.js:314-325 | Seller `i` gets id `i + 1 + numberOfBuyers`, with the same rotations as buyers. |
| Population.PeriodDuration | build/index.js:253 | `periodDuration \|\| 1000` is never 0 and keeps a truthy configured duration. |
| Population.BuyersOf | build/index.js:261-265 | The buyer list has max(0, nb) entries, and entry `i` is buyer `i`. |
| Population.SellersOf | build/index.js:267-272 | The seller list has max(0, ns) entries, and entry `i` is seller `i`. |
| Population.Layout | build/index.js:234-273 | Construction succeeds exactly when both counts are determinable and truthy and each non-empty side has an agent type. The failure is the count error or the unknown-type error. On success the population has the inferred counts and their sum, the duration, and buyers then sellers in order. |
| Population.NewBuyers | build/index.js:261-265 | The buyer loop fails exactly when there are buyers but no type; otherwise it builds `BuyersOf`. |
| Population.NewSellers | build/index.js:267-272 | The seller loop fails exactly when there are sellers but no type; otherwise it builds `SellersOf`. |
| Population.InitAgents | build/index.js:234-273 | The constructor's agent set-up builds exactly `Layout`, including every error. |
| Population.IdsAreSequential | build/index.js:292-325 | In pool order, agent `k` has id `k + 1`: sellers continue where the buyers stop. |
| Population.BuyerTypesFollowRotation | build/index.js:292-303 | Buyer `i` gets the `i`-th configured type and rate while the rotation is long enough; with one type, every buyer has it. |
| Population.ThreeBuyersTwoSellers | test/index.js:217-265 | Values [10,9,8] and costs [20,40] without explicit counts give 3 buyers, 2 sellers, 5 agents with ids 1..5, and duration 1000. |
| Population.NoBuyersIsRefused | build/index.js:241-245 | An empty values array and no explicit buyer count is refused as undeterminable. |
| Legacy.Write | src/index.js:50-64 | An undefined value is dropped; any other value is appended. The class revision remembers it as `last`; the prototype revision leaves `last` alone. |
| Legacy.WriteAllKeepsDefined | index.js:81-95 | After any sequence of writes the log holds exactly the defined values, in order. In the class revision, `last` stays the newest row. |
| Legacy.SimpleOrder | index.js:41-50 | An order has 17 slots. |
| Legacy.SimpleBuyOrder | index.js:52-57 | A buy order has 17 slots. |
| Legacy.SimpleSellOrder | index.js:59-64 | A sell order has 17 slots. |
| Legacy.BuyOrderRoundTrip | index.js:41-57 | A buy order decodes back to its time, user, cancel-replace flag (set exactly when old orders are not kept), quantity 1, buy price and sell price 0; every other slot is 0. |
| Legacy.SellOrderRoundTrip | index.js:41-64 | The same as `BuyOrderRoundTrip` for sell orders, with the price in slot 6. |
| Legacy.BuyOrderFromFields | index.js:41-57 | Conversely, every 17-slot array shaped like a buy order is the encoding of its own fields. |
| Legacy.BidRow | index.js:214-228 | The buyorder row has one cell per header column, with the bid's price and value and blank sell columns. |
| Legacy.AskRow | index.js:235-249 | The sellorder row has one cell per header column, with the ask's price and cost and blank buy columns. |
| Legacy.BidAskComplement | src/index.js:199-238 | A bid and an ask at one wake share the five stamp columns, and each fills exactly the price columns the other leaves blank. |
| Legacy.HeaderRow | src/index.js:108-117 | A header row holds the column names in order. |
| Legacy.InitLogs | src/index.js:97-118 | A new simulation's ohlc, buyorder, sellorder, trade and volume logs hold just their header rows; the profit log is empty. |
| Legacy.Bid | index.js:214-233 | A bid is logged exactly when it is for good X, and nothing else changes. |
| Legacy.Ask | index.js:235-254 | An ask is logged exactly when it is for good X, and nothing else changes. |
| Legacy.LegacyLogTrade | src/index.js:311-357 | It applies the same single-unit and price checks. On success it buffers the price and appends one ten-column row: period, time, time-in-period, price, buyer id, value and profit, seller id, cost and profit. Nothing else changes. |
| Legacy.LegacyTradeAgreesWithCurrent | index.js:308-349 | The earlier revisions accept exactly the trades the current one accepts, and log the same time-in-period, price and profits. |
| Legacy.LegacyOhlc | src/index.js:293-301 | The row [period, open, high, low, close] exists exactly when there were trades. Open is the first price and close the last; high and low are buffered prices bounding all of them. |
| Legacy.LegacyOhlcOrdered | index.js:289-298 | Low ≤ open ≤ high and low ≤ close ≤ high. |
| Legacy.MoneyRow | src/index.js:302-303 | The profit row is every agent's final money, in pool order. |
| Legacy.LegacyLogPeriod | src/index.js:290-309 | It writes the profit row, the ohlc row only when there were trades, and [period, number of trades] to the volume log, then empties the buffer. Nothing else changes. |
| Legacy.LastOhlcIsLastTradingPeriod | src/index.js:50-64 | In the class revision, the remembered last ohlc row is the last trading period's row: a period without trades leaves it unchanged. |
| Legacy.RecordLegacy | src/index.js:259-288 | Logging a pool run succeeds exactly when its trades are valid, and a failure is a trade refusal. It keeps the period logs, and the buffer grows by exactly the run's trade prices, in order. |
| Legacy.LegacyRunPeriod | src/index.js:259-288 | A period advances the counter by one and empties the buffer; it fails only on a refused trade. It appends one profit row and one volume row; the volume row's period is the new period and its count is the number of prices already buffered plus the number of trades the pool run produced. The buffer is empty after every period close, so from a closed period the count is the trades of the run. |
| Legacy.LegacyRunOf | src/index.js:394-396 | The run loop of the earlier revisions as a recursive definition: run a period while the counter is below the count. It ends at the larger of the start period and the count, and its only failure is a refused trade. |
| Legacy.LegacyRun | index.js:377-381 | The synchronous run computes exactly `Legacy.LegacyRunOf`, so it fails only on a refused trade. It ends exactly at the larger of the start period and the configured count, with one profit row and one consecutively numbered volume row per period run. |
| Legacy.PrototypeCounts | index.js:122-133 | Construction is refused exactly when a count is falsy and has no non-empty array to fall back on; accepted counts are non-zero. |
| Legacy.CountsAgreeWithCurrent | index.js:122-133 | With both arrays present, the prototype and current revisions infer the same counts and refuse the same configurations. Without an array, the current revision fails reading the length, while the prototype reports undeterminable counts. |
| Legacy.MinPrice | index.js:169 | `L \|\| 0`. |
| Legacy.MaxPrice | index.js:170 | A truthy H wins. Otherwise a missing array is an error, an empty one gives NaN, and the bound is twice the larger of the first value and the last cost. |
| Legacy.DefaultMaxPriceCoversSchedules | index.js:170 | For a value list sorted descending and a cost list sorted ascending, the default upper bound is at least twice every value and every cost. |

## Left out

- Asynchronous and real-time execution (`runPeriod()` without `sync`, the Promise loop of `run`, the callback and `async.whilst` forms of the earlier revisions). Timers and promises are outside a pure model; only the synchronous paths are modelled.
- Console output, the file-system branch of `Log.write`, and the CSV logger. The logs are in-memory sequences of rows.
- The order log snapshot (`logOrder`), the reject logs, and the `preBidPrice`/`preAskPrice`/`preTradePrice` columns of the current revision. They read the market's order book, which is the external market library. The current revision's order logs are modelled only as the (period, t) stamps the end-of-period decision reads.
- The agent pool, agents and market (`Pool`, the agent classes, the order book, `teachAgent`, `distribute`, the `MEC.oa` order encoding of the class revision). These are external libraries; the pool is an uninterpreted function of the simulation state and horizon.
- `gini-ss` and `stats-lite`. Their results are opaque values supplied by the pool record.
- The `idCol`/`buyerid`/`sellerid` undefined checks in `logTrade`. These states are unreachable through the market library, and the model receives ids already resolved.
- Agent type names: the current revision logs `constructor.name`. Here the type name is the configured string, and a non-empty type list always names an agent; an unknown name is not modelled.
- The cached `maximumPossibleGainsFromTrade`. Caching does not change the value because the configuration is fixed. A cached 0 is recomputed by the source each time, which gives the same result.
- The `update` hook's effects on the simulation. Only the check that it is a function is modelled; the model assumes the hook does not change the simulation.
- Period.Pool: the pool's scheduled end is a function of the period number only, so it stays fixed while a period runs. This is what the agent pool library provides for equal-duration periods.
- The prototype revision's `config.logs` log selection, and the current revision's `logDir` and `logToFileSystem`. Log selection is modelled only through `withoutOrderLogs` (`Telemetry.ActiveLogNames`); every modelled log is treated as present. With order logs suppressed and the order clock on, the source reads a missing log; this is not modelled.
- The prototype and class revisions' `buyerRate || 1` agent rate, and the current revision's `positiveNumberArray` normaliser. The normaliser's output is an input to `Population` (None when falsy).
- Population.NewBuyerAgent: an empty rate list (the normaliser returning `[]`) gives an undefined rate (`None`), as in the source; the agent library's reaction to that is not modelled.
- Telemetry.LogTrade: prices and times are integers. Fractional prices, and NaN from non-numeric values, are not modelled.
- Gains.GetMaximumPossibleGainsFromTrade: values and costs are integers. The source compares JavaScript numbers, and a non-numeric entry would make the sort and the comparison behave differently.
- Telemetry.Efficiency: computed over exact reals, so floating-point rounding of `100 * (sum / max)` is not modelled.
- Period.WellBehaved: the pool is an uninterpreted function. That the search stops exactly at its last horizon (`Period.SearchEndsAtLastHorizon`) is proved for pools that report events in time order, no earlier than what is logged and no later than the horizon. This is what the agent pool library does; for an arbitrary function only the weaker bound of `Period.Search` holds.
- Telemetry.NewSim: the logs hold data rows only. Each log's header row is the matching header constant (`Telemetry.TradeHeader`, `Telemetry.OhlcHeader`, …) rather than a first data row, so the source's "header plus n rows" is n rows here.
- Period.Run: the deadline is a predicate of the period just completed (`deadline && Date.now() > deadline` evaluated after that period). A deadline of 0 (disabled) is the predicate that is always false.
- Legacy.LegacyRun: the pool run of each period goes to the pool's scheduled end, as in the earlier revisions.
