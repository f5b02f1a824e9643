# Verified model of the market-event path

A Dafny model of the trading application's market-event path and of the control protocols
around it, with proofs of what they keep over whole runs. `dafny verify dfyconfig.toml`
checks everything.

The model follows the program's own structure, one module per component:

- **Market data.** `ExchangeCalendar` (session-aligned buckets), `CandleEngine` (the streaming
  aggregator, as classes over mutable records), `BarGrouping` and `CandleAggregation` (what its
  runs compute), `TickStore`, `TickProcessor`, `CandleStore`, `CandleHistory`, `TickChart`.
- **Pipeline.** `TradingPipeline` (bounded, symbol-sharded queues under every schedule),
  `AtrTracker`, `Orchestrator` (specification over values) and `TradingOrchestrator` (the composed
  object).
- **Decisions.** `EmaCrossover` (with `Crossings`, on sign changes of a series), `StrategyEngine`,
  `RiskEngine`, `PortfolioLimits`.
- **Protocols.** `Execution` and `ExecutionService` (reserve, submit, record), `ControlPlane` and
  `ControlService` (validate, apply, commit or roll back).
- **Reporting.** `OutcomeStore`, `Analytics`, and the dashboard's `LiveChart`.
- **Shared.** `MarketData`, `Sequences`, `KeyOrder`, `Division`, `StableSort`.

Code that updates objects or arrays of state is a class whose methods are tied to a specification
function; the properties are then lemmas about runs of that function. Code that interleaves at its
awaits is a state machine whose steps are the stretches between awaits. Timestamps are integers,
and decimals and floats are exact reals.

What the code does differs in these places from what its documentation or naming suggests. The
model follows the code, proves exactly when the expected property holds, and gives a case where it
does not:

- Fallback history keeps only the last bucket's bar, because completions of the replay are dropped
  (`CandleHistory.FallbackLosesEarlierBars`, `CandleHistory.FallbackLosesABar`).
- Finalization does not advance the watermark, so a finalized bucket can reopen
  (`CandleAggregation.EachBucketOnce`, `CandleAggregation.FinalizedBucketReopens`).
- A spread that touches zero and returns allows two BUYs in a row (`EmaCrossover.SignalsAlternate`,
  `EmaCrossover.BuyZeroBuy`).
- The cash-reserve check is skipped when available cash is zero
  (`PortfolioLimits.ReserveBrokenExactly`, `PortfolioLimits.NoBuyingPowerBreaksReserve`).
- Portfolio check and submission are not atomic across symbols
  (`PortfolioLimits.ConcurrentEntriesExactly`, `PortfolioLimits.ConcurrentEntriesOverrun`).
- The first application of a configuration is outside the rollback
  (`ControlPlane.SynchronisedExactly`, `ControlPlane.FailedApplyDesynchronises`).
- The drawdown fraction belongs to the largest amount, not the largest fraction
  (`Analytics.FractionLargestExactly`, `Analytics.FractionIsNotTheLargest`).
- A period can lose more than the whole when its key is interleaved with another
  (`Analytics.PeriodDrawdownExactly`, `Analytics.InterleavedPeriodLosesMore`); a local date can step
  back where daylight saving ends at midnight.
- The live chart measures its sampling interval from the point last replaced, so a stream
  whose points follow each other fast never adds one (`LiveChart.StreamGrowth`,
  `LiveChart.NeverGrowsExactly`, `LiveChart.FastStreamReplaces`).

## Model

| member | source | states |
|---|---|---|
| `ExchangeCalendar.BucketWhileOpen` | market_data/exchange_calendar.py:42-46 | a time has a bucket if and only if a session is open at it, for every interval |
| `ExchangeCalendar.BucketContains` | market_data/exchange_calendar.py:47-64 | every bucket contains the time it was computed for |
| `ExchangeCalendar.BucketOrder` | market_data/exchange_calendar.py:42-78 | bucket start is monotone in time: two trading times share a bucket or the earlier bucket ends before the later one starts |
| `ExchangeCalendar.BucketPartition` | market_data/exchange_calendar.py:42-78 | a trading time lies inside a bucket if and only if that bucket is its own |
| `ExchangeCalendar.BucketStartIsOpen` | market_data/exchange_calendar.py:51-64 | the start of a bucket is itself a trading time of that bucket |
| `ExchangeCalendar.IntradayShape` | market_data/exchange_calendar.py:51-55 | an intraday bucket starts a whole number of durations after the open, stays in the session, and is a full duration unless the close cuts it |
| `ExchangeCalendar.FirstBucketLasts` | market_data/exchange_calendar.py:13-25 | the bucket of an open lasts the minutes its interval is named for, or the whole of a shorter session |
| `ExchangeCalendar.SpanShape` | market_data/exchange_calendar.py:66-78 | a weekly or monthly bucket covers exactly the sessions whose span of days is its own |
| `ExchangeCalendar.SameWeekExactly` | market_data/exchange_calendar.py:66-71 | two sessions share a weekly bucket if and only if no Monday lies after the one and up to the other |
| `ExchangeCalendar.SameMonthExactly` | market_data/exchange_calendar.py:73-78 | two sessions share a monthly bucket if and only if the later one is dated by the last day of the earlier one's month |
| `ExchangeCalendar.DayBucketEnds` | market_data/exchange_calendar.py:56-78 | a daily bucket is one session; a weekly or monthly one runs from the open of the first to the close of the last of the sessions that share it, which are consecutive |
| `ExchangeCalendar.CalendarIsLawful` | market_data/exchange_calendar.py:42-64 | every calendar of sorted disjoint sessions meets the law the aggregation rests on |
| `ExchangeCalendar.NestingSound` | market_data/exchange_calendar.py:13-25 | on every calendar, a fine bucket never straddles a coarse one when the durations divide or the coarse interval is daily, weekly or monthly |
| `ExchangeCalendar.NestingExact` | market_data/exchange_calendar.py:13-25 | ... and for every other pair of intervals some calendar has a straddling bucket: nesting holds on all calendars if and only if the stated condition does |
| `BarGrouping.GroupCorrect` | market_data/candle_engine.py:101-115 | the streaming fold yields one bar per bucket hit, in time order, each the open, high, low, close and volume of exactly the ticks inside its bucket |
| `BarGrouping.GroupingUnique` | market_data/candle_engine.py:101-115 | that specification has only one solution |
| `BarGrouping.CoalesceIdentity` | market_data/candle_engine.py:101-115 | merging neighbouring bars of one bucket changes nothing if and only if no two neighbours share a bucket |
| `BarGrouping.RegroupCorrect` | market_data/candle_engine.py:101-115 | coarse bars rebuilt from fine bars are the coarse bars of the ticks themselves |
| `BarGrouping.RegroupCoalesced` | market_data/candle_engine.py:101-115 | rebuilding coarse bars gives the same result before and after merging split fine bars |
| `BarGrouping.GroupVolume` | market_data/candle_engine.py:57-61 | the bars of any grouping carry exactly the traded size of all ticks |
| `BarGrouping.CoalesceVolume` | market_data/candle_engine.py:57-61 | merging bars conserves volume |
| `CandleEngine.ActiveCandle.FromTick` | market_data/candle_engine.py:42-55 | a new bar is seeded from its first tick |
| `CandleEngine.ActiveCandle.Apply` | market_data/candle_engine.py:57-61 | applying a tick extends high, low, close and volume and leaves open and bucket |
| `CandleEngine.ActiveCandle.ToCandle` | market_data/candle_engine.py:63-75 | the candle shows the current bar |
| `CandleEngine.CandleEngine.Create` | market_data/candle_engine.py:81-90 | refused for empty or repeated intervals, and only then |
| `CandleEngine.CandleEngine.UpdateSeries` | market_data/candle_engine.py:105-115 | one series makes exactly one step; every other bar, including those sharing the dictionary, is unchanged |
| `CandleEngine.CandleEngine.ProcessTick` | market_data/candle_engine.py:92-120 | the in-place engine computes the specified new state, update and reason, for late, out-of-session and in-session ticks |
| `CandleEngine.CandleEngine.ExpiredCandles` | market_data/candle_engine.py:128-132 | exactly the bars that end by the cutoff, each once, as complete candles |
| `CandleEngine.CandleEngine.FinalizeThrough` | market_data/candle_engine.py:122-135 | those bars are removed and returned, nothing else changes, and the watermark stays |
| `CandleAggregation.Separable` | market_data/candle_engine.py:92-135 | over every run of ticks and finalizations each series depends on its own symbol and interval only |
| `CandleAggregation.KeptExactly` | market_data/candle_engine.py:95-97 | a tick is kept if and only if no earlier tick of its symbol, kept or dropped, is newer |
| `CandleAggregation.SameBucket` | market_data/candle_engine.py:107-114 | `apply` is reached only by a tick of the active bar's own bucket |
| `CandleAggregation.SeriesGroups` | market_data/candle_engine.py:92-120 | after every run the completed bars and the active one, split bars merged, are the fold of the accepted in-session ticks |
| `CandleAggregation.EmittedIsGrouping` | market_data/candle_engine.py:92-120 | the same for the whole engine: the emitted bars are the group-by-bucket of the accepted ticks, without merging if and only if no bucket was split, and their volume is conserved |
| `CandleAggregation.EachBucketOnce` | market_data/candle_engine.py:122-135 | over every run the emitted bars are the grouping itself, one bar per bucket, if and only if no bucket is finalized between two kept ticks of it |
| `CandleAggregation.FinalizedBucketReopens` | market_data/candle_engine.py:122-135 | such runs exist for any bucket: tick, finalization at its end, tick emit it twice, because finalization does not advance the watermark |
| `CandleAggregation.ShownSeparable` | market_data/candle_engine.py:116-118 | the in-progress bars emitted for a series depend on its own symbol and interval only |
| `CandleAggregation.TickReports` | market_data/candle_engine.py:92-120 | a late tick changes nothing; any other becomes the watermark and updates one incomplete candle per open interval in order, closing at its price; it is ignored, with its reason, exactly when it updates none; what it completes is complete and of its symbol |
| `CandleAggregation.FineBarsRebuildCoarse` | market_data/candle_engine.py:101-115 | at every reachable state merging the emitted fine bars inside each coarse bucket gives exactly the coarse bars, for nesting intervals |
| `CandleAggregation.VolumeSameAcrossIntervals` | market_data/candle_engine.py:101-117 | at every reachable state all intervals of a symbol carry the same total volume |
| `TickStore.InMemoryTickStore.Append` | market_data/tick_store.py:44-49 | each symbol keeps the last `max` ticks ever appended for it; other symbols are untouched |
| `TickStore.InMemoryTickStore.Latest` | market_data/tick_store.py:51-54 | the newest appended tick of the symbol, if any |
| `TickStore.InMemoryTickStore.ListTicks` | market_data/tick_store.py:56-75 | the kept ticks in the range, the last `limit` of them; refused exactly for a non-positive limit |
| `TickStore.SelectCorrect` | market_data/tick_store.py:69-74 | every stored tick from the start to the end, both included, is listed once per occurrence, in the order of the store, and nothing else; chronological order is preserved |
| `TickProcessor.TickProcessor.Process` | market_data/tick_processor.py:58-78 | the object makes the specified step: drop, or store and raise the watermark |
| `TickProcessor.WatermarkIsNewest` | market_data/tick_processor.py:62-78 | under either policy the watermark is the newest timestamp ever received for the symbol |
| `TickProcessor.RejectingFiltersAsEngine` | market_data/tick_processor.py:62-78 | the rejecting processor passes on exactly the ticks the candle engine would have kept |
| `TickProcessor.AcceptedNeverLate` | market_data/candle_engine.py:95-97 | behind the rejecting processor the engine never drops a tick |
| `TickProcessor.CandlesIgnorePolicy` | market_data/tick_processor.py:62-75 | the out-of-order policy never changes a candle, whatever the tick order |
| `TickProcessor.TickRunGroups` | market_data/candle_engine.py:92-120 | in runs without finalization the emitted bars are the grouping itself, nothing to merge |
| `CandleHistory.AggregateFallbackTicks` | market_data/candle_history.py:58-81 | the sort, replay, finalize and filter loop returns exactly the characterised history |
| `CandleHistory.FallbackLosesEarlierBars` | market_data/candle_history.py:66-77 | the returned history is the full one if and only if no in-range bucket precedes the newest bucket, because completions of the replay are dropped |
| `CandleHistory.FallbackLosesABar` | market_data/candle_history.py:66-77 | and a bar is lost: two ticks in consecutive minutes of a session, with a request for exactly those minutes |
| `CandleHistory.FullHistoryComplete` | market_data/candle_history.py:58-81 | keeping the completions would give one bar for exactly the in-range buckets hit by any stored tick, each folding all ticks of its bucket |
| `CandleHistory.ReplayState` | market_data/candle_history.py:63-68 | after the replay the engine holds the last bar of the grouping and nothing else |
| `CandleStore.InMemoryCandleStore.Create` | market_data/candle_store.py:31-36 | refused exactly for a non-positive bound |
| `CandleStore.EvictSmallest` | market_data/candle_store.py:42-43 | the eviction loop removes least start times until the bound holds |
| `CandleStore.InMemoryCandleStore.Upsert` | market_data/candle_store.py:38-43 | every series stays the specified function of all candles ever written to it |
| `CandleStore.BoundedSeries` | market_data/candle_store.py:38-43 | after any upserts, evicted and rewritten keys included, the series is the unbounded last-write-wins map restricted to its largest start times |
| `CandleStore.LargestUnique` | market_data/candle_store.py:42-43 | there is only one such restriction |
| `CandleStore.LatestAgrees` | market_data/candle_store.py:45-48 | the latest candle of the bounded series is the latest of the unbounded map |
| `CandleStore.InMemoryCandleStore.Latest` | market_data/candle_store.py:45-48 | returns the candle last written for the largest start time ever written |
| `CandleStore.InMemoryCandleStore.ListCandles` | market_data/candle_store.py:50-63 | exactly the kept candles inside the range, in strictly ascending start order |
| `CandleStore.WriteOrderIrrelevant` | services/trading_orchestrator.py:90-91 | the completed and the new active candle of a bucket change may be written in either order |
| `TradingPipeline.EveryScheduleIsSequential` | workers/trading_pipeline.py:71-81 | for every worker count and schedule the completed, in-progress and active bars of each series are those of a sequential engine fed a prefix of the symbol's own sub-stream |
| `TradingPipeline.QuiescentIsComplete` | workers/trading_pipeline.py:71-81 | once the pipeline is quiescent each series is the sequential one of the whole sub-stream |
| `TradingPipeline.QueuesBounded` | workers/trading_pipeline.py:29-29 | in any schedule no queue exceeds its capacity or holds a symbol of another shard |
| `TradingPipeline.NoDeadlock` | workers/trading_pipeline.py:71-81 | unless every tick is handled some step is enabled |
| `TradingPipeline.StepsMakeProgress` | workers/trading_pipeline.py:71-81 | every enabled step reduces the remaining work, so every schedule ends |
| `EmaCrossover.EmaCrossoverStrategy.OnCandleEvent` | strategies/ema_crossover.py:69-108 | the object makes the specified step |
| `EmaCrossover.EmaCrossoverStrategy.GenerateSignal` | strategies/ema_crossover.py:110-112 | hands the pending intent out once |
| `EmaCrossover.IgnoredCandlesDoNotMatter` | strategies/ema_crossover.py:69-77 | in-progress, foreign and stale candles leave the emitted signals unchanged wherever they are inserted |
| `EmaCrossover.UsedExactly` | strategies/ema_crossover.py:69-77 | a candle is used if and only if it is complete, of the configured series, and ends after every earlier such candle, used or not |
| `EmaCrossover.SignalsFollowCloses` | strategies/ema_crossover.py:79-108 | over every run the signals are a function of the closes used: one per used candle, stamped with its end |
| `EmaCrossover.EmaInRange` | strategies/ema_crossover.py:155-160 | both averages stay within any bounds of the closes seen |
| `EmaCrossover.EmaStep` | strategies/ema_crossover.py:155-160 | an average starts at the first close, and `period + 1` times the new one is twice the close and `period - 1` times the old |
| `EmaCrossover.MonotonePricesSignalOneSide` | strategies/ema_crossover.py:122-129 | if closes never fall no EXIT or SELL is signalled; if they never rise no BUY is |
| `EmaCrossover.EmaMirrors` | strategies/ema_crossover.py:155-160 | negating every close negates the averages |
| `EmaCrossover.BetweenBuys` | strategies/ema_crossover.py:122-129 | between two BUYs there is an opposite signal or a spread of exactly zero, and in any case a spread that is not positive |
| `EmaCrossover.BetweenExits` | strategies/ema_crossover.py:122-129 | the mirror statement for EXIT or SELL |
| `EmaCrossover.SignalsAlternate` | strategies/ema_crossover.py:122-129 | signals strictly alternate if and only if no run of zero spreads after the warm-up is left on the side it was reached from, after a crossing to that side |
| `Crossings.RisesTwiceExactly` | strategies/ema_crossover.py:122-129 | the same of any spread series: two rises follow each other without a fall if and only if the spread touches zero from above and goes back up |
| `EmaCrossover.NoZeroAlternates` | strategies/ema_crossover.py:122-129 | in particular signals alternate when no spread from the last warm-up candle on is zero |
| `EmaCrossover.BuyZeroBuy` | strategies/ema_crossover.py:125-128 | a concrete price series with BUY, a zero spread, BUY and no EXIT between |
| `EmaCrossover.QuietWarmUp` | strategies/ema_crossover.py:85-88 | in every emitted run the first `slow_period` signals are holds |
| `EmaCrossover.ConfidenceFollows` | strategies/ema_crossover.py:79-108 | over every run a hold carries the base confidence and every other signal the one of its own close and spread |
| `EmaCrossover.ConfidenceIs` | strategies/ema_crossover.py:146-153 | that confidence is, rounded half up to three places, the base plus spread by close times sensitivity, cut at the maximum |
| `EmaCrossover.ConfidenceInRange` | strategies/ema_crossover.py:146-153 | the rounded confidence stays between the rounded base and maximum, within [0, 1] |
| `StrategyEngine.StrategyEngine.Initialize` | strategies/engine.py:25-39 | all plugins set up; or one raised, those set up before it are reset in reverse order up to a reset that itself raises, those after it are untouched, and the engine stays uninitialised |
| `StrategyEngine.StrategyEngine.OnCandle` | strategies/engine.py:56-82 | refused before initialization; otherwise every plugin makes its own step and the report lists intents and failures in registration order |
| `StrategyEngine.StrategyEngine.Reset` | strategies/engine.py:49-54 | every plugin reset and the engine uninitialised, unless a reset raises: then later plugins and the initialized flag are left as they were |
| `StrategyEngine.StatesIsolated` | strategies/engine.py:64-81 | over any run a plugin goes through the states it would alone, whatever the others raise |
| `StrategyEngine.FailuresAreContained` | strategies/engine.py:64-81 | over any run what the reports say of a strategy is exactly what it would have emitted alone, and it is reported failed exactly when it failed |
| `StrategyEngine.HandleIs` | strategies/engine.py:64-81 | a plugin whose handler raises has failed and its generator is not asked; otherwise it emits exactly what the generator decides, if that names plugin and symbol |
| `StrategyEngine.ReportInOrder` | strategies/engine.py:64-82 | a report lists every intent and every failure once, in registration order, and nothing else |
| `StrategyEngine.IntentsAreForTheCandle` | strategies/engine.py:70-75 | every reported intent carries the candle's symbol and the name of the plugin that decided it |
| `AtrTracker.AtrTracker.Update` | services/trading_orchestrator.py:28-39 | for every series there is an average if and only if it has at least `period` candles, and `period` times it is the sum of the last `period` true ranges |
| `AtrTracker.RangeAt` | services/trading_orchestrator.py:31-34 | the first true range of a series is its bar's own, each later one the span of the bar together with the close before it |
| `AtrTracker.AtrSlides` | services/trading_orchestrator.py:35-39 | one more candle moves `period` times the average by the range that enters less the one that leaves |
| `AtrTracker.AtrWithinRanges` | services/trading_orchestrator.py:35-39 | the average lies between any bounds of the last `period` true ranges |
| `Orchestrator.NoLookAhead` | services/trading_orchestrator.py:85-126 | in every run, with any reconfigurations, whatever a tick causes depends on completed candles only: average and direction are functions of the completed candles of the series up to the evaluated one, which ends no later than the tick |
| `Orchestrator.GuardNeverRejects` | strategies/ema_crossover.py:71-77 | in every run each strategy has used exactly the completed candles of its series: the stale-candle guard never rejects one |
| `Orchestrator.CompletedBehind` | market_data/candle_engine.py:107-112 | completed candles of a series have strictly increasing ends, none after the newest kept tick |
| `Orchestrator.RunExplained` | services/trading_orchestrator.py:71-98 | the filter, engine and log of every run are functions of the ticks received |
| `TradingOrchestrator.TradingOrchestrator.ProcessTick` | services/trading_orchestrator.py:85-98 | the composed object makes the specified step and writes exactly the specified candles to the store; late ticks move only the filter |
| `TradingOrchestrator.TradingOrchestrator.EvaluateCompletedCandle` | services/trading_orchestrator.py:90-126 | a completed candle may be evaluated only once it is in the store; it passes through tracker and strategy, giving exactly the specified evaluation, and strategies of other symbols are untouched |
| `TradingOrchestrator.TradingOrchestrator.Reconfigure` | services/trading_orchestrator.py:71-83 | fresh strategies and tracker, with filter, engine and stores unchanged |
| `RiskEngine.ApprovedExactly` | risk/engine.py:50-108 | an entry is approved if and only if the greatest size that fits the per-trade budget is at least one and meets every stated limit; that size is the one approved, and the rounded reward still meets the minimum |
| `RiskEngine.SizeIsGreatest` | risk/engine.py:66-69 | exactly the sizes up to the computed one fit the per-trade budget |
| `RiskEngine.RewardSurvivesRounding` | risk/engine.py:86-97 | rounding the reward ratio to three places cannot drop it below the policy minimum |
| `RiskEngine.ProposalPrices` | risk/engine.py:55-98 | an approved stop and target lie at the policy's multiples of the average range from the entry, and so does the trailing distance |
| `RiskEngine.PricesBracketEntry` | risk/engine.py:55-64 | an approved stop and target are positive and lie on their sides of the entry |
| `RiskEngine.ProposalReward` | risk/engine.py:86-97 | the approved reward ratio is that of the distances to target and stop, within half a thousandth |
| `RiskEngine.ProposalRisk` | risk/engine.py:66-72 | the approved risk is what the whole position loses at the stop: within the per-trade budget, where one share more is not |
| `RiskEngine.HalfEvenNearest` | risk/engine.py:86-97 | rounding goes to the nearest value and from the middle to the even one |
| `RiskEngine.DecisionIsFirstBreak` | risk/engine.py:36-84 | an entry is approved if and only if it breaks none of the eight limits, and otherwise refused for the first it breaks; exits and holds are not evaluated |
| `RiskEngine.TrailIsTightest` | risk/engine.py:20-33 | over any run the trailing stop never widens and ends at the tightest candidate |
| `RiskEngine.StopTrails` | risk/engine.py:20-33 | a mark leaves the stop or moves it to the multiple of the average range behind the extreme, never further away |
| `PortfolioLimits.RunStaysWithin` | execution/service.py:64-80 | over any run of atomic BUY entries and exits exposure, position count, one position per symbol and cash reserve stay within policy |
| `PortfolioLimits.EntryOpens` | execution/service.py:64-80 | an entry changes nothing, or opens one position in a symbol not held, paid at its price, whose loss at the stop fits the trade's budget and what the day has left to lose |
| `PortfolioLimits.ReserveBrokenExactly` | risk/engine.py:71-82 | a step breaks the cash reserve if and only if it is an entry that meets every other limit while the broker reports no buying power, where the check is skipped, and costs more than the reserve leaves |
| `PortfolioLimits.NoBuyingPowerBreaksReserve` | risk/engine.py:77-79 | and there it does: a concrete approved entry |
| `PortfolioLimits.ConcurrentEntriesExactly` | services/trading_orchestrator.py:119-125 | any number of entries evaluated against one portfolio and then executed leave the account within policy if and only if the approved ones have different symbols and together fit the position count, the exposure limit and the reserve |
| `PortfolioLimits.ConcurrentEntriesOverrun` | services/trading_orchestrator.py:119-125 | and they can overrun: two first entries both pass a limit of one position |
| `Execution.IdIdentifiesSignal` | execution/service.py:141-146 | two signals share the text behind their order id if and only if symbol, timestamp, strategy and direction agree, whatever the strategy name contains |
| `Execution.SubmittedAtMostOnce` | execution/service.py:88-139 | under every interleaving, failure and gate switch each id is submitted at most once, and only after its own reservation |
| `Execution.AcknowledgedWhileEnabled` | providers/mock_broker.py:28-42 | every acknowledgement answers a submission made while the last gate switch before it enables submission |
| `Execution.FlagIsLastSwitch` | execution/service.py:56-62 | the service's own flag follows every switch, also one that the broker refuses |
| `Execution.RecordedAsSignalled` | execution/service.py:88-139 | under every interleaving a recorded order has the symbol, size and side of an entry signal of the run, or the symbol of an exit signal and what the broker confirmed for that call |
| `Execution.RaisedExactly` | execution/service.py:99-139 | under every interleaving a call ends with an error if and only if one of its storage or broker calls raised |
| `Execution.EndsExplained` | execution/service.py:99-111 | a call that returns an order has recorded it and refreshed the portfolio |
| `Execution.RecordedOneToOne` | execution/service.py:104-111 | recorded orders match acknowledged submissions one to one, except those whose recording failed |
| `Execution.NeverResubmitted` | execution/service.py:99-108 | once its owner has moved past submission an id is never submitted again |
| `Execution.FailedNeverResubmitted` | execution/service.py:104-108 | a failed submission is the only one its id ever gets |
| `ExecutionService.InMemoryExecutionAuditStore.ReserveOrder` | execution/in_memory.py:17-22 | true exactly for the first reservation of an id |
| `ExecutionService.InMemoryExecutionAuditStore.ListOrders` | execution/in_memory.py:35-36 | the newest recorded orders, newest first, and how many for every limit, positive or not |
| `ExecutionService.BrokerageProvider.ClosePosition` | providers/alpaca.py:102-117 | an exit is confirmed if and only if submission is enabled and something is held, and its signed quantity added to the held one is zero |
| `ExecutionService.AutomatedExecutionService.ConfigureRuntime` | execution/service.py:56-62 | both flags follow the policy, as one step of the protocol |
| `ExecutionService.AutomatedExecutionService.ExecuteEntry` | execution/service.py:88-111 | the call performs exactly a run of the protocol's steps; it places an order if and only if enabled and first, for the signal's symbol, size and side |
| `ExecutionService.AutomatedExecutionService.ExecuteExit` | execution/service.py:113-139 | the call performs exactly a run of the protocol's steps; it is skipped exactly for a disabled service, a signal that is no exit, a symbol not held or an id already reserved, and the recorded order closes exactly what is held |
| `ControlPlane.NoLostUpdates` | control_plane/service.py:42-52 | for any number of interleaved services: versions run 1..n without gap, the stored configuration is the last audit entry, and each entry was allowed against exactly the one it replaced |
| `ControlPlane.AuditOnlyGrows` | control_plane/repository.py:61-68 | the audit is append-only |
| `ControlPlane.EveryEscalationConfirmed` | control_plane/service.py:83-96 | over any run each entry into live mode and each enabling of automation carried the phrase of its mode |
| `ControlPlane.ConfirmedUpdateCommits` | control_plane/service.py:42-52 | after any run, an update without failure is committed and applied with exactly its content if it carries the stored version and the phrases it needs, and otherwise changes nothing |
| `ControlPlane.RefusalIsTrue` | control_plane/service.py:78-96 | an update is refused if and only if version or a phrase is missing, for the first that is |
| `ControlPlane.StaleCommitFails` | control_plane/repository.py:59-60 | a commit against an outdated version leaves the store alone and rolls back |
| `ControlPlane.RuntimeIsStored` | control_plane/service.py:34-52 | with one service whose apply step does not raise and whose failed commits did not commit, the runtime equals the stored configuration whenever no update is in progress |
| `ControlPlane.UpdateEffect` | control_plane/service.py:42-52 | the store and runtime after one whole update, for every way its awaits can end |
| `ControlPlane.SynchronisedExactly` | control_plane/service.py:42-52 | one update is sure to leave store and runtime equal if and only if it is refused or its awaits end safely; the first application is outside the rollback |
| `ControlPlane.FailedApplyDesynchronises` | control_plane/service.py:42-52 | and a reachable run leaves them unequal: any allowed update after start-up whose application raises |
| `ControlService.InMemoryTradingControlStore.GetOrCreate` | control_plane/repository.py:40-52 | creates the first configuration and audit entry once |
| `ControlService.InMemoryTradingControlStore.Update` | control_plane/repository.py:54-69 | compare the version, then replace and append; refused otherwise with nothing changed |
| `ControlService.AuditListing` | control_plane/repository.py:71-72 | the newest entries first, versions counting down without gaps |
| `ControlService.TradingControlService.UpdateConfiguration` | control_plane/service.py:42-52 | the object's update is the protocol's own steps run without interleaving, and returns the new configuration exactly when confirmed, applied and committed |
| `TickChart.RangesAreTight` | market_data/tick_chart.py:28-39 | no clamp and no fallback ever takes effect: every candidate and average range is non-empty and inside its bounds |
| `TickChart.RangesPartition` | market_data/tick_chart.py:36-39 | every inner index is a candidate of exactly one bucket |
| `TickChart.FindLargest` | market_data/tick_chart.py:44-54 | the inner loop picks the first candidate of greatest triangle area |
| `TickChart.AreaIsDistance` | market_data/tick_chart.py:48-54 | the area is the vertical distance of the candidate from the line between previous pick and next average, times a width all candidates share: the pick is the farthest from that line |
| `TickChart.AverageAppend` | market_data/tick_chart.py:31-34 | the average is the mean of times and prices |
| `TickChart.NextAverageIs` | market_data/tick_chart.py:28-34 | the average is over the next bucket's candidates, and before the last bucket it is the last tick |
| `TickChart.FirstIsFloor` | market_data/tick_chart.py:36-39 | a bucket starts after the whole ticks that fit before it |
| `TickChart.WidthsAreEven` | market_data/tick_chart.py:36-39 | no two candidate ranges differ in width by more than one tick |
| `TickChart.DownsampleTicks` | market_data/tick_chart.py:11-60 | refused exactly below three points; all ticks when they fit; otherwise the sample of first maximisers, bucket by bucket |
| `TickChart.SampleIncreases` | market_data/tick_chart.py:24-60 | a sample has exactly `max_points` strictly increasing indices and keeps both endpoints |
| `TickChart.SampleUnique` | market_data/tick_chart.py:24-60 | the specification of a sample has one solution |
| `OutcomeStore.InMemoryOutcomeStore.Append` | analytics/outcome_store.py:30-36 | appended if and only if the identifier is new; refused otherwise with nothing changed |
| `OutcomeStore.InMemoryOutcomeStore.ListOutcomes` | analytics/outcome_store.py:38-40 | every outcome once, by close time, equal times in order of recording |
| `OutcomeStore.PnlIsCashFlow` | analytics/types.py:43-49 | a trade realises the cash it returns less the cash it takes: a short trade is the negated long one, and splitting a trade splits its result |
| `StableSort.SortCorrect` | analytics/outcome_store.py:38-40 | the result is sorted, a permutation, and stable |
| `Analytics.MaximumDrawdown` | analytics/engine.py:82-94 | the single pass returns the largest loss between any two points of the curve, whatever the starting equity, and the fraction at the first point that reaches it |
| `Analytics.MaxDrawdownIsLargest` | analytics/engine.py:82-94 | the one-pass recurrence equals the maximum over all i <= j of equity i minus equity j |
| `Analytics.FractionLargestExactly` | analytics/engine.py:82-94 | the reported fraction is the largest for every starting equity if and only if no drawdown weighed with the peak before the largest one exceeds the largest weighed with its own peak, a condition on the results alone |
| `Analytics.FractionIsNotTheLargest` | analytics/engine.py:91-93 | and it need not be the largest: a concrete curve |
| `Analytics.PeriodStatistics` | analytics/engine.py:96-107 | one entry per key with outcomes, in key order, each over exactly the outcomes of its key |
| `Analytics.RateMeans` | analytics/engine.py:43-54 | wins and defeats are the trades with a gain and with a loss, and the win rate leaves trades without either out |
| `Analytics.FactorMeans` | analytics/engine.py:43-57 | the profit factor is the ratio of all gains to all losses, whose difference is the realised result, missing exactly without losses |
| `Analytics.ExpectancyMeans` | analytics/engine.py:59-59 | the expectancy times the number of trades is the realised result |
| `Analytics.PeriodsAddUp` | analytics/engine.py:96-107 | for any key, counts and realised results of the periods add up to the overall ones |
| `Analytics.PeriodsAreContiguous` | analytics/engine.py:96-107 | over outcomes sorted by key the periods laid end to end are the whole history |
| `Analytics.SnapshotPeriods` | analytics/engine.py:33-41 | in every report by close time, with keys that follow the close time, the periods are contiguous and none reports a larger drawdown than the whole |
| `Analytics.PeriodDrawdownBounded` | analytics/engine.py:96-107 | when no key is interleaved with another, no period reports a larger drawdown than the whole |
| `Analytics.PeriodDrawdownExactly` | analytics/engine.py:96-107 | for keys read off the close time, periods are bounded whatever the trades realised if and only if no key is interleaved with another |
| `Analytics.InterleavedPeriodLosesMore` | analytics/engine.py:96-107 | without monotone keys a period can report a larger drawdown: a concrete history |
| `Analytics.AnalyticsEngine.Snapshot` | analytics/engine.py:33-41 | the report covers exactly the stored outcomes, by close time, and with keys that follow it the periods are contiguous and bounded by the whole |
| `LiveChart.SampleIndexNearest` | frontend/src/main.jsx:80-81 | a sampled index is the integer nearest to the exact position, halves up |
| `LiveChart.SampleIsIndexSample` | frontend/src/main.jsx:78-82 | every point when they fit, otherwise exactly `maximum` points at strictly increasing indices with both endpoints |
| `LiveChart.MergeKeeps` | frontend/src/main.jsx:89-99 | one merged point keeps the series sorted and bounded, and it ends with the incoming point unless that is older |
| `LiveChart.FullSeriesIsSampled` | frontend/src/main.jsx:84-99 | a series of 1200 points that gets one more becomes a sample of 720 of the 1201 with both ends |
| `LiveChart.StreamKeepsSeries` | frontend/src/main.jsx:84-99 | after any stream in any order the series is sorted, at most 1200 points, made of points seen, and ends with the newest time |
| `LiveChart.StreamGrowth` | frontend/src/main.jsx:89-99 | while the series fits, any stream grows it by exactly the points that lie more than 150 ms after the running maximum |
| `LiveChart.NeverGrowsExactly` | frontend/src/main.jsx:95-97 | a stream of any length adds no point if and only if it has no such point |
| `LiveChart.FastStreamReplaces` | frontend/src/main.jsx:95-97 | a stream whose every gap is at most 150 ms leaves only its last point, in place of the last one |
| `LiveChart.NearestIndexByTimestamp` | frontend/src/main.jsx:155-166 | the binary search terminates, and on a non-empty sorted series returns an index of minimum time distance, the earlier of an earlier and a later one as near |

## Left out

- Trading calendar library: sessions, holidays, time zones and week and month arithmetic come in as a
  sorted sequence of disjoint sessions carrying their day number and month bounds.
- Decimal precision, float rounding and the declared digit limits of validated fields: exact reals are
  used, so a value that validation would reject for its digits is accepted. An average true range of
  zero, which the risk context rejects, is passed on as it is.
- Normalisation and field validation of ticks, candles and settings: values are taken as validated,
  symbols as upper case. Preconditions such as a positive price state what validation enforces.
- SHA-256 in the order id: the digest is taken as injective, so the id is the text that is digested.
- Execution.IdIdentifiesSignal: requires symbols and ISO timestamps without `|`, as their formats guarantee; strategy names are arbitrary.
- TradingPipeline.EveryScheduleIsSequential: ticks come from the workers only, without stop, cancellation,
  store exceptions or a second REST ingress, and a tick passes in two atomic steps, the filter and the engine.
- TradingOrchestrator.TradingOrchestrator.ProcessTick: one tick at a time; the awaits inside the orchestrator
  do not interleave, and intents end at the hand-over to risk and execution, which are modelled separately.
- The hub, the signal store and every published event of the orchestrator.
- CandleEngine.CandleEngine.FinalizeThrough: leaves the order of the completed candles open, where the engine
  follows dictionary order.
- PortfolioLimits.RunStaysWithin: covers BUY entries and exits, not SELL entries, which open short positions; assumes
  fills at the entry price, unchanged marks and buying power above zero.
- PortfolioLimits.ConcurrentEntriesExactly: also BUY entries only, filled at the entry price.
- ControlPlane.RuntimeIsStored: assumes that applying does not raise and that a failed commit did not commit;
  ControlPlane.SynchronisedExactly covers the other cases for one update.
- ExecutionService.AutomatedExecutionService.ExecuteEntry: one call at a time against the in-memory store and a
  broker that raises only for the gate or an empty position; the interleaved protocol with failures is Execution.
- ExecutionService.AutomatedExecutionService.ExecuteExit: the broker's positions do not change during the call; a broker
  without positions is the mock.
- The rest of the Alpaca adapters and all provider traffic: in them an await separates the gate check from the submission.
- LiveChart.StreamGrowth: states growth while the series fits its 1200 points; beyond that
  LiveChart.StreamKeepsSeries bounds it.
- SQL and Redis mechanics: stores are atomic maps and logs, without caches or expiry.
- Validation of provider candles, and the choice between provider and fallback history.
- The strategy engine's dispatch of ticks, which is the same loop with another handler.
- Sharpe ratio, averages of gains, losses and holding times: direct formulas.
- StableSort.SortCorrect: models the library sort by its result, as an insertion sort.
- Dashboard rendering, HTTP routes, WebSocket hub, settings, logging, metrics and deployment.
