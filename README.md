# Candle pipeline of crypto-core-services, modelled in Dafny

This project models the candle pipeline of the crypto-core-services back end: the part
that turns an exchange's trades into rolling OHLCV histories per symbol and time frame.
It covers:

- **Time-frame arithmetic** (`misc.utils.ts`, `klines.utils.ts`, `mapping.utils.ts`):
  - time-frame tokens such as `5m`: their metadata, their length in milliseconds, the canonical
    order of a token list;
  - candle open times and stepping n candles back or forward;
  - folding a trade into a candle;
  - counting and synthesising the candles missing between two candles, and filling every gap of
    a candle list;
  - conversion to and from TradingView resolutions;
  - the exchange-market predicates.
- **The klines builder**: per symbol and time frame, a reference candle and a deferred build
  start time. Each trade is folded into the time frames whose start time has passed.
- **The symbols state manager**, the richest part:
  - a rolling history per tracked symbol and configured time frame;
  - FK updates (a new open time: gap-filled, then trimmed to `historyLen`) and IK updates (the
    forming candle replaced in place), each sent to the gateway only once the history is loaded,
    with IK throttled to one per 100 ms;
  - a one-shot `loaded`/`loading` state machine, with one history-load request per (symbol,
    time frame);
  - the merge of the loaded history in front of the live one.
- **The history loader**:
  - a FIFO job queue behind a `busy` flag;
  - the per-exchange tables that decide the interval requested and whether resampling is needed;
  - the Binance and Bybit paginators, run over a page oracle. Every REST call is one element of
    a given sequence of answers. A caught failure is an element of its own, and running out of
    answers means the call is still pending.
- **The scanner**: instrument admission, the cap on tracked symbols, hand-over of only the new
  symbols, and the `base/quote` republishing of build results.
- **The connections manager of the trades watcher**: a reconnection counter with a
  per-socket log, the cap warning and the periodic reset.

Each source file is one Dafny module. State the source updates in place lives in a class whose
methods are proved against specification functions; the properties are proved about those
functions as lemmas.

- Times are integer milliseconds. Prices and volumes are `real`.
- `Date.now()`, `new Date()` and `randomUUID()` are parameters.
- What a service hands to a subject (the gateway, the history loader, the logger) is appended to
  a log field.
- JavaScript details that change outcomes are modelled explicitly:
  - `slice(-0)` keeps the whole list;
  - `0` and an absent key are both falsy;
  - reading a field of `undefined` is an `Err(TypeError)`;
  - `+s` is modelled on the empty string (0) and on strings of decimal digits (their value);
    every other string yields `None`, standing for `NaN` (see "## Left out" for the numeric
    strings this treats as `NaN`).

Where the code and its documentation disagree, the model follows the code:

- `buildKlines` lists every registered time frame in `timeFrames`, not only the ones it advanced.
- The start-time multiplier applies only to second time frames of at most 15 s.
- The scanner reads `blacklist`/`whitelist`, not the `baseAssets…` fields its config type
  declares, so both may be absent. An absent whitelist is guarded and filters nothing; an absent
  blacklist makes `!blacklist.includes(…)` throw a `TypeError` as soon as the exchange lists an
  instrument (`GetScannableSymbols`).
- The first IK branch of `updateHistories` (symbols-state-manager.service.ts:112-119) cannot be
  reached, because `canDispatchIKUpdate` records the time before it returns. Both IK branches
  therefore collapse into one.
- The history merge reads `history[history.length - 1][0]`. It is modelled with its error path:
  an empty history is a `TypeError` rather than a precondition. The filter before it has already
  removed the request id, so the id is removed and the subscription ends; the histories are
  unchanged. In the process this error escapes a subscription without an error callback.

## Model

| member | source | states |
|---|---|---|
| Common.SliceLast | src/modules/history-loader/services/history-loader.service.ts:90 | `slice(-n)` gives the last n elements as a suffix of the list; n = 0 keeps the whole list |
| Common.RemoveAll | src/modules/symbols-state-manager/symbols-state-manager.service.ts:250-252 | the id is absent afterwards, and an element remains iff it was present and differs from the id |
| TimeFrames.ParseAgreesWithMetadata | src/shared/utils/misc.utils.ts:27-66 | `parseTimeFrameToMs` is amount × scale(unit) × 1000 over the token's metadata; an unknown unit throws; a NaN amount gives NaN |
| TimeFrames.ParseTimeFrameToMs | src/shared/utils/misc.utils.ts:27-51 | `parseTimeFrameToMs`: the unit's scale in seconds (s 1 … y 365 days) × amount × 1000, a throw for any other unit, NaN for a non-numeric amount; `ParseAgreesWithMetadata` and `ValidTfIff` state it over the metadata |
| TimeFrames.GetTfMetadata | src/shared/utils/misc.utils.ts:60-66 | `getTfMetadata`: the unit is the last character (`""` for the empty token) and the amount `+` of the rest; `ParseAgreesWithMetadata` ties it to `parseTimeFrameToMs` |
| TimeFrames.FiveMinutesExample | src/shared/utils/misc.utils.ts:27-66 | `5m` has unit `m` and amount 5, and lasts 300000 ms |
| TimeFrames.ValidTfIff | src/shared/utils/misc.utils.ts:27-51 | a token is usable iff `parseTimeFrameToMs` returns a positive number, and that number is its period |
| TimeFrames.SortProps | src/shared/utils/misc.utils.ts:103-109 | the numeric sort of a bucket is sorted and a permutation of its input |
| TimeFrames.FillBuckets | src/shared/utils/misc.utils.ts:69-100 | after the forEach pass, bucket k holds, in input order, the amounts of exactly the tokens whose unit has rank k |
| TimeFrames.OrderTFs | src/shared/utils/misc.utils.ts:68-111 | the bucket-filling loop followed by sorting and concatenation computes the ordered token list |
| TimeFrames.OrderedTFs | src/shared/utils/misc.utils.ts:68-111 | the order `orderTFs` produces: each unit's amounts sorted numerically, units in the order s, m, h, d, w, M, y; `OrderedTFsSorted`, `OrderedTFsLength` and `OrderedTFsIdempotent` state its properties and `OrderTFs` computes it |
| TimeFrames.OrderedTFsSorted | src/shared/utils/misc.utils.ts:102-110 | the output is ordered by unit rank s<m<h<d<w<M<y, then by amount |
| TimeFrames.OrderedTFsLength | src/shared/utils/misc.utils.ts:76-100 | the output has one token per known-unit input: unknown units are dropped |
| TimeFrames.OrderedTFsIdempotent | src/shared/utils/misc.utils.ts:68-111 | ordering an ordered list returns it unchanged |
| TimeFrames.Distinct | src/shared/utils/misc.utils.ts:10-12 | `getDistinctStrings` has the same elements as its input |
| TimeFrames.DistinctProps | src/shared/utils/misc.utils.ts:10-12 | no duplicates, and elements appear in order of first occurrence |
| TimeFrames.RemoveSymbolSlashFirstOnly | src/shared/utils/misc.utils.ts:6-8 | only the first `/` is removed |
| TimeFrames.RemoveSymbolSlashNoSlash | src/shared/utils/misc.utils.ts:6-8 | a symbol without `/` is returned unchanged |
| ExchangeGuards.ExchangesDisjoint | src/shared/typeguards/is-exchange.guard.ts:3-9 | no market is both a Binance and a Bybit one |
| ExchangeGuards.IsBinanceExchange | src/shared/typeguards/is-exchange.guard.ts:3-5 | the market name starts with `binance_`; `PrefixDecides` and `ExchangesDisjoint` relate it to the other guards |
| ExchangeGuards.IsBybitExchange | src/shared/typeguards/is-exchange.guard.ts:7-9 | the market name starts with `bybit_`; never together with `IsBinanceExchange` (`ExchangesDisjoint`) |
| ExchangeGuards.IsBybitLinearMarket | src/shared/typeguards/is-exchange.guard.ts:11-13 | the market is exactly `bybit_linear`; `DeclaredMarketsExactlyOne` places it among the exchange guards |
| ExchangeGuards.IsBybitSpotMarket | src/shared/typeguards/is-exchange.guard.ts:15-17 | the market is exactly `bybit_spot` |
| ExchangeGuards.IsBinanceSpotMarket | src/shared/typeguards/is-exchange.guard.ts:19-21 | the market is exactly `binance_spot` |
| ExchangeGuards.DeclaredMarketsExactlyOne | src/shared/typeguards/is-exchange.guard.ts:3-21 | each declared market belongs to exactly one exchange, and the linear/spot equalities agree with the prefixes |
| ExchangeGuards.PrefixDecides | src/shared/typeguards/is-exchange.guard.ts:3-9 | the `binance_` or `bybit_` prefix alone decides the exchange |
| Mapping.RoundedHours | src/shared/utils/mapping.utils.ts:24-30 | `toFixed(0)` of minutes / 60 is the nearest whole hour, with halves rounded up |
| Mapping.TvToCcs | src/shared/utils/mapping.utils.ts:4-22 | the conversion throws exactly for a non-numeric resolution whose suffix is not one of S, H, h, D, W, M |
| Mapping.CcsToTv | src/shared/utils/mapping.utils.ts:32-52 | the conversion throws exactly for an empty token or a unit outside s, m, h, d, w, M, y |
| Mapping.TvNumeric | src/shared/utils/mapping.utils.ts:4-30 | a numeric resolution n is `nm` below 60 and rounded hours from 60 on |
| Mapping.TvSuffix | src/shared/utils/mapping.utils.ts:6-21 | S→s, H/h→h, D→d, W→w, M kept; any other suffix throws |
| Mapping.CcsToTvOfToken | src/shared/utils/mapping.utils.ts:32-52 | s→S, m dropped, h→minutes, d→D, w→W, M kept, y→12·n M; any other unit throws |
| Mapping.HoursToMinutesOfToken | src/shared/utils/mapping.utils.ts:54-57 | `hoursToMinutes` of `<n><u>` is 60·n |
| Mapping.RoundTrip | src/shared/utils/mapping.utils.ts:4-52 | converting to TradingView and back gives the token again for s, d, w, M, positive h and m below 60 |
| Mapping.YearRoundTrip | src/shared/utils/mapping.utils.ts:47-48 | a yearly token comes back as 12·n months |
| Klines.FloorTo | src/shared/utils/klines.utils.ts:24 | `Math.floor(ts / p) * p` is the multiple of p in (ts − p, ts] |
| Klines.OpenTime | src/shared/utils/klines.utils.ts:18-25 | a candle's open time is a multiple of the period, ≤ ts and > ts − period |
| Klines.OpenTimeUnique | src/shared/utils/klines.utils.ts:18-25 | the open time is the only period boundary with that property |
| Klines.NthStepsAreBoundaries | src/shared/utils/klines.utils.ts:39-69 | n steps back or forward land on boundaries n periods from the open time, and the two steps undo each other |
| Klines.NthPrevious | src/shared/utils/klines.utils.ts:39-47 | `getNthPreviousKlineOpeningTimeFromTimestamp`: the open time minus n periods; `NthStepsAreBoundaries` states that it is a boundary and undoes `NthNext` |
| Klines.NthNext | src/shared/utils/klines.utils.ts:61-69 | `getNthNextKlineOpeningTimeFromTimestamp`: the open time plus n periods; `NthStepsAreBoundaries` states its properties |
| Klines.BuildKline | src/shared/utils/klines.utils.ts:201-237 | a same-bucket reference keeps its open, takes max/min, closes at the price and adds the amount; otherwise a fresh candle [open time, p, p, p, p, amt] |
| Klines.FoldOneBucket | src/shared/utils/klines.utils.ts:201-237 | folding one bucket's trades gives open = first price, close = last, high = max, low = min, volume = sum |
| Klines.GapsCountAligned | src/shared/utils/klines.utils.ts:152-166 | for times k periods apart, the gap count is k − 1 and there is a gap iff k > 1 |
| Klines.GapsCount | src/shared/utils/klines.utils.ts:152-166 | `getKlineGapsCount`: whole units between the two times (truncated toward zero), divided by the amount, minus one; `GapsCountAligned` gives k − 1 for times k periods apart |
| Klines.HasGapsIff | src/shared/utils/klines.utils.ts:175-181 | there is a gap iff more whole units than the amount separate the two times |
| Klines.HasGaps | src/shared/utils/klines.utils.ts:175-181 | `klinesHasGaps`: the gap count is positive; `HasGapsIff` restates it as more whole units than the amount |
| Klines.IterCountOfGaps | src/shared/utils/klines.utils.ts:123 | with t whole units and amount a, the filler loop runs (t − 1) / a times |
| Klines.GenerateMissingKlines | src/shared/utils/klines.utils.ts:115-143 | the loop produces exactly as many candles as it runs, none for 0 gaps; the k-th opens k periods after `last`, flat at its close, with no volume |
| Klines.NoGapAfterFills | src/shared/utils/klines.utils.ts:89-101 | after the inserted fillers, the next original candle follows with no gap |
| Klines.FillMissingKlines | src/shared/utils/klines.utils.ts:77-104 | the in-place scan over a copy computes the filled list: each original preceded by its missing candles |
| Klines.FillSpecUA | src/shared/utils/klines.utils.ts:77-104 | the filled list is at least as long as the input and ends with its last candle |
| Klines.FillSpec | src/shared/utils/klines.utils.ts:77-104 | what `fillMissingKlines` returns: each candle followed by the flat fillers up to the next; `FillMissingKlines` computes it and `FillSpecUA`, `OriginalsKept`, `FillsAreFlat`, `FillSpecContiguous` and `FillSpecSpan` state its properties |
| Klines.OriginalsKept | src/shared/utils/klines.utils.ts:77-104 | every original candle appears in the filled list, in the original order |
| Klines.FillsAreFlat | src/shared/utils/klines.utils.ts:131-136 | every filled candle is an original or is flat at the close of the candle before it, with no volume |
| Klines.FillSpecContiguous | src/shared/utils/klines.utils.ts:77-104 | for aligned, strictly increasing input, consecutive filled candles are exactly one period apart |
| Klines.FillSpecSpan | src/shared/utils/klines.utils.ts:77-104 | the filled list runs from the first original to the last, one candle per period |
| LoaderPages.TrimKlines | src/modules/history-loader/services/binance-history-loader.service.ts:225-230 | the trimmed page is a prefix, empty or ending before the end time, and every candle removed opens at or after it |
| LoaderPages.RemoveOverflowingKlines | src/modules/history-loader/services/binance-history-loader.service.ts:225-230 | the pop loop computes the trimmed page |
| LoaderPages.TrimChangesIffPast | src/modules/history-loader/services/binance-history-loader.service.ts:220-223 | trimming changes a page iff `lastKlineTimeIsPastEndTime` holds for it |
| LoaderPages.TrimmedAscendingBefore | src/modules/history-loader/services/binance-history-loader.service.ts:225-230 | a trimmed ascending page stays ascending and lies before the end time |
| LoaderPages.TrimKeepsPageBefore | src/modules/history-loader/services/binance-history-loader.service.ts:225-230 | a page that does not reach the end time is not trimmed |
| BinanceLoader.KlineRequests | src/modules/history-loader/services/binance-history-loader.service.ts:173-215 | the first candle request is at the target time; each later one is one period past the last candle received |
| BinanceLoader.RunKlines | src/modules/history-loader/services/binance-history-loader.service.ts:166-218 | the candle loop from a cursor: a failure retries, an empty page ends it, a page reaching the end time is trimmed and ends it, any other page moves the cursor one period past its last candle; the lemmas below and the method's ensures state its properties |
| BinanceLoader.KlineRequestsFollowCursor | src/modules/history-loader/services/binance-history-loader.service.ts:212-214 | every request uses the cursor the earlier answers left |
| BinanceLoader.KlinesIgnoreFailures | src/modules/history-loader/services/binance-history-loader.service.ts:179-195 | failed calls are retried transparently: the result depends only on the answered pages |
| BinanceLoader.KlinesBeforeEnd | src/modules/history-loader/services/binance-history-loader.service.ts:202-205 | with ascending pages, every candle returned opens before the end time |
| BinanceLoader.BinanceHistoryLoader.constructor | src/modules/history-loader/services/binance-history-loader.service.ts:14-20 | the trade abort flag starts lowered |
| BinanceLoader.BinanceHistoryLoader.AbortFetch | src/modules/history-loader/services/binance-history-loader.service.ts:22-25 | `trades` raises the abort flag; `klines` does nothing |
| BinanceLoader.BinanceHistoryLoader.FetchKlinesBackwardsUntilKlineOpenTime | src/modules/history-loader/services/binance-history-loader.service.ts:166-218 | the candle loop makes the requests and returns the candles of the paging specification |
| BinanceLoader.BinanceHistoryLoader.TakeTradesAnswer | src/modules/history-loader/services/binance-history-loader.service.ts:37-81 | one answer of a trade loop: an abort raises the flag; an empty page, or one with no trade before the end time, throws; a page reaching the end time is trimmed and ends the loop; otherwise the loop goes on from the page's last id |
| BinanceLoader.BinanceHistoryLoader.FetchTradesBackwardsUntilTradeOpenTime | src/modules/history-loader/services/binance-history-loader.service.ts:27-90 | the collecting trade loop makes the requests, returns the trades (or nothing after an abort) and leaves the flag as the specification says |
| BinanceLoader.BinanceHistoryLoader.FetchTradesBackwardsUntilTradeOpenTimeInChunks | src/modules/history-loader/services/binance-history-loader.service.ts:92-155 | the chunked trade loop hands each page to the callback, as the same specification says |
| BinanceLoader.PopTradesSpec | src/modules/history-loader/services/binance-history-loader.service.ts:239-243 | popping leaves a non-empty prefix ending before the end time; it fails iff every trade is at or after it |
| BinanceLoader.PopTrades | src/modules/history-loader/services/binance-history-loader.service.ts:236-247 | the clone's pop loop: a non-empty prefix of the page, or a failure when every trade is popped; `PopTradesSpec` states which prefix |
| BinanceLoader.TakePage | src/modules/history-loader/services/binance-history-loader.service.ts:53-66 | an empty page throws (`trades.at(-1).T`); a kept page is a non-empty prefix of the page, the whole page when it ends before the end time |
| BinanceLoader.TakeTradesPage | src/modules/history-loader/services/binance-history-loader.service.ts:53-66 | the page handling of both trade loops computes that, and stops the loop exactly when the last trade is at or after the end time |
| BinanceLoader.RemoveOverflowingTrades | src/modules/history-loader/services/binance-history-loader.service.ts:236-247 | the copy is trimmed like that, or a TypeError when no trade lies before the end time |
| BinanceLoader.TradeRequests | src/modules/history-loader/services/binance-history-loader.service.ts:40-45 | the first trade request asks from the target time; each later one asks from the last aggregate id |
| BinanceLoader.NextTradeRequest | src/modules/history-loader/services/binance-history-loader.service.ts:40-45 | `fromId` is the last collected id, `startTime` the target time while no truthy id is known; `TradeRequests` and `TradeRequestsFollowLastId` state the resulting request sequence |
| BinanceLoader.RunTrades | src/modules/history-loader/services/binance-history-loader.service.ts:36-81 | the trade loop: answers are taken one by one until a step stops it; `TradeRequests`, `TradeRequestsFollowLastId` and `AbortIff` state its requests and its abort |
| BinanceLoader.StepTrades | src/modules/history-loader/services/binance-history-loader.service.ts:37-81 | one answer of the trade loop: a failure retries unless the flag is raised, a page is taken (`TakePage`), the loop stops at the end time or on the flag, else continues from the page's last id; `TakeTradesAnswer` is proved against it |
| BinanceLoader.TradeRequestsFollowLastId | src/modules/history-loader/services/binance-history-loader.service.ts:80 | each request continues from the last id the earlier answers brought |
| BinanceLoader.AbortIff | src/modules/history-loader/services/binance-history-loader.service.ts:81-87 | the loop ends aborted only after an abort request, and after one it stops at the next answer |
| BybitLoader.Reverse | src/modules/history-loader/services/bybit-history-loader.service.ts:48 | each page is used in reverse (ascending) order |
| BybitLoader.FetchKlinesBackwardsUntilKlineOpenTime | src/modules/history-loader/services/bybit-history-loader.service.ts:23-86 | the candle loop makes the requests and returns the candles of the Bybit paging specification |
| BybitLoader.RunBybit | src/modules/history-loader/services/bybit-history-loader.service.ts:23-86 | the Bybit candle loop: each page reversed, trimmed at the end time, stopped on an empty page or a repeated first candle, else appended with the cursor one period past its last candle; `BybitNoRepeatsBeforeEnd` and `BybitIgnoresFailures` state its properties |
| BybitLoader.BybitNoRepeatsBeforeEnd | src/modules/history-loader/services/bybit-history-loader.service.ts:66-82 | thanks to the repeat check, no two neighbouring candles returned share an open time, and all open before the end time |
| BybitLoader.BybitIgnoresFailures | src/modules/history-loader/services/bybit-history-loader.service.ts:36-54 | failed calls are retried transparently |
| BybitLoader.NoAdjacentRepeatsAppend | src/modules/history-loader/services/bybit-history-loader.service.ts:66-78 | appending a page that does not repeat the last candle keeps neighbours distinct |
| BybitLoader.FetchTradesBackwardsUntilTradeOpenTime | src/modules/history-loader/services/bybit-history-loader.service.ts:88-95 | not implemented: it throws |
| BybitLoader.FetchTradesBackwardsUntilTradeOpenTimeInChunks | src/modules/history-loader/services/bybit-history-loader.service.ts:97-105 | not implemented: it throws |
| HistoryLoader.GetHistoryLoader | src/modules/history-loader/services/history-loader.service.ts:238-246 | the Binance loader iff `binance_*`, the Bybit loader iff `bybit_*`, otherwise an error; never an error for a declared market |
| HistoryLoader.DeclaredMarketIsKnown | src/modules/history-loader/services/history-loader.service.ts:238-246 | every declared market has a loader |
| HistoryLoader.BybitResamplesMore | src/modules/history-loader/services/history-loader.service.ts:159-191 | whatever Binance resamples, Bybit resamples too; only 8h and 3d are resampled on Bybit alone |
| HistoryLoader.TfNeedsResampling | src/modules/history-loader/services/history-loader.service.ts:159-191 | a Binance or Bybit time frame needs resampling iff its unit is in the exchange's table and its amount is not served; any other market never; `BybitResamplesMore` compares the two tables |
| HistoryLoader.CCSTimeFrameToExchangeTimeFrame | src/modules/history-loader/services/history-loader.service.ts:193-236 | the interval asked of the exchange: for Binance `1s` for seconds, else the token as written; for Bybit `1s` for seconds, a throw for y, a served minute amount or `1` for m, the minutes of a served hour amount, `720` above 12 h or `1` for h, and `D`/`W`/`M` for d/w/M; `undefined` otherwise; `IntervalThrowsIffSentinel`, `BinanceAsksNativeTokens` and `BybitIntervalIffNative` state it |
| HistoryLoader.IntervalThrowsIffSentinel | src/modules/history-loader/services/history-loader.service.ts:203-208 | the interval mapping throws exactly for a yearly Bybit time frame |
| HistoryLoader.BinanceAsksNativeTokens | src/modules/history-loader/services/history-loader.service.ts:161-201 | a Binance time frame needs no resampling iff it is in the native table, and then it is requested as written |
| HistoryLoader.BybitIntervalIffNative | src/modules/history-loader/services/history-loader.service.ts:176-236 | a Bybit minute or hour time frame is requested as its own minutes iff it needs no resampling |
| HistoryLoader.FetchRange | src/modules/history-loader/services/history-loader.service.ts:118-132 | fetching starts at the boundary `len` candles before the reference; with pages in exchange order, every candle opens before the reference time |
| HistoryLoader.SentinelIff | src/modules/history-loader/services/history-loader.service.ts:110-114 | the `[null]` sentinel comes back iff the time frame is yearly on Bybit, so never for Binance |
| HistoryLoader.ResampleRejectedIff | src/modules/history-loader/services/history-loader.service.ts:134-142 | resampling throws iff a d/w/M time frame is not native to the exchange |
| HistoryLoader.EmittedHistory | src/modules/history-loader/services/history-loader.service.ts:78-91 | the emitted history is the last `len` collected candles, all before the reference time |
| HistoryLoader.StepKeepsArrivalOrder | src/modules/history-loader/services/history-loader.service.ts:57-59 | one add or tick keeps "emitted then queued" equal to the arrival order |
| HistoryLoader.ServedInArrivalOrder | src/modules/history-loader/services/history-loader.service.ts:61-101 | FIFO: jobs are emitted in the order they were queued, and earlier emissions never change |
| HistoryLoader.Process | src/modules/history-loader/services/history-loader.service.ts:61-101 | `processNextQueuedJob`: an empty queue clears `busy`; a finished job is emitted and shifted with `busy` cleared; a pending or throwing job stays queued with `busy` set; `EmittedHistory`, `StepKeepsArrivalOrder` and `BybitYearlyJobWedges` state its effects |
| HistoryLoader.TickSpec | src/modules/history-loader/services/history-loader.service.ts:37-42 | one interval tick: a job starts only when idle with a queued job; `BusyStaysBusy` and `ServedInArrivalOrder` state what ticks do over time |
| HistoryLoader.BusyStaysBusy | src/modules/history-loader/services/history-loader.service.ts:37-42 | as written, a busy service never starts another job or emits again |
| HistoryLoader.BybitYearlyJobWedges | src/modules/history-loader/services/history-loader.service.ts:61-101 | as written, a Bybit yearly job wedges the queue for good |
| HistoryLoader.GuardedQueueDrains | src/modules/history-loader/services/history-loader.service.ts:61-101 | with the job removed and the flag cleared however the job ends, the queue drains one job per tick |
| HistoryLoader.HistoryLoaderService.constructor | src/modules/history-loader/services/history-loader.service.ts:18-43 | an empty queue, not busy, nothing emitted |
| HistoryLoader.HistoryLoaderService.AddJobToQueue | src/modules/history-loader/services/history-loader.service.ts:57-59 | the job goes to the tail |
| HistoryLoader.HistoryLoaderService.Tick | src/modules/history-loader/services/history-loader.service.ts:37-42 | a tick starts a job only when idle with a queued job |
| HistoryLoader.HistoryLoaderService.ProcessNextQueuedJob | src/modules/history-loader/services/history-loader.service.ts:61-101 | the job is processed as the queue specification says |
| HistoryLoader.HistoryLoaderService.CollectKlines | src/modules/history-loader/services/history-loader.service.ts:103-145 | the collection follows the sentinel, loader, fetch and resampling rules |
| HistoryLoader.CollectSpec | src/modules/history-loader/services/history-loader.service.ts:103-145 | `collectKlines`: sentinel, loader, target time, fetch, and resampling when needed; `FetchRange`, `SentinelIff` and `ResampleRejectedIff` state its parts and `CollectKlines` computes it |
| KlinesBuilder.MultiplierOfToken | src/modules/klines-builder/klines-builder.service.ts:105-112 | the multiplier is 10 for second time frames of at most 15 s, 1 otherwise |
| KlinesBuilder.StartTimeMultiplier | src/modules/klines-builder/klines-builder.service.ts:105-112 | `getStartTimeMultiplier`: 10 for second time frames of at most 15 s, otherwise 1; `MultiplierOfToken` states it per token |
| KlinesBuilder.BuildStartTime | src/modules/klines-builder/klines-builder.service.ts:76-84 | the deferred start, `multiplier` candles after the current one; `BuildStartTimeIsBoundaryAfterNow` states that it is a boundary in (now, now + m·p] |
| KlinesBuilder.BuildStartTimeIsBoundaryAfterNow | src/modules/klines-builder/klines-builder.service.ts:76-86 | every build start time is a boundary strictly after now, within `multiplier` periods |
| KlinesBuilder.BuiltKlinesMembers | src/modules/klines-builder/klines-builder.service.ts:37-55 | a time frame is built iff its start time is not after the trade, and its candle is the trade folded into its reference |
| KlinesBuilder.BuiltKlines | src/modules/klines-builder/klines-builder.service.ts:37-55 | the candles `buildKlines` reports for a trade; `BuiltKlinesMembers` states which time frames and what candles, and `BuildSymbolKlines` computes it |
| KlinesBuilder.AdvancedRefsProps | src/modules/klines-builder/klines-builder.service.ts:45-51 | each built reference becomes the trade's candle; unbuilt time frames keep theirs |
| KlinesBuilder.NullRefs | src/modules/klines-builder/klines-builder.service.ts:92 | every listed time frame gets a null reference |
| KlinesBuilder.StartTimes | src/modules/klines-builder/klines-builder.service.ts:79-86 | every listed time frame gets its deferred start time |
| KlinesBuilder.InitValid | src/modules/klines-builder/klines-builder.service.ts:67-95 | initialising keeps the builder's tables consistent |
| KlinesBuilder.InitListed | src/modules/klines-builder/klines-builder.service.ts:71-93 | each symbol initialised has null references and deferred start times for exactly its time frames; re-initialising wipes its references |
| KlinesBuilder.InitUnlisted | src/modules/klines-builder/klines-builder.service.ts:71-94 | symbols not listed are left as they were |
| KlinesBuilder.Builder.constructor | src/modules/klines-builder/klines-builder.service.ts:23-24 | empty tables |
| KlinesBuilder.Builder.BuildKlines | src/modules/klines-builder/klines-builder.service.ts:26-58 | an uninitialised symbol fails with nothing changed; otherwise the result lists all registered time frames, the built candles become the references, and nothing else changes |
| KlinesBuilder.Builder.BuildSymbolKlines | src/modules/klines-builder/klines-builder.service.ts:37-55 | the loop over the time frames builds exactly the specified candles |
| KlinesBuilder.Builder.BuildTimeFrame | src/modules/klines-builder/klines-builder.service.ts:40-52 | a time frame whose start time lies after the trade is skipped; otherwise the trade is built into its reference, which is replaced and reported |
| KlinesBuilder.Builder.InitializeSymbolsBuildStartTimes | src/modules/klines-builder/klines-builder.service.ts:67-95 | the tables become the initialisation specification |
| KlinesBuilder.Builder.InitializeSymbol | src/modules/klines-builder/klines-builder.service.ts:72-93 | the symbol's key becomes fresh tables: a null reference and the deferred start time for each of its time frames, in first-occurrence order; other keys are untouched |
| KlinesBuilder.Builder.InitializeTimeFrame | src/modules/klines-builder/klines-builder.service.ts:75-93 | one time frame gets a null reference and its deferred start time, and joins the key order once |
| KlinesBuilder.FreshKeySnoc | src/modules/klines-builder/klines-builder.service.ts:72-93 | initialising the time frames one after the other yields the fresh tables for the whole list |
| Scanner.CandidatesAppend | src/modules/scanner/scanner.service.ts:160-190 | the candidates keep the exchange's order |
| Scanner.Admitted | src/modules/scanner/scanner.service.ts:160-169 | the admission filter: same quote ignoring case, base not blacklisted, base not ending in `up` or `down`; `CandidatesMembers` states membership through it |
| Scanner.Candidates | src/modules/scanner/scanner.service.ts:160-190 | the admitted and whitelisted instruments as symbols, in exchange order; `CandidatesAppend` and `CandidatesMembers` state it |
| Scanner.CandidatesMembers | src/modules/scanner/scanner.service.ts:160-176 | a symbol is a candidate iff it comes from an admitted instrument that passes the whitelist |
| Scanner.ScannableSymbolsProps | src/modules/scanner/scanner.service.ts:146-193 | no symbols without time frames; otherwise the last `maxScannedAssets` candidates (all of them for 0), each with the configured time frames and market |
| Scanner.NewSymbolsMembers | src/modules/scanner/scanner.service.ts:115-125 | the new symbols are exactly the candidates whose key is not tracked yet |
| Scanner.NewSymbols | src/modules/scanner/scanner.service.ts:115-125 | the candidates not yet tracked, in order; `NewSymbolsMembers`, `NewSymbolsDistinct` and `NewSymbolsLength` state it and `CollectNewSymbols` computes it |
| Scanner.NewSymbolsDistinct | src/modules/scanner/scanner.service.ts:115-125 | when tracked symbols and candidates each have distinct keys, tracking the new symbols adds no repeated key |
| Scanner.ScanKeepsCap | src/modules/scanner/scanner.service.ts:100-144 | a scan never takes the tracked list past the cap, only appends untracked candidates, and adds no repeated key |
| Scanner.ScanSpec | src/modules/scanner/scanner.service.ts:100-144 | `scan` given the scannable symbols: a round over the cap is rejected whole, otherwise the untracked ones are appended and handed over; `ScanKeepsCap` states it |
| Scanner.NewSymbolsLength | src/modules/scanner/scanner.service.ts:115-125 | there are never more new symbols than candidates |
| Scanner.RepublishedCanonical | src/modules/scanner/scanner.service.ts:64-70 | a `base + quote` symbol is republished as `base/quote`, and removing the slash gives it back |
| Scanner.AsWrittenNeverRepublishes | src/modules/scanner/scanner.service.ts:59-73 | as written, the first trade ends the subscription with a TypeError |
| Scanner.AwaitedPipelineRepublishes | src/modules/scanner/scanner.service.ts:59-73 | with the build awaited, the subscription never fails and republishes exactly the intended results |
| Scanner.RepublishKeepsAdvanced | src/modules/scanner/scanner.service.ts:61-71 | republished are exactly the results that advanced some time frame, in order |
| Scanner.Republish | src/modules/scanner/scanner.service.ts:61-71 | the intended republishing: results with an advanced time frame, in order, under `base/quote`; `RepublishKeepsAdvanced` and `RepublishedCanonical` state it |
| Scanner.CollectNewSymbols | src/modules/scanner/scanner.service.ts:115-125 | the loop collects exactly the untracked candidates |
| Scanner.ScannerService.constructor | src/modules/scanner/scanner.service.ts:15-25 | no configuration and nothing tracked |
| Scanner.ScannerService.SetScannerConfig | src/modules/scanner/scanner.service.ts:44-46 | only the configuration changes |
| Scanner.ScannerService.Start | src/modules/scanner/scanner.service.ts:48-54 | without a configuration it fails with nothing changed; otherwise it subscribes with the quote and scans, a scan that throws leaving the symbols unchanged |
| Scanner.ScannerService.Scan | src/modules/scanner/scanner.service.ts:100-144 | it throws exactly when selecting the symbols throws, with nothing changed; otherwise the state becomes the scan specification over the scannable symbols |
| Scanner.GetScannableSymbolsThrowsIff | src/modules/scanner/scanner.service.ts:146-169 | selecting the symbols throws a `TypeError` exactly when the blacklist is absent and the exchange lists an instrument; otherwise it yields the scannable symbols, none for no instruments |
| Scanner.GetScannableSymbols | src/modules/scanner/scanner.service.ts:146-193 | `getScannableSymbols` with its `TypeError` path; `GetScannableSymbolsThrowsIff` and `ScannableSymbolsProps` state its result |
| Scanner.ScannerService.Track | src/modules/scanner/scanner.service.ts:132-134 | the batch is appended to the tracked symbols |
| Scanner.ScannerService.OnBuildResult | src/modules/scanner/scanner.service.ts:59-77 | the corrected (awaited) pipeline: each subscription republishes the built result under its quote when it advanced something; the code as written never gets there (`AsWrittenNeverRepublishes`) |
| ConnectionsManager.TickResets | src/modules/trades-watcher/helpers/connections-manager.helper.ts:58-81 | a tick always ends reset, reports iff the count was non-zero, and is idempotent |
| ConnectionsManager.Track | src/modules/trades-watcher/helpers/connections-manager.helper.ts:41-52 | `trackReconnectionEvent`: one more connection, the time appended to the socket's list, a warning from the cap on; `ReplayEvents`, `ReplayWarnings` and `QuietBelowCap` state it |
| ConnectionsManager.Tick | src/modules/trades-watcher/helpers/connections-manager.helper.ts:58-81 | the reset job's callback: a report when the count is non-zero, then a reset; `TickResets` states it |
| ConnectionsManager.ReplayEvents | src/modules/trades-watcher/helpers/connections-manager.helper.ts:41-45 | each reconnection counts once and appends its time to its own socket's list only |
| ConnectionsManager.ReplayWarnings | src/modules/trades-watcher/helpers/connections-manager.helper.ts:47-51 | a warning is logged exactly when the count has reached the cap, and it changes nothing else |
| ConnectionsManager.QuietBelowCap | src/modules/trades-watcher/helpers/connections-manager.helper.ts:47-51 | after a reset, fewer reconnections than the cap log nothing |
| ConnectionsManager.ConnectionsManagerHelper.constructor | src/modules/trades-watcher/helpers/connections-manager.helper.ts:7-10 | count 0, cap 300, name `unnamed exchange`, no events |
| ConnectionsManager.ConnectionsManagerHelper.SetExchangeName | src/modules/trades-watcher/helpers/connections-manager.helper.ts:16-18 | only the name changes |
| ConnectionsManager.ConnectionsManagerHelper.SetMaxConnectionsCap | src/modules/trades-watcher/helpers/connections-manager.helper.ts:20-22 | only the cap changes |
| ConnectionsManager.ConnectionsManagerHelper.Reset | src/modules/trades-watcher/helpers/connections-manager.helper.ts:32-35 | count 0 and no events; nothing else changes |
| ConnectionsManager.ConnectionsManagerHelper.IncrementConnectionsCount | src/modules/trades-watcher/helpers/connections-manager.helper.ts:37-39 | the count grows by `inc` (default 1); nothing else changes |
| ConnectionsManager.ConnectionsManagerHelper.TrackReconnectionEvent | src/modules/trades-watcher/helpers/connections-manager.helper.ts:41-52 | the state becomes the tracking specification |
| ConnectionsManager.ConnectionsManagerHelper.ResetJobTick | src/modules/trades-watcher/helpers/connections-manager.helper.ts:58-81 | the state becomes the tick specification |
| SymbolsStateManager.Without | src/modules/symbols-state-manager/symbols-state-manager.service.ts:173-178 | an entry remains iff it was present and is not dropped |
| SymbolsStateManager.Within | src/modules/symbols-state-manager/symbols-state-manager.service.ts:173-178 | an entry remains iff it was present and is kept |
| SymbolsStateManager.WithoutComplement | src/modules/symbols-state-manager/symbols-state-manager.service.ts:169-181 | dropping the unconfigured time frames one by one is keeping the configured ones, in order |
| SymbolsStateManager.Filtered | src/modules/symbols-state-manager/symbols-state-manager.service.ts:169-181 | the filtered update lists exactly its configured time frames and drops the candles of the listed unconfigured ones |
| SymbolsStateManager.InterestedFilteredCoversConfig | src/modules/symbols-state-manager/symbols-state-manager.service.ts:183-199 | an update of interest keeps exactly the configured time frames, each with its own candle |
| SymbolsStateManager.IsInterested | src/modules/symbols-state-manager/symbols-state-manager.service.ts:183-199 | `isInterestedInUpdate`: the scanner's market, not blacklisted, whitelisted when the whitelist is non-empty, every configured time frame listed and built; `InterestedFilteredCoversConfig` states what filtering then keeps |
| SymbolsStateManager.RemoveUnwantedTimeFrames | src/modules/symbols-state-manager/symbols-state-manager.service.ts:169-181 | the clone-and-delete loop computes the filtered update and leaves its input alone |
| SymbolsStateManager.EmptyHistories | src/modules/symbols-state-manager/symbols-state-manager.service.ts:225-239 | one empty, unloaded, not-loading history per configured time frame |
| SymbolsStateManager.RequestTf | src/modules/symbols-state-manager/symbols-state-manager.service.ts:201-223 | a request keeps the set of time frames |
| SymbolsStateManager.RequestAll | src/modules/symbols-state-manager/symbols-state-manager.service.ts:204-222 | requests over all time frames keep the set of time frames |
| SymbolsStateManager.RequestAllFlags | src/modules/symbols-state-manager/symbols-state-manager.service.ts:206-210 | candles and `loaded` are untouched, `loading` is never cleared, and every listed time frame ends loaded or loading |
| SymbolsStateManager.RequestAllLogs | src/modules/symbols-state-manager/symbols-state-manager.service.ts:212-220 | each request is for a listed time frame that was neither loaded nor loading, with `historyLen`, the new candle's time and the `xm~sym~tf` ticker |
| SymbolsStateManager.SymbolsStateManagerService.RequestTimeFrame | src/modules/symbols-state-manager/symbols-state-manager.service.ts:205-221 | one time frame: when neither loaded nor loading it is marked loading, its request id recorded as pending and its job queued; nothing else changes |
| SymbolsStateManager.RequestAllPending | src/modules/symbols-state-manager/symbols-state-manager.service.ts:212-220 | requests are only appended, and each one's id is recorded as pending at the same position |
| SymbolsStateManager.RequestAllDistinct | src/modules/symbols-state-manager/symbols-state-manager.service.ts:212-220 | one update never requests the same ticker twice |
| SymbolsStateManager.RequestAllTracked | src/modules/symbols-state-manager/symbols-state-manager.service.ts:206-210 | loaded or loading time frames are never requested |
| SymbolsStateManager.RequestAtMostOnce | src/modules/symbols-state-manager/symbols-state-manager.service.ts:201-223 | a second update for the same time frames requests nothing: at most one request per pair |
| SymbolsStateManager.FilledKlinesShape | src/modules/symbols-state-manager/symbols-state-manager.service.ts:156-167 | `getFilledKlines` gives the missing candles then the new one |
| SymbolsStateManager.FilledKlinesProps | src/modules/symbols-state-manager/symbols-state-manager.service.ts:156-167 | for aligned times, the filled candles step one period at a time up to the new candle, and each filler is flat |
| SymbolsStateManager.FindIndexByTime | src/modules/symbols-state-manager/symbols-state-manager.service.ts:104-106 | the index of the first candle with that open time, or −1 when there is none |
| SymbolsStateManager.UpdateTf | src/modules/symbols-state-manager/symbols-state-manager.service.ts:74-129 | one update changes only that time frame's candles |
| SymbolsStateManager.FormedKlineUpdate | src/modules/symbols-state-manager/symbols-state-manager.service.ts:83-101 | FK: the history becomes the last `historyLen` of old + fillers + new, and ends with the new candle |
| SymbolsStateManager.FormedHistory | src/modules/symbols-state-manager/symbols-state-manager.service.ts:83-101 | the FK history: the old one, the filled candles, then `splice(-historyLen)`; `FormedKlineUpdate` and `UpdateKeepsContiguous` state its properties |
| SymbolsStateManager.IntermediateKlineUpdate | src/modules/symbols-state-manager/symbols-state-manager.service.ts:102-129 | IK: the first candle with that open time is replaced, and the length is unchanged |
| SymbolsStateManager.UpdateTfEmission | src/modules/symbols-state-manager/symbols-state-manager.service.ts:95-128 | the first candle is never emitted; FK is emitted iff loaded; IK iff loaded and not throttled, and only then is the time recorded |
| SymbolsStateManager.IkThrottled | src/modules/symbols-state-manager/symbols-state-manager.service.ts:137-146 | after an IK emission, no IK is emitted for 100 ms |
| SymbolsStateManager.CanDispatchIK | src/modules/symbols-state-manager/symbols-state-manager.service.ts:137-146 | `canDispatchIKUpdate`: no truthy recorded time, or at least 100 ms since it; `IkThrottled` and `UpdateTfEmission` state the throttling |
| SymbolsStateManager.UpdateKeepsContiguous | src/modules/symbols-state-manager/symbols-state-manager.service.ts:83-107 | candles arriving in order keep the history gap-free |
| SymbolsStateManager.UpdateAll | src/modules/symbols-state-manager/symbols-state-manager.service.ts:74-130 | updating all time frames keeps the set of time frames |
| SymbolsStateManager.UpdateAllFrame | src/modules/symbols-state-manager/symbols-state-manager.service.ts:74-130 | updates leave the flags and the unlisted time frames alone, and the gateway log only grows |
| SymbolsStateManager.MergeKeepsOrder | src/modules/symbols-state-manager/symbols-state-manager.service.ts:254-270 | the merge keeps the live history whole at the end, drops a duplicated seam candle, and stays ascending |
| SymbolsStateManager.MergeHistory | src/modules/symbols-state-manager/symbols-state-manager.service.ts:254-270 | the loaded history in front of the live one, without its last candle when that repeats the live first open time; `MergeKeepsOrder` and `MergeKeepsContiguous` state its properties |
| SymbolsStateManager.MergeKeepsContiguous | src/modules/symbols-state-manager/symbols-state-manager.service.ts:254-270 | contiguous parts that meet merge into a contiguous history |
| SymbolsStateManager.Ingest | src/modules/symbols-state-manager/symbols-state-manager.service.ts:56-67 | ingesting touches only the symbol's entry and keeps its time frames |
| SymbolsStateManager.IngestOverwrites | src/modules/symbols-state-manager/symbols-state-manager.service.ts:61-63 | what the entry held before does not matter |
| SymbolsStateManager.HandleSpec | src/modules/symbols-state-manager/symbols-state-manager.service.ts:56-67 | an update not of interest changes nothing; one of interest tracks its symbol; validity is kept |
| SymbolsStateManager.FirstUpdateSeedsHistories | src/modules/symbols-state-manager/symbols-state-manager.service.ts:61-81 | a first-seen symbol gets one history per configured time frame, holding the update's candle and loading |
| SymbolsStateManager.FirstCandleSeeds | src/modules/symbols-state-manager/symbols-state-manager.service.ts:74-81 | an empty history takes the candle silently |
| SymbolsStateManager.HistoryLoadedSpec | src/modules/symbols-state-manager/symbols-state-manager.service.ts:241-273 | a completion applies only while subscribed and for a pending id; on a `TypeError` the id is removed and the subscription ends, the histories unchanged; validity is kept |
| SymbolsStateManager.CompletionMerges | src/modules/symbols-state-manager/symbols-state-manager.service.ts:254-270 | a completion removes its id, merges the histories, and sets loaded and not loading; nothing else changes |
| SymbolsStateManager.CompletionAppliedOnce | src/modules/symbols-state-manager/symbols-state-manager.service.ts:245-253 | the same completion delivered twice is applied once |
| SymbolsStateManager.SymbolsStateManagerService.constructor | src/modules/symbols-state-manager/symbols-state-manager.service.ts:15-25 | not started, not subscribed, no state |
| SymbolsStateManager.SymbolsStateManagerService.Start | src/modules/symbols-state-manager/symbols-state-manager.service.ts:37-48 | once started it answers true with nothing changed; it fails before the scanner has started; otherwise it configures, subscribes and starts |
| SymbolsStateManager.SymbolsStateManagerService.GetSymbolState | src/modules/symbols-state-manager/symbols-state-manager.service.ts:50-54 | the symbol's histories iff it is tracked, else null |
| SymbolsStateManager.SymbolsStateManagerService.HandleNewKlinesUpdate | src/modules/symbols-state-manager/symbols-state-manager.service.ts:56-67 | the state becomes the handling specification |
| SymbolsStateManager.SymbolsStateManagerService.IngestUpdate | src/modules/symbols-state-manager/symbols-state-manager.service.ts:60-63 | the state becomes the ingest specification |
| SymbolsStateManager.SymbolsStateManagerService.InitStateInternal | src/modules/symbols-state-manager/symbols-state-manager.service.ts:225-239 | the symbol's entry becomes the empty histories; nothing else changes |
| SymbolsStateManager.SymbolsStateManagerService.RequestHistoryLoadIfMissing | src/modules/symbols-state-manager/symbols-state-manager.service.ts:201-223 | the loop makes the specified requests |
| SymbolsStateManager.SymbolsStateManagerService.UpdateHistories | src/modules/symbols-state-manager/symbols-state-manager.service.ts:69-131 | the loop makes the specified updates |
| SymbolsStateManager.SymbolsStateManagerService.UpdateTimeFrame | src/modules/symbols-state-manager/symbols-state-manager.service.ts:74-129 | one time frame is updated as specified |
| SymbolsStateManager.SymbolsStateManagerService.GetFilledKlines | src/modules/symbols-state-manager/symbols-state-manager.service.ts:156-167 | the filled candles, ending with the new one |
| SymbolsStateManager.SymbolsStateManagerService.OnHistoryLoaded | src/modules/symbols-state-manager/symbols-state-manager.service.ts:241-273 | the state and result become the completion specification |

## Left out

- Calendar units M and y in gap filling and in the state manager's configuration: a month or a year has no fixed length in milliseconds, so gap arithmetic is restricted to s, m, h, d and w (`FixedWidthTf`, `ConfigValid`).
- Klines.FillMissingKlines: proved for fixed-width time frames only, for the reason above.
- Mapping.RoundTrip: an hour token needs a positive amount, because `0h` converts to `0`, which comes back as `0m`.
- Floating point: prices and volumes are exact reals, and `getNumberPrecision` (misc.utils.ts:2-4) is not modelled.
- `sleepMs`/`sleepS`, `waitForIPLimitCoolDown` and `logPercentageProgress`: timing and logging only.
- `minutesToHours` (mapping.utils.ts:59-61): a real division that nothing in the pipeline calls.
- `Date.now()`, `new Date()` and `randomUUID()` are parameters. A time is one integer, not a `Date` object.
- The resampling library is a parameter (`Resampler`). Its own correctness is not modelled.
- The Bybit request category (linear or spot) is not modelled; it does not change the paging.
- Subjects, gateways and loggers are logs of what was handed to them. Message text is not modelled.
- The order of `Object.keys` in the reset report: the report carries the whole map.
- Cron scheduling (`scheduleConnectionsResetJob`): only the job's callback is modelled, as `ResetJobTick`.
- The one-second `interval` of the history loader: each tick is a call to `Tick`.
- Concurrency: asynchronous steps are not interleaved. Each handler runs to completion, and a loader call that has not yet received all its answers is `StillFetching`.
- A job whose ticker has fewer than three `~` parts: its undefined time frame throws inside the job.
- A completion ticker with fewer than three `~` parts makes JavaScript look up the key `"undefined"`: the model treats the part as missing (a `TypeError`), which differs only for a symbol or time frame literally named `undefined`.
- `getSymStateOrThrow` (symbols-state-manager.service.ts:275-281) cannot throw where `updateHistories` calls it, since the symbol was initialised just before; the model requires the symbol's state instead.
- A second `start` of the scanner subscribes again: the model appends a second subscription and does not deduplicate.
- Duplicate candidates within one scan are not filtered against each other (`NewSymbols`), as in the source.
- Configuration checks: the configuration DTOs carry only documentation decorators and `main.ts` installs a bare `ValidationPipe`, so nothing validates them. The model assumes, as preconditions, what the code needs but never checks: time-frame tokens that `parseTimeFrameToMs` accepts (`ValidTf`, `TfComputable`), a fixed-width, well-formed configuration (`ConfigValid`, and `WellFormedTokens` for `OrderTFs`), and non-negative `maxScannedAssets` and `historyLen` (`nat`). When these fail, the code behaves as follows, and the model does not cover it: a token with an unknown unit throws inside `parseTimeFrameToMs`; a negative `historyLen` makes `splice(-n)` keep the head of the history instead of its tail.
- TimeFrames.ParseAgreesWithMetadata: amounts are restricted to strings of decimal digits. Unary `+` also accepts decimals, signs, surrounding white space, exponents and hexadecimal (`"1.5h"` is 5400000 ms, `"+5m"`, `" 5m"` and `"1e1m"` are numbers); the model gives `NaN` (`None`) for these.
- TimeFrames.ValidTfIff: for the same reason, a token is usable in the model only when its amount is a digit string, while the code also accepts `"1.5h"` and the like.
- Mapping.TvToCcs: a resolution is numeric in the model only when it is a digit string; `"1.5"` or `" 15"` are numbers in the code (minutes) but go to the suffix branch in the model.
- Mapping.CcsToTv: an hour or year amount is converted only when it is a digit string; the code gives `"90"` for `"1.5h"`, the model `"NaN"`.
- KlinesBuilder.InitListed: one clock reading per call. The code reads `Date.now()` again for every (symbol, time frame) (klines-builder.service.ts:80-84), so a clock that crosses a boundary during the loop gives later pairs later start times; the model gives every symbol the same `StartTimes(tfs, now)`. Each start time is still a boundary in (reading, reading + multiplier × period], with its own reading (`BuildStartTimeIsBoundaryAfterNow`).
- KlinesBuilder.Builder.InitializeSymbolsBuildStartTimes: the same single clock reading as `InitListed`.
- SymbolsStateManager.UpdateAll: one clock reading per update. The code reads `Date.now()` for each time frame inside `canDispatchIKUpdate` (symbols-state-manager.service.ts:137-145) and again when it records the emission time (:121), so the recorded time may be a little later than the one compared; the model records the reading it compared with.
- Scanner.CandidatesMembers: case folding is ASCII only (`ToLower` maps A–Z). `toLowerCase()` (scanner.service.ts:162, :165-166) folds all of Unicode, so quote assets such as `"ÄX"` and `"äx"` match in the code and not in the model.
- Scanner.ScannerService.OnBuildResult: every `start` subscription calls `buildKlines` on the same trade, so with two subscriptions the trade is folded into the candles twice; the model folds each trade once and hands the one result to every subscription.
- Unhandled errors: the `subscribe` calls in the state manager and the scanner pass no error callback, and the loader's `processNextQueuedJob` promise and the scanner's `scan` promise are not awaited. An error there (an empty history, a missing blacklist, a throwing job) is an unhandled error or rejection, which by default ends the Node process. The model returns the error: a failed scan changes nothing; a failed completion removes its id and ends the subscription, with the histories unchanged; a throwing job stays queued with the busy flag set. Its later states assume that the process goes on.
- Time zone: `moment(ts)` (klines.utils.ts:126, :157-158) works in the process's local time, so start-of-day and start-of-week arithmetic shifts by an hour across a daylight-saving change. The model assumes a process running in UTC, where every day is 86400000 ms.
- A republish where the quote does not occur in the symbol: the symbol is left unchanged, and `RepublishedCanonical` states the usual case only.

## Findings

| source | as written | input that shows it | evidently intended | confidence | as-written member | corrected member |
|---|---|---|---|---|---|---|
| src/modules/history-loader/services/history-loader.service.ts:61-101 | a job that throws (the Bybit yearly `[null]` sentinel whose `[0]` is read, or resampling a d/w/M/y time frame) never shifts the queue or clears `busy`, so the service stops for good (if the unhandled rejection does not end the process first) | a `bybit_spot~BTCUSDT~1y` job at the head of the queue | a `finally` that shifts the job and clears `busy` however the job ends | not executed | HistoryLoader.BybitYearlyJobWedges | HistoryLoader.GuardedQueueDrains |
| src/modules/scanner/scanner.service.ts:59-73 | `map` yields the un-awaited promise of the async `buildKlines`, so `Object.keys(builtKlines.klines)` reads `undefined` and throws; the first trade raises an unhandled error in the subscription and nothing is republished | any trade on a scanned symbol | `mergeMap` or `await` over `buildKlines`, so the filter reads the built candles | not executed | Scanner.AsWrittenNeverRepublishes | Scanner.AwaitedPipelineRepublishes |
