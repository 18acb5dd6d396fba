/** The history-loader service: a FIFO queue of history-load jobs served one at a time
    behind a `busy` flag, the collection of a job's candles through the exchange's loader,
    and the fixed tables deciding which time frames an exchange serves natively, which
    need resampling and which interval is asked for. */
module HistoryLoader {
  import opened Common
  import opened Strings
  import opened TimeFrames
  import opened Klines
  import opened ExchangeGuards
  import opened LoaderPages
  import BinanceLoader
  import BybitLoader

  /** `IHistoryLoadRequest`: `len` candles before the reference candle of the ticker
      `exchange~symbol~timeFrame`. */
  datatype HistoryLoadRequest = HistoryLoadRequest(reqId: string, ticker: string, len: nat, referenceKlineTime: int)

  /** One `historyLoaded$` emission. */
  datatype HistoryLoaded = HistoryLoaded(reqId: string, ticker: string, history: seq<Kline>)

  /** Which of the two loaders serves a market. */
  datatype LoaderKind = BinanceKind | BybitKind

  /** The resampling library: candles and the target amount to candles. */
  type Resampler = (seq<Kline>, nat) -> seq<Kline>

  // ---------------------------------------------------------------------------
  // Tables

  /** `getHistoryLoader`: the Binance loader for `binance_*`, the Bybit one for `bybit_*`,
      and an error for any other market. */
  function GetHistoryLoader(xm: string): (r: Result<LoaderKind>)
    ensures r == Ok(BinanceKind) <==> IsBinanceExchange(xm)
    ensures r == Ok(BybitKind) <==> IsBybitExchange(xm)
    ensures r.Err? ==> r.error == UnknownExchange
    ensures DeclaredMarket(xm) ==> r.Ok?
  {
    ExchangesDisjoint(xm);
    DeclaredMarketIsKnown(xm);
    if IsBinanceExchange(xm) then Ok(BinanceKind)
    else if IsBybitExchange(xm) then Ok(BybitKind)
    else Err(UnknownExchange)
  }

  lemma DeclaredMarketIsKnown(xm: string)
    ensures DeclaredMarket(xm) ==> IsBinanceExchange(xm) || IsBybitExchange(xm)
  {
    if DeclaredMarket(xm) {
      DeclaredMarketsExactlyOne(xm);
    }
  }

  /** `timeFrameCannotBeResampledFromKlines`: Bybit has no yearly candles. */
  predicate TimeFrameCannotBeResampledFromKlines(xm: string, tf: string) {
    IsBybitExchange(xm) && GetTfMetadata(tf).unit == "y"
  }

  /** The amounts an exchange serves natively per unit (Bybit lacks 8h and 3d). */
  function NativeAmounts(unit: string, bybit: bool): seq<nat>
  {
    if unit == "s" then [1]
    else if unit == "m" then [1, 3, 5, 15, 30]
    else if unit == "h" then (if bybit then [1, 2, 4, 6, 12] else [1, 2, 4, 6, 8, 12])
    else if unit == "d" then (if bybit then [1] else [1, 3])
    else if unit == "w" then [1]
    else if unit == "M" then [1]
    else []
  }

  predicate TableUnit(unit: string) {
    unit == "s" || unit == "m" || unit == "h" || unit == "d" || unit == "w" || unit == "M"
  }

  /** `TfNeedsResampling`: for a Binance or Bybit market, a unit of the tables whose
      amount (NaN included) the exchange does not serve; any other market gets
      `undefined`, which reads as false. */
  predicate TfNeedsResampling(tf: string, xm: string) {
    var meta := GetTfMetadata(tf);
    (IsBinanceExchange(xm) || IsBybitExchange(xm)) && TableUnit(meta.unit) &&
    !(meta.amount.Some? && meta.amount.value in NativeAmounts(meta.unit, !IsBinanceExchange(xm)))
  }

  /** Bybit serves a subset of what Binance serves: the time frames only Bybit must
      resample are exactly 8h and 3d. */
  lemma BybitResamplesMore(tf: string, binance: string, bybit: string)
    requires IsBinanceExchange(binance) && IsBybitExchange(bybit)
    ensures TfNeedsResampling(tf, binance) ==> TfNeedsResampling(tf, bybit)
    ensures TfNeedsResampling(tf, bybit) && !TfNeedsResampling(tf, binance) <==>
            GetTfMetadata(tf) == TfMeta("h", Some(8)) || GetTfMetadata(tf) == TfMeta("d", Some(3))
  {
    ExchangesDisjoint(bybit);
  }

  /** `CCSTimeFrameToExchangeTimeFrame`: the interval asked of the exchange; None is
      `undefined` (an unknown market, or a Bybit unit outside the tables). */
  function CCSTimeFrameToExchangeTimeFrame(tf: string, xm: string): Result<Option<string>>
  {
    var meta := GetTfMetadata(tf);
    if IsBinanceExchange(xm) then
      if meta.unit == "s" then Ok(Some("1s")) else Ok(Some(tf))
    else if IsBybitExchange(xm) then
      if meta.unit == "s" then Ok(Some("1s"))
      else if meta.unit == "y" then Err(BybitYearlyUnsupported)
      else if meta.unit == "m" then
        if meta.amount.Some? && meta.amount.value in [1, 3, 5, 15, 30] then Ok(Some(NatToString(meta.amount.value)))
        else Ok(Some("1"))
      else if meta.unit == "h" then
        if meta.amount.None? then Ok(Some("1"))
        else
          var minutes := 60 * meta.amount.value;
          if minutes in [120, 240, 360, 720] || minutes == 60 then Ok(Some(NatToString(minutes)))
          else if minutes > 720 then Ok(Some("720"))
          else Ok(Some("1"))
      else if meta.unit == "d" then Ok(Some("D"))
      else if meta.unit == "w" then Ok(Some("W"))
      else if meta.unit == "M" then Ok(Some("M"))
      else Ok(None)
    else Ok(None)
  }

  /** The interval mapping throws exactly where the collection answers with the sentinel
      instead of fetching: a yearly Bybit time frame. */
  lemma IntervalThrowsIffSentinel(tf: string, xm: string)
    ensures CCSTimeFrameToExchangeTimeFrame(tf, xm).Err? <==> TimeFrameCannotBeResampledFromKlines(xm, tf)
  {
    ExchangesDisjoint(xm);
  }

  lemma NatToStringInjective(a: nat, b: nat)
    requires NatToString(a) == NatToString(b)
    ensures a == b
  {
    NatToStringRoundTrip(a);
    NatToStringRoundTrip(b);
  }

  lemma TokenMeta(n: nat, u: char)
    ensures GetTfMetadata(NatToString(n) + [u]) == TfMeta([u], Some(n))
  {
    var tf := NatToString(n) + [u];
    assert tf[..|tf| - 1] == NatToString(n);
    NumberOfNatToString(n);
  }

  /** A Binance time frame that needs no resampling is asked for as it is written. */
  lemma BinanceAsksNativeTokens(n: nat, u: char, xm: string)
    requires IsBinanceExchange(xm) && TableUnit([u])
    ensures !TfNeedsResampling(NatToString(n) + [u], xm) <==>
            n in NativeAmounts([u], false) &&
            CCSTimeFrameToExchangeTimeFrame(NatToString(n) + [u], xm) == Ok(Some(NatToString(n) + [u]))
  {
    TokenMeta(n, u);
    if u == 's' && n == 1 {
      assert NatToString(1) + [u] == "1s";
    }
  }

  /** For Bybit minute and hour time frames, the interval asked is the time frame's own
      length in minutes exactly when no resampling is needed; otherwise a finer (or the
      coarsest, 720) interval is fetched and resampled. */
  lemma BybitIntervalIffNative(n: nat, u: char, xm: string)
    requires IsBybitExchange(xm) && (u == 'm' || u == 'h')
    ensures var minutes := if u == 'm' then n else 60 * n;
      CCSTimeFrameToExchangeTimeFrame(NatToString(n) + [u], xm) == Ok(Some(NatToString(minutes))) <==>
      !TfNeedsResampling(NatToString(n) + [u], xm)
  {
    var tf := NatToString(n) + [u];
    TokenMeta(n, u);
    ExchangesDisjoint(xm);
    assert NatToString(1) == "1";
    assert NatToString(720) == "720" by {
      assert NatToString(72) == "72";
    }
    var minutes := if u == 'm' then n else 60 * n;
    var r := CCSTimeFrameToExchangeTimeFrame(tf, xm);
    if r == Ok(Some(NatToString(minutes))) {
      if u == 'h' && !(60 * n in [120, 240, 360, 720] || 60 * n == 60) {
        if 60 * n > 720 {
          NatToStringInjective(60 * n, 720);
        } else {
          NatToStringInjective(60 * n, 1);
        }
      }
    }
  }

  // ---------------------------------------------------------------------------
  // Collecting a job's candles

  /** The outcome of `collectKlines`: still waiting for the exchange, thrown, the
      `[null]` sentinel, or the candles. */
  datatype Collection = Collecting | CollectFailed(error: Failure) | NullSentinel | Collected(klines: seq<Kline>)

  /** A time frame `parseTimeFrameToMs` accepts is one the arithmetic can use (a known
      unit after a positive amount); the tickers the state manager builds come from
      configured time frames. */
  predicate TfComputable(tf: string) {
    ParseTimeFrameToMs(tf).Ok? ==> ValidTf(tf)
  }

  /** The loader's candle loop over [nthPrevious(ref, tf, len), ref). */
  function FetchRun(kind: LoaderKind, tf: string, ref: int, len: nat, rs: seq<Fetch<Kline>>): KlinesRun
    requires ValidTf(tf)
  {
    var target := NthPrevious(ref, tf, len);
    match kind
    case BinanceKind => BinanceLoader.RunKlines(rs, ref, Period(tf), target, [], [])
    case BybitKind => BybitLoader.RunBybit(rs, ref, Period(tf), target, [], [])
  }

  /** `collectKlines`: the sentinel for a yearly Bybit time frame, then the loader (an
      unknown market throws), the target time (an unknown unit throws), the fetch, and
      resampling when the tables say so (throwing for d/w/M/y). */
  function CollectSpec(xm: string, tf: string, ref: int, len: nat, rs: seq<Fetch<Kline>>,
                       resample: Resampler): Collection
    requires TfComputable(tf)
  {
    if TimeFrameCannotBeResampledFromKlines(xm, tf) then NullSentinel
    else match GetHistoryLoader(xm)
      case Err(e) => CollectFailed(e)
      case Ok(kind) =>
        if !ValidTf(tf) then CollectFailed(UnsupportedUnit)
        else match FetchRun(kind, tf, ref, len, rs).result
          case StillFetching => Collecting
          case Threw(e) => CollectFailed(e)
          case Returned(ks) =>
            if TfNeedsResampling(tf, xm) then
              var unit := GetTfMetadata(tf).unit;
              if unit == "d" || unit == "w" || unit == "M" || unit == "y" then CollectFailed(ResampleUnsupported)
              else Collected(resample(ks, Amount(tf)))
            else Collected(ks)
  }

  /** The answers in the order the exchange sends them: ascending for Binance, newest
      first for Bybit. */
  predicate PagesInExchangeOrder(kind: LoaderKind, rs: seq<Fetch<Kline>>) {
    match kind
    case BinanceKind => PagesAscending(rs)
    case BybitKind => BybitLoader.ReversedPagesAscending(rs)
  }

  lemma {:induction false} BybitRequestsExtend(rs: seq<Fetch<Kline>>, endTime: int, p: nat, cursor: int,
                                              collected: seq<Kline>, reqs: seq<int>)
    ensures var run := BybitLoader.RunBybit(rs, endTime, p, cursor, collected, reqs);
      reqs <= run.requests && (rs != [] ==> |run.requests| > |reqs| && run.requests[|reqs|] == cursor)
    decreases |rs|
  {
    if rs != [] {
      var reqs' := reqs + [cursor];
      match rs[0]
      case FetchFailed =>
        BybitRequestsExtend(rs[1..], endTime, p, cursor, collected, reqs');
      case Fetched(page) =>
        var ks := BybitLoader.Reverse(page);
        if ks != [] {
          var past := LastKlineTimeIsPastEndTime(ks, endTime);
          var kept := if past then TrimKlines(ks, endTime) else ks;
          if !BybitLoader.Repeats(collected, kept) && !past {
            var cursor' := if kept != [] then kept[|kept| - 1].time + p else cursor;
            BybitRequestsExtend(rs[1..], endTime, p, cursor', collected + kept, reqs');
          }
        }
    }
  }

  /** The fetch range: the first request starts at the open time `len` candles before
      the reference candle's, a candle boundary from which `len` steps forward land on
      the reference candle; with the answers in exchange order every candle returned
      opens before the reference time. */
  lemma FetchRange(kind: LoaderKind, tf: string, ref: int, len: nat, rs: seq<Fetch<Kline>>)
    requires ValidTf(tf)
    ensures var run := FetchRun(kind, tf, ref, len, rs);
      var target := NthPrevious(ref, tf, len);
      (rs != [] ==> |run.requests| >= 1 && run.requests[0] == target) &&
      OpenTime(target, tf) == target && NthNext(target, tf, len) == OpenTime(ref, tf) &&
      (PagesInExchangeOrder(kind, rs) && run.result.Returned? ==> AllBefore(run.result.value, ref))
  {
    var target := NthPrevious(ref, tf, len);
    NthStepsAreBoundaries(ref, tf, len);
    match kind
    case BinanceKind =>
      BinanceLoader.KlineRequests(rs, ref, Period(tf), target);
      if PagesAscending(rs) {
        BinanceLoader.KlinesBeforeEnd(rs, ref, Period(tf), target, [], []);
      }
    case BybitKind =>
      BybitRequestsExtend(rs, ref, Period(tf), target, [], []);
      if BybitLoader.ReversedPagesAscending(rs) {
        BybitLoader.BybitNoRepeatsBeforeEnd(rs, ref, Period(tf), target, [], []);
      }
  }

  /** The sentinel comes back exactly for a yearly Bybit time frame, so never for Binance. */
  lemma SentinelIff(xm: string, tf: string, ref: int, len: nat, rs: seq<Fetch<Kline>>, resample: Resampler)
    requires TfComputable(tf)
    ensures CollectSpec(xm, tf, ref, len, rs, resample) == NullSentinel <==>
            IsBybitExchange(xm) && GetTfMetadata(tf).unit == "y"
    ensures IsBinanceExchange(xm) ==> CollectSpec(xm, tf, ref, len, rs, resample) != NullSentinel
  {
    ExchangesDisjoint(xm);
  }

  /** Resampling is rejected exactly for a d/w/M time frame the exchange does not serve
      (y never needs resampling by the tables), once the candles are in. */
  lemma ResampleRejectedIff(xm: string, tf: string, ref: int, len: nat, rs: seq<Fetch<Kline>>, resample: Resampler)
    requires ValidTf(tf) && GetHistoryLoader(xm).Ok?
    requires FetchRun(GetHistoryLoader(xm).value, tf, ref, len, rs).result.Returned?
    ensures CollectSpec(xm, tf, ref, len, rs, resample) == CollectFailed(ResampleUnsupported) <==>
            var meta := GetTfMetadata(tf);
            (meta.unit == "d" || meta.unit == "w" || meta.unit == "M") &&
            meta.amount.value !in NativeAmounts(meta.unit, IsBybitExchange(xm))
  {
    ValidTfIff(tf);
    ParseAgreesWithMetadata(tf);
    ExchangesDisjoint(xm);
  }

  // ---------------------------------------------------------------------------
  // The queue

  /** The service's state: the queue, the busy flag and the emissions so far. */
  datatype LoaderState = LoaderState(queue: seq<HistoryLoadRequest>, busy: bool, loaded: seq<HistoryLoaded>)

  /** The job's ticker splits into a market, a symbol and a time frame. */
  predicate JobComputable(job: HistoryLoadRequest) {
    var parts := Split(job.ticker, '~');
    |parts| >= 3 ==> TfComputable(parts[2])
  }

  predicate JobsComputable(jobs: seq<HistoryLoadRequest>) {
    forall i :: 0 <= i < |jobs| ==> JobComputable(jobs[i])
  }

  /** The job's collection; a ticker with fewer than three parts leaves the time frame
      undefined, and reading its metadata throws. */
  function JobCollection(job: HistoryLoadRequest, rs: seq<Fetch<Kline>>, resample: Resampler): Collection
    requires JobComputable(job)
  {
    var parts := Split(job.ticker, '~');
    if |parts| < 3 then CollectFailed(TypeError)
    else CollectSpec(parts[0], parts[2], job.referenceKlineTime, job.len, rs, resample)
  }

  /** A last candle opening at the reference time is dropped. */
  function DropOverlap(ks: seq<Kline>, ref: int): seq<Kline>
  {
    if ks != [] && ks[|ks| - 1].time == ref then ks[..|ks| - 1] else ks
  }

  /** The emission ending a job: its reqId and ticker and the last `len` candles. */
  function Emission(job: HistoryLoadRequest, ks: seq<Kline>): HistoryLoaded
  {
    HistoryLoaded(job.reqId, job.ticker, SliceLast(DropOverlap(ks, job.referenceKlineTime), job.len))
  }

  /** `processNextQueuedJob`: an empty queue clears the flag; a job whose candles arrive
      is emitted and shifted off with the flag cleared; a job still fetching, one that
      throws, and the sentinel (whose `[0]` throws) leave the flag set and the job queued. */
  function Process(s: LoaderState, rs: seq<Fetch<Kline>>, resample: Resampler): LoaderState
    requires s.queue != [] ==> JobComputable(s.queue[0])
  {
    if s.queue == [] then s.(busy := false)
    else
      var job := s.queue[0];
      match JobCollection(job, rs, resample)
      case Collected(ks) => LoaderState(s.queue[1..], false, s.loaded + [Emission(job, ks)])
      case _ => s.(busy := true)
  }

  /** One tick of the one-second interval: a job starts only when idle with a queued job. */
  function TickSpec(s: LoaderState, rs: seq<Fetch<Kline>>, resample: Resampler): LoaderState
    requires s.queue != [] ==> JobComputable(s.queue[0])
  {
    if !s.busy && s.queue != [] then Process(s, rs, resample) else s
  }

  /** What the history emitted for a job says: with the answers in exchange order and no
      resampling, every candle opens before the reference time, none is dropped as
      overlapping, and the history is the last `len` candles collected. */
  lemma EmittedHistory(job: HistoryLoadRequest, rs: seq<Fetch<Kline>>, resample: Resampler)
    requires JobComputable(job)
    requires JobCollection(job, rs, resample).Collected?
    requires var parts := Split(job.ticker, '~');
      |parts| >= 3 && !TfNeedsResampling(parts[2], parts[0]) &&
      PagesInExchangeOrder(GetHistoryLoader(parts[0]).value, rs)
    ensures var ks := JobCollection(job, rs, resample).klines;
      var h := Emission(job, ks).history;
      AllBefore(ks, job.referenceKlineTime) && h == SliceLast(ks, job.len) &&
      AllBefore(h, job.referenceKlineTime) && (job.len > 0 ==> |h| <= job.len)
  {
    var parts := Split(job.ticker, '~');
    var kind := GetHistoryLoader(parts[0]).value;
    FetchRange(kind, parts[2], job.referenceKlineTime, job.len, rs);
    var ks := JobCollection(job, rs, resample).klines;
    var h := Emission(job, ks).history;
    assert DropOverlap(ks, job.referenceKlineTime) == ks by {
      if ks != [] {
        assert ks[|ks| - 1].time < job.referenceKlineTime;
      }
    }
    forall i | 0 <= i < |h| ensures h[i].time < job.referenceKlineTime {
      assert h[i] == ks[|ks| - |h| + i];
    }
  }

  // ---------------------------------------------------------------------------
  // Runs of events

  /** A job pushed through `addJobToQueue`, or a tick with the answers its job's fetch
      gets and the resampling library. */
  datatype Event = JobAdded(job: HistoryLoadRequest) | Ticked(responses: seq<Fetch<Kline>>, resample: Resampler)

  predicate EventsComputable(events: seq<Event>) {
    forall i :: 0 <= i < |events| && events[i].JobAdded? ==> JobComputable(events[i].job)
  }

  /** The jobs added, in order. */
  function Added(events: seq<Event>): seq<HistoryLoadRequest>
  {
    if events == [] then []
    else
      var last := events[|events| - 1];
      Added(events[..|events| - 1]) + (if last.JobAdded? then [last.job] else [])
  }

  /** One event: a job pushed to the tail, or a tick. */
  function Step(t: LoaderState, e: Event): (r: LoaderState)
    requires JobsComputable(t.queue) && (e.JobAdded? ==> JobComputable(e.job))
    ensures JobsComputable(r.queue)
  {
    match e
    case JobAdded(job) =>
      var q := t.queue + [job];
      assert forall i :: 0 <= i < |q| ==> q[i] == if i < |t.queue| then t.queue[i] else job;
      t.(queue := q)
    case Ticked(rs, resample) =>
      var r := TickSpec(t, rs, resample);
      assert r.queue == t.queue || r.queue == t.queue[1..];
      assert forall i :: 0 <= i < |t.queue| - 1 ==> t.queue[1..][i] == t.queue[i + 1];
      r
  }

  lemma EventsComputablePrefix(events: seq<Event>)
    requires EventsComputable(events) && events != []
    ensures EventsComputable(events[..|events| - 1])
    ensures var e := events[|events| - 1]; e.JobAdded? ==> JobComputable(e.job)
  {
    var before := events[..|events| - 1];
    forall i | 0 <= i < |before| && before[i].JobAdded? ensures JobComputable(before[i].job) {
      assert before[i] == events[i];
    }
  }

  /** The state after the events, jobs processed as the service does. */
  function Replay(s: LoaderState, events: seq<Event>): (r: LoaderState)
    requires JobsComputable(s.queue) && EventsComputable(events)
    ensures JobsComputable(r.queue)
    decreases |events|
  {
    if events == [] then s
    else
      EventsComputablePrefix(events);
      Step(Replay(s, events[..|events| - 1]), events[|events| - 1])
  }

  function JobKeys(jobs: seq<HistoryLoadRequest>): (r: seq<(string, string)>)
    ensures |r| == |jobs|
  {
    seq(|jobs|, i requires 0 <= i < |jobs| => (jobs[i].reqId, jobs[i].ticker))
  }

  function LoadedKeys(hs: seq<HistoryLoaded>): (r: seq<(string, string)>)
    ensures |r| == |hs|
  {
    seq(|hs|, i requires 0 <= i < |hs| => (hs[i].reqId, hs[i].ticker))
  }

  lemma JobKeysAppend(a: seq<HistoryLoadRequest>, b: seq<HistoryLoadRequest>)
    ensures JobKeys(a + b) == JobKeys(a) + JobKeys(b)
  {
  }

  lemma LoadedKeysAppend(a: seq<HistoryLoaded>, b: seq<HistoryLoaded>)
    ensures LoadedKeys(a + b) == LoadedKeys(a) + LoadedKeys(b)
  {
  }

  /** One event keeps the arrival order: what was emitted, then what is queued, is
      what arrived. */
  lemma StepKeepsArrivalOrder(t: LoaderState, e: Event, served: seq<HistoryLoaded>,
                              arrived: seq<HistoryLoadRequest>)
    requires JobsComputable(t.queue) && (e.JobAdded? ==> JobComputable(e.job))
    requires LoadedKeys(served) + JobKeys(t.queue) == JobKeys(arrived)
    ensures var r := Step(t, e);
      |t.loaded| <= |r.loaded| && r.loaded[..|t.loaded|] == t.loaded &&
      LoadedKeys(served + r.loaded[|t.loaded|..]) + JobKeys(r.queue) ==
      JobKeys(arrived + if e.JobAdded? then [e.job] else [])
  {
    var r := Step(t, e);
    match e
    case JobAdded(job) =>
      assert r.loaded[|t.loaded|..] == [];
      assert served + [] == served;
      JobKeysAppend(t.queue, [job]);
      JobKeysAppend(arrived, [job]);
    case Ticked(rs, resample) =>
      assert arrived + [] == arrived;
      if !t.busy && t.queue != [] {
        var job := t.queue[0];
        var c := JobCollection(job, rs, resample);
        if c.Collected? {
          var em := Emission(job, c.klines);
          assert r == LoaderState(t.queue[1..], false, t.loaded + [em]);
          ShiftKeepsArrivalOrder(t.queue, t.loaded, em, served);
        } else {
          assert r.loaded == t.loaded && r.queue == t.queue;
          assert r.loaded[|t.loaded|..] == [];
          assert served + [] == served;
        }
      } else {
        assert r == t;
        assert r.loaded[|t.loaded|..] == [];
        assert served + [] == served;
      }
  }

  /** Emitting the head job and shifting it off keeps what was emitted followed by what
      is queued. */
  lemma ShiftKeepsArrivalOrder(queue: seq<HistoryLoadRequest>, loaded: seq<HistoryLoaded>, em: HistoryLoaded,
                               served: seq<HistoryLoaded>)
    requires queue != [] && em.reqId == queue[0].reqId && em.ticker == queue[0].ticker
    ensures (loaded + [em])[|loaded|..] == [em] && (loaded + [em])[..|loaded|] == loaded
    ensures LoadedKeys(served + [em]) + JobKeys(queue[1..]) == LoadedKeys(served) + JobKeys(queue)
  {
    LoadedKeysAppend(served, [em]);
    JobKeysAppend([queue[0]], queue[1..]);
    assert [queue[0]] + queue[1..] == queue;
  }

  /** FIFO: the jobs emitted since the start, followed by those still queued, are the
      jobs queued at the start followed by those added, in order; nothing emitted
      earlier changes. */
  lemma {:induction false} ServedInArrivalOrder(s: LoaderState, events: seq<Event>)
    requires JobsComputable(s.queue) && EventsComputable(events)
    ensures var r := Replay(s, events);
      |s.loaded| <= |r.loaded| && r.loaded[..|s.loaded|] == s.loaded &&
      LoadedKeys(r.loaded[|s.loaded|..]) + JobKeys(r.queue) == JobKeys(s.queue + Added(events))
    decreases |events|
  {
    if events == [] {
      assert s.loaded[|s.loaded|..] == [];
    } else {
      var before := events[..|events| - 1];
      var e := events[|events| - 1];
      EventsComputablePrefix(events);
      ServedInArrivalOrder(s, before);
      var t := Replay(s, before);
      var r := Replay(s, events);
      assert r == Step(t, e);
      StepKeepsArrivalOrder(t, e, t.loaded[|s.loaded|..], s.queue + Added(before));
      assert r.loaded[|s.loaded|..] == t.loaded[|s.loaded|..] + r.loaded[|t.loaded|..];
      assert s.queue + Added(events) == s.queue + Added(before) + if e.JobAdded? then [e.job] else [];
    }
  }

  /** As written, a busy service stays busy for good: no later tick starts a job, nothing
      more is emitted, and the queue only grows. */
  lemma {:induction false} BusyStaysBusy(s: LoaderState, events: seq<Event>)
    requires JobsComputable(s.queue) && EventsComputable(events) && s.busy
    ensures var r := Replay(s, events);
      r.busy && r.loaded == s.loaded && r.queue == s.queue + Added(events)
    decreases |events|
  {
    if events != [] {
      EventsComputablePrefix(events);
      BusyStaysBusy(s, events[..|events| - 1]);
    }
  }

  /** As written, a Bybit yearly job at the head of an idle queue wedges the service:
      its first tick gets the sentinel, whose `[0]` throws before the job is shifted off
      or the flag cleared, and no later event ever emits anything again. */
  lemma BybitYearlyJobWedges(s: LoaderState, sym: string, events: seq<Event>,
                             rs: seq<Fetch<Kline>>, resample: Resampler)
    requires '~' !in sym && !s.busy && s.queue != [] && s.queue[0].ticker == "bybit_spot" + "~" + sym + "~" + "1y"
    requires JobsComputable(s.queue) && EventsComputable(events)
    ensures var r := Replay(TickSpec(s, rs, resample), events);
      r.busy && r.loaded == s.loaded && r.queue == s.queue + Added(events)
  {
    YearlyBybitSentinel(s.queue[0], sym, rs, resample);
    BusyStaysBusy(TickSpec(s, rs, resample), events);
  }

  /** A Bybit yearly job collects the sentinel. */
  lemma YearlyBybitSentinel(job: HistoryLoadRequest, sym: string, rs: seq<Fetch<Kline>>, resample: Resampler)
    requires '~' !in sym && job.ticker == "bybit_spot" + "~" + sym + "~" + "1y" && JobComputable(job)
    ensures JobCollection(job, rs, resample) == NullSentinel
  {
    SplitThree("bybit_spot", sym, "1y");
    BybitYearlyCannotBeResampled();
  }

  lemma BybitYearlyCannotBeResampled()
    ensures TimeFrameCannotBeResampledFromKlines("bybit_spot", "1y")
  {
    assert "bybit_spot"[..6] == "bybit_";
    assert GetTfMetadata("1y").unit == "y";
  }

  /** Corrected processing: however the job ends (candles, a thrown error or the
      sentinel), it is shifted off and the flag cleared, as a `finally` block would;
      only a job still fetching keeps the service busy. */
  function ProcessGuarded(s: LoaderState, rs: seq<Fetch<Kline>>, resample: Resampler): LoaderState
    requires s.queue != [] ==> JobComputable(s.queue[0])
  {
    if s.queue == [] then s.(busy := false)
    else
      var job := s.queue[0];
      match JobCollection(job, rs, resample)
      case Collected(ks) => LoaderState(s.queue[1..], false, s.loaded + [Emission(job, ks)])
      case Collecting => s.(busy := true)
      case _ => LoaderState(s.queue[1..], false, s.loaded)
  }

  /** Ticks of the corrected service, one per answer set, with no jobs added between. */
  function GuardedTicks(s: LoaderState, ticks: seq<(seq<Fetch<Kline>>, Resampler)>): LoaderState
    requires JobsComputable(s.queue)
    decreases |ticks|
  {
    if ticks == [] then s
    else
      var t := if !s.busy && s.queue != [] then ProcessGuarded(s, ticks[0].0, ticks[0].1) else s;
      assert t.queue == s.queue || t.queue == s.queue[1..];
      assert forall i :: 0 <= i < |s.queue| - 1 ==> s.queue[1..][i] == s.queue[i + 1];
      GuardedTicks(t, ticks[1..])
  }

  /** With the correction the queue drains: as long as each job's fetch completes, the
      i-th tick finishes the i-th job whether it loads or throws, the service is idle
      after each, and at most one history is emitted per job. */
  lemma {:induction false} GuardedQueueDrains(s: LoaderState, ticks: seq<(seq<Fetch<Kline>>, Resampler)>)
    requires JobsComputable(s.queue) && !s.busy && |ticks| <= |s.queue|
    requires forall i :: 0 <= i < |ticks| ==> !JobCollection(s.queue[i], ticks[i].0, ticks[i].1).Collecting?
    ensures var r := GuardedTicks(s, ticks);
      !r.busy && r.queue == s.queue[|ticks|..] && |s.loaded| <= |r.loaded| <= |s.loaded| + |ticks| &&
      r.loaded[..|s.loaded|] == s.loaded
    decreases |ticks|
  {
    if ticks != [] {
      var t := ProcessGuarded(s, ticks[0].0, ticks[0].1);
      assert !JobCollection(s.queue[0], ticks[0].0, ticks[0].1).Collecting?;
      assert t.queue == s.queue[1..] && !t.busy;
      assert |s.loaded| <= |t.loaded| <= |s.loaded| + 1 && t.loaded[..|s.loaded|] == s.loaded;
      assert GuardedTicks(s, ticks) == GuardedTicks(t, ticks[1..]);
      assert JobsComputable(t.queue) by {
        forall i | 0 <= i < |t.queue| ensures JobComputable(t.queue[i]) {
          assert t.queue[i] == s.queue[i + 1];
        }
      }
      forall i | 0 <= i < |ticks[1..]|
        ensures !JobCollection(t.queue[i], ticks[1..][i].0, ticks[1..][i].1).Collecting?
      {
        assert t.queue[i] == s.queue[i + 1] && ticks[1..][i] == ticks[i + 1];
      }
      GuardedQueueDrains(t, ticks[1..]);
      assert s.queue[1..][|ticks| - 1..] == s.queue[|ticks|..];
    }
  }

  // ---------------------------------------------------------------------------
  // The service

  class HistoryLoaderService {
    const binanceHistoryLoader: BinanceLoader.BinanceHistoryLoader
    var busy: bool
    var jobsQueue: seq<HistoryLoadRequest>
    /** The `historyLoaded$` emissions so far. */
    var historyLoaded: seq<HistoryLoaded>

    function State(): LoaderState
      reads this
    {
      LoaderState(jobsQueue, busy, historyLoaded)
    }

    constructor(binance: BinanceLoader.BinanceHistoryLoader)
      ensures binanceHistoryLoader == binance
      ensures State() == LoaderState([], false, [])
    {
      binanceHistoryLoader := binance;
      busy := false;
      jobsQueue := [];
      historyLoaded := [];
    }

    /** `addJobToQueue`: the job goes to the tail. */
    method AddJobToQueue(job: HistoryLoadRequest)
      modifies this
      ensures State() == old(State()).(queue := old(jobsQueue) + [job])
    {
      jobsQueue := jobsQueue + [job];
    }

    /** The interval's filter: a job starts only when idle with a queued job. */
    method Tick(rs: seq<Fetch<Kline>>, resample: Resampler)
      requires jobsQueue != [] ==> JobComputable(jobsQueue[0])
      modifies this
      ensures State() == TickSpec(old(State()), rs, resample)
    {
      if !busy && jobsQueue != [] {
        ProcessNextQueuedJob(rs, resample);
      }
    }

    /** `processNextQueuedJob`. */
    method ProcessNextQueuedJob(rs: seq<Fetch<Kline>>, resample: Resampler)
      requires jobsQueue != [] ==> JobComputable(jobsQueue[0])
      modifies this
      ensures State() == Process(old(State()), rs, resample)
    {
      busy := true;
      if jobsQueue == [] {
        busy := false;
        return;
      }
      var job := jobsQueue[0];
      var parts := Split(job.ticker, '~');
      if |parts| < 3 {
        return;
      }
      var collection := CollectKlines(parts[0], parts[1], parts[2], job.referenceKlineTime, job.len, rs, resample);
      if !collection.Collected? {
        return;
      }
      var klines := collection.klines;
      if |klines| > 0 && klines[|klines| - 1].time == job.referenceKlineTime {
        klines := klines[..|klines| - 1];
      }
      historyLoaded := historyLoaded + [HistoryLoaded(job.reqId, job.ticker, SliceLast(klines, job.len))];
      jobsQueue := jobsQueue[1..];
      busy := false;
    }

    /** `collectKlines`; the symbol only names the market pair asked for. */
    method CollectKlines(xm: string, sym: string, tf: string, ref: int, len: nat,
                         rs: seq<Fetch<Kline>>, resample: Resampler) returns (c: Collection)
      requires TfComputable(tf)
      ensures c == CollectSpec(xm, tf, ref, len, rs, resample)
    {
      if TimeFrameCannotBeResampledFromKlines(xm, tf) {
        return NullSentinel;
      }
      var loader := GetHistoryLoader(xm);
      if loader.Err? {
        return CollectFailed(loader.error);
      }
      if !ValidTf(tf) {
        return CollectFailed(UnsupportedUnit);
      }
      var target := NthPrevious(ref, tf, len);
      var requests: seq<int>;
      var run: Outcome<seq<Kline>>;
      if loader.value == BinanceKind {
        requests, run := binanceHistoryLoader.FetchKlinesBackwardsUntilKlineOpenTime(tf, target, ref, rs);
      } else {
        requests, run := BybitLoader.FetchKlinesBackwardsUntilKlineOpenTime(tf, target, ref, rs);
      }
      match run {
        case StillFetching => return Collecting;
        case Threw(e) => return CollectFailed(e);
        case Returned(klines) =>
          if TfNeedsResampling(tf, xm) {
            var unit := GetTfMetadata(tf).unit;
            if unit == "d" || unit == "w" || unit == "M" || unit == "y" {
              return CollectFailed(ResampleUnsupported);
            }
            return Collected(resample(klines, Amount(tf)));
          }
          return Collected(klines);
      }
    }
  }
}
