/** The Binance history loader: candles and aggregate trades fetched page by page
    forwards from a target time until a page reaches the end time. Every REST call is one
    element of a sequence of answers; a failed call is retried with the same cursor. */
module BinanceLoader {
  import opened Common
  import opened Strings
  import opened TimeFrames
  import opened Klines
  import opened LoaderPages

  // ---------------------------------------------------------------------------
  // Candles

  /** The candle loop from a cursor with the candles collected and requests made so far:
      an empty page ends it, a page reaching the end time is trimmed, appended and ends it,
      any other page is appended and moves the cursor one period past its last candle. */
  function RunKlines(rs: seq<Fetch<Kline>>, endTime: int, p: nat, cursor: int, collected: seq<Kline>,
                     reqs: seq<int>): KlinesRun
    decreases |rs|
  {
    if rs == [] then KlinesRun(reqs, StillFetching)
    else
      var reqs' := reqs + [cursor];
      match rs[0]
      case FetchFailed => RunKlines(rs[1..], endTime, p, cursor, collected, reqs')
      case Fetched(ks) =>
        if ks == [] then KlinesRun(reqs', Returned(collected))
        else if LastKlineTimeIsPastEndTime(ks, endTime) then KlinesRun(reqs', Returned(collected + TrimKlines(ks, endTime)))
        else RunKlines(rs[1..], endTime, p, ks[|ks| - 1].time + p, collected + ks, reqs')
  }

  /** The cursor after the answers rs: one period past the last candle of the latest
      non-empty page, or the target time before any. */
  function CursorAfter(rs: seq<Fetch<Kline>>, targetTime: int, p: nat): int
  {
    if rs == [] then targetTime
    else
      match rs[|rs| - 1]
      case FetchFailed => CursorAfter(rs[..|rs| - 1], targetTime, p)
      case Fetched(ks) =>
        if ks == [] then CursorAfter(rs[..|rs| - 1], targetTime, p) else ks[|ks| - 1].time + p
  }

  lemma CursorAfterStep(rs: seq<Fetch<Kline>>, targetTime: int, p: nat, j: nat)
    requires j < |rs|
    ensures CursorAfter(rs[..j + 1], targetTime, p) ==
      match rs[j]
      case FetchFailed => CursorAfter(rs[..j], targetTime, p)
      case Fetched(ks) => if ks == [] then CursorAfter(rs[..j], targetTime, p) else ks[|ks| - 1].time + p
  {
    assert rs[..j + 1][..j] == rs[..j] && rs[..j + 1][j] == rs[j];
  }

  lemma RunKlinesAt(rs: seq<Fetch<Kline>>, j: nat, endTime: int, p: nat, cursor: int, collected: seq<Kline>,
                    reqs: seq<int>)
    requires j < |rs|
    ensures RunKlines(rs[j..], endTime, p, cursor, collected, reqs) ==
      match rs[j]
      case FetchFailed => RunKlines(rs[j + 1..], endTime, p, cursor, collected, reqs + [cursor])
      case Fetched(ks) =>
        if ks == [] then KlinesRun(reqs + [cursor], Returned(collected))
        else if LastKlineTimeIsPastEndTime(ks, endTime) then
          KlinesRun(reqs + [cursor], Returned(collected + TrimKlines(ks, endTime)))
        else RunKlines(rs[j + 1..], endTime, p, ks[|ks| - 1].time + p, collected + ks, reqs + [cursor])
  {
    assert rs[j..][0] == rs[j] && rs[j..][1..] == rs[j + 1..];
  }

  /** Each candle request starts at the cursor the answers before it left: the target
      time until a page arrives, then one period past the last candle received. */
  lemma {:induction false} KlineRequestsFollowCursor(rs: seq<Fetch<Kline>>, endTime: int, p: nat, targetTime: int,
                                                    j: nat, collected: seq<Kline>, reqs: seq<int>)
    requires j <= |rs| && |reqs| == j
    requires forall i :: 0 <= i < j ==> reqs[i] == CursorAfter(rs[..i], targetTime, p)
    ensures var run := RunKlines(rs[j..], endTime, p, CursorAfter(rs[..j], targetTime, p), collected, reqs);
      |run.requests| <= |rs| && (j < |rs| ==> |run.requests| > j) &&
      forall i :: 0 <= i < |run.requests| ==> run.requests[i] == CursorAfter(rs[..i], targetTime, p)
    decreases |rs| - j
  {
    if j < |rs| {
      var cursor := CursorAfter(rs[..j], targetTime, p);
      var reqs' := reqs + [cursor];
      assert forall i :: 0 <= i < j + 1 ==> reqs'[i] == CursorAfter(rs[..i], targetTime, p);
      CursorAfterStep(rs, targetTime, p, j);
      RunKlinesAt(rs, j, endTime, p, cursor, collected, reqs);
      match rs[j]
      case FetchFailed =>
        KlineRequestsFollowCursor(rs, endTime, p, targetTime, j + 1, collected, reqs');
      case Fetched(ks) =>
        if ks != [] && !LastKlineTimeIsPastEndTime(ks, endTime) {
          KlineRequestsFollowCursor(rs, endTime, p, targetTime, j + 1, collected + ks, reqs');
        }
    }
  }

  /** From the start: the first request is at the target time and each later one at the
      cursor left by the answers before it. */
  lemma KlineRequests(rs: seq<Fetch<Kline>>, endTime: int, p: nat, targetTime: int)
    ensures var run := RunKlines(rs, endTime, p, targetTime, [], []);
      |run.requests| <= |rs| && (rs != [] ==> |run.requests| >= 1 && run.requests[0] == targetTime) &&
      forall i :: 0 <= i < |run.requests| ==> run.requests[i] == CursorAfter(rs[..i], targetTime, p)
  {
    assert rs[0..] == rs && rs[..0] == [];
    KlineRequestsFollowCursor(rs, endTime, p, targetTime, 0, [], []);
  }

  /** Failed calls are retried transparently: the candles returned are those of the
      answered calls alone. */
  lemma {:induction false} KlinesIgnoreFailures(rs: seq<Fetch<Kline>>, endTime: int, p: nat, cursor: int,
                                               collected: seq<Kline>, reqs: seq<int>, reqs2: seq<int>)
    ensures RunKlines(rs, endTime, p, cursor, collected, reqs).result ==
            RunKlines(Answered(rs), endTime, p, cursor, collected, reqs2).result
    decreases |rs|
  {
    if rs != [] {
      var rest := Answered(rs[1..]);
      match rs[0]
      case FetchFailed =>
        KlinesIgnoreFailures(rs[1..], endTime, p, cursor, collected, reqs + [cursor], reqs2);
      case Fetched(ks) =>
        assert Answered(rs) == [rs[0]] + rest;
        assert ([rs[0]] + rest)[1..] == rest;
        if ks != [] && !LastKlineTimeIsPastEndTime(ks, endTime) {
          KlinesIgnoreFailures(rs[1..], endTime, p, ks[|ks| - 1].time + p, collected + ks, reqs + [cursor], reqs2 + [cursor]);
        }
    }
  }

  /** With ascending pages, every candle returned opens before the end time. */
  lemma {:induction false} KlinesBeforeEnd(rs: seq<Fetch<Kline>>, endTime: int, p: nat, cursor: int,
                                          collected: seq<Kline>, reqs: seq<int>)
    requires PagesAscending(rs) && AllBefore(collected, endTime)
    ensures var run := RunKlines(rs, endTime, p, cursor, collected, reqs);
      run.result.Returned? ==> AllBefore(run.result.value, endTime)
    decreases |rs|
  {
    if rs != [] {
      assert forall i :: 0 <= i < |rs| - 1 ==> rs[1..][i] == rs[i + 1];
      assert PagesAscending(rs[1..]);
      match rs[0]
      case FetchFailed =>
        KlinesBeforeEnd(rs[1..], endTime, p, cursor, collected, reqs + [cursor]);
      case Fetched(ks) =>
        assert Ascending(ks);
        if ks != [] {
          if LastKlineTimeIsPastEndTime(ks, endTime) {
            TrimmedAscendingBefore(ks, endTime);
            AllBeforeAppend(collected, TrimKlines(ks, endTime), endTime);
          } else {
            AscendingBefore(ks, endTime);
            AllBeforeAppend(collected, ks, endTime);
            KlinesBeforeEnd(rs[1..], endTime, p, ks[|ks| - 1].time + p, collected + ks, reqs + [cursor]);
          }
        }
    }
  }

  class BinanceHistoryLoader {
    /** Set by `abortFetch('trades')`, read by the trade loops. */
    var abortTradesFetch: bool

    constructor()
      ensures !abortTradesFetch
    {
      abortTradesFetch := false;
    }

    /** `abortFetch`: raises the trade abort flag; for candles it does nothing. */
    method AbortFetch(kind: FetchKind)
      modifies this
      ensures abortTradesFetch == (kind == TradesFetch || old(abortTradesFetch))
    {
      if kind == TradesFetch {
        abortTradesFetch := true;
      }
    }

    /** `fetchKlinesBackwardsUntilKlineOpenTime`: requests pages from the cursor, starting
        at the target time, until a page is empty or reaches the end time. */
    method FetchKlinesBackwardsUntilKlineOpenTime(tf: string, targetTime: int, endTime: int,
                                                 responses: seq<Fetch<Kline>>)
      returns (requests: seq<int>, r: Outcome<seq<Kline>>)
      requires ValidTf(tf)
      ensures KlinesRun(requests, r) == RunKlines(responses, endTime, Period(tf), targetTime, [], [])
    {
      ghost var run := RunKlines(responses, endTime, Period(tf), targetTime, [], []);
      var collectedKlines: seq<Kline> := [];
      var keepFetching := true;
      var lastCollectedKlineTime := targetTime;
      requests := [];
      var k := 0;
      while keepFetching
        invariant k <= |responses|
        invariant keepFetching ==>
          run == RunKlines(responses[k..], endTime, Period(tf), lastCollectedKlineTime, collectedKlines, requests)
        invariant !keepFetching ==> run == KlinesRun(requests, Returned(collectedKlines))
        decreases |responses| - k
      {
        if k == |responses| {
          return requests, StillFetching;
        }
        assert responses[k..][1..] == responses[k + 1..];
        requests := requests + [lastCollectedKlineTime];
        var response := responses[k];
        k := k + 1;
        if response.FetchFailed? {
          continue;
        }
        var klines := response.page;
        if klines == [] {
          keepFetching := false;
          continue;
        }
        if LastKlineTimeIsPastEndTime(klines, endTime) {
          keepFetching := false;
          klines := RemoveOverflowingKlines(klines, endTime);
        }
        collectedKlines := collectedKlines + klines;
        lastCollectedKlineTime := if |klines| > 0 then klines[|klines| - 1].time + Period(tf) else lastCollectedKlineTime;
      }
      r := Returned(collectedKlines);
    }

    /** One answer of a trade loop: an `abortFetch('trades')` made while the call was
        pending raises the flag; a page is taken (trimmed at the end time) and mapped to
        trades, and `keepFetching` falls once a page reaches the end time. What follows is
        the step StepTrades describes. */
    method TakeTradesAnswer(response: TradeResponse, symbol: string, endTime: int, lastId: Option<nat>,
                            ghost chunks: seq<seq<Trade>>, ghost reqs: seq<TradeRequest>)
      returns (thrown: Option<Failure>, mapped: seq<Trade>, lastId': Option<nat>, keepFetching: bool)
      modifies this
      ensures abortTradesFetch == (old(abortTradesFetch) || response.abortRequested)
      ensures var chunks' := if response.fetch.Fetched? then chunks + [mapped] else chunks;
        StepTrades(response, symbol, endTime, old(abortTradesFetch), lastId, chunks, reqs) ==
          if thrown.Some? then Stop(TradesRun(reqs, chunks, TradesThrew(thrown.value), abortTradesFetch))
          else if keepFetching && !abortTradesFetch then Continue(abortTradesFetch, lastId', chunks')
          else Stop(TradesRun(reqs, chunks', if abortTradesFetch then TradesAborted else TradesFinished, false))
    {
      abortTradesFetch := abortTradesFetch || response.abortRequested;
      thrown, mapped, lastId', keepFetching := None, [], lastId, true;
      if response.fetch.Fetched? {
        var page, reachedEnd := TakeTradesPage(response.fetch.page, endTime);
        if page.Err? {
          return Some(page.error), [], lastId, true;
        }
        keepFetching := !reachedEnd;
        var trades := page.value;
        mapped := ToTrades(trades, symbol);
        lastId' := Some(trades[|trades| - 1].id);
      }
    }

    /** `fetchTradesBackwardsUntilTradeOpenTime`: the trade loop, collecting the pages; an
        abort returns nothing (undefined) and lowers the flag. */
    method FetchTradesBackwardsUntilTradeOpenTime(symbol: string, targetTime: int, endTime: int,
                                                 responses: seq<TradeResponse>)
      returns (requests: seq<TradeRequest>, r: Outcome<Option<seq<Trade>>>)
      modifies this
      ensures var run := RunTrades(responses, symbol, targetTime, endTime, old(abortTradesFetch), None, [], []);
        requests == run.requests && abortTradesFetch == run.abortFlag && r == CollectedOutcome(run)
    {
      ghost var run := RunTrades(responses, symbol, targetTime, endTime, abortTradesFetch, None, [], []);
      var collectedTrades: seq<Trade> := [];
      ghost var chunks: seq<seq<Trade>> := [];
      var lastCollectedTradeId: Option<nat> := None;
      requests := [];
      var k := 0;
      var running := true;
      while running
        invariant k <= |responses| && collectedTrades == Concat(chunks)
        invariant running ==>
          run == RunTrades(responses[k..], symbol, targetTime, endTime, abortTradesFetch, lastCollectedTradeId, chunks, requests)
        invariant !running ==>
          run == TradesRun(requests, chunks, if abortTradesFetch then TradesAborted else TradesFinished, false)
        decreases |responses| - k
      {
        if k == |responses| {
          return requests, StillFetching;
        }
        RunTradesAt(responses, k, symbol, targetTime, endTime, abortTradesFetch, lastCollectedTradeId, chunks, requests);
        requests := requests + [NextTradeRequest(lastCollectedTradeId, targetTime)];
        var response := responses[k];
        k := k + 1;
        var thrown, mapped, lastId, keepFetching :=
          TakeTradesAnswer(response, symbol, endTime, lastCollectedTradeId, chunks, requests);
        if thrown.Some? {
          return requests, Threw(thrown.value);
        }
        if response.fetch.Fetched? {
          ConcatSnoc(chunks, mapped);
          collectedTrades := collectedTrades + mapped;
          chunks := chunks + [mapped];
        }
        lastCollectedTradeId := lastId;
        running := keepFetching && !abortTradesFetch;
      }
      if abortTradesFetch {
        abortTradesFetch := false;
        return requests, Returned(None);
      }
      r := Returned(Some(collectedTrades));
    }

    /** `fetchTradesBackwardsUntilTradeOpenTimeInChunks`: the same loop handing each page
        to the chunk callback instead of collecting; `delivered` lists the callback's calls. */
    method FetchTradesBackwardsUntilTradeOpenTimeInChunks(symbol: string, targetTime: int, endTime: int,
                                                         responses: seq<TradeResponse>)
      returns (requests: seq<TradeRequest>, delivered: seq<seq<Trade>>, ending: TradesEnding)
      modifies this
      ensures var run := RunTrades(responses, symbol, targetTime, endTime, old(abortTradesFetch), None, [], []);
        requests == run.requests && abortTradesFetch == run.abortFlag &&
        delivered == run.chunks && ending == run.ending
    {
      ghost var run := RunTrades(responses, symbol, targetTime, endTime, abortTradesFetch, None, [], []);
      delivered := [];
      var lastCollectedTradeId: Option<nat> := None;
      requests := [];
      var k := 0;
      var running := true;
      while running
        invariant k <= |responses|
        invariant running ==>
          run == RunTrades(responses[k..], symbol, targetTime, endTime, abortTradesFetch, lastCollectedTradeId, delivered, requests)
        invariant !running ==>
          run == TradesRun(requests, delivered, if abortTradesFetch then TradesAborted else TradesFinished, false)
        decreases |responses| - k
      {
        if k == |responses| {
          return requests, delivered, TradesPending;
        }
        RunTradesAt(responses, k, symbol, targetTime, endTime, abortTradesFetch, lastCollectedTradeId, delivered, requests);
        requests := requests + [NextTradeRequest(lastCollectedTradeId, targetTime)];
        var response := responses[k];
        k := k + 1;
        var thrown, mapped, lastId, keepFetching :=
          TakeTradesAnswer(response, symbol, endTime, lastCollectedTradeId, delivered, requests);
        if thrown.Some? {
          return requests, delivered, TradesThrew(thrown.value);
        }
        if response.fetch.Fetched? {
          delivered := delivered + [mapped];
        }
        lastCollectedTradeId := lastId;
        running := keepFetching && !abortTradesFetch;
      }
      if abortTradesFetch {
        abortTradesFetch := false;
        ending := TradesAborted;
      } else {
        ending := TradesFinished;
      }
    }
  }

  // ---------------------------------------------------------------------------
  // Trades

  datatype FetchKind = TradesFetch | KlinesFetch

  /** A Binance aggregate trade: id `a`, time `T`, price `p`, quantity `q`. */
  datatype AggTrade = AggTrade(id: nat, time: int, price: real, qty: real)

  /** The query of one aggregate-trades call. */
  datatype TradeRequest = TradeRequest(fromId: Option<nat>, startTime: Option<int>)

  /** One call's answer, and whether `abortFetch('trades')` ran while it was awaited. */
  datatype TradeResponse = TradeResponse(fetch: Fetch<AggTrade>, abortRequested: bool)

  datatype TradesEnding = TradesPending | TradesThrew(error: Failure) | TradesFinished | TradesAborted

  /** The requests made, the pages handed on (mapped to trades), how the loop ended and
      the abort flag afterwards. */
  datatype TradesRun = TradesRun(requests: seq<TradeRequest>, chunks: seq<seq<Trade>>, ending: TradesEnding,
                                 abortFlag: bool)

  /** `fromId` is the last collected id; `startTime` is the target time while no id is
      known, an id of 0 being falsy in the source. */
  function NextTradeRequest(lastId: Option<nat>, targetTime: int): TradeRequest
  {
    TradeRequest(lastId, if lastId.None? || lastId.value == 0 then Some(targetTime) else None)
  }

  function ToTrade(t: AggTrade, symbol: string): Trade
  {
    Trade(NatToString(t.id), symbol, t.time, t.price, t.qty)
  }

  function ToTrades(ts: seq<AggTrade>, symbol: string): (r: seq<Trade>)
    ensures |r| == |ts|
  {
    seq(|ts|, i requires 0 <= i < |ts| => ToTrade(ts[i], symbol))
  }

  function Concat(cs: seq<seq<Trade>>): seq<Trade>
  {
    if cs == [] then [] else Concat(cs[..|cs| - 1]) + cs[|cs| - 1]
  }

  lemma ConcatSnoc(cs: seq<seq<Trade>>, c: seq<Trade>)
    ensures Concat(cs + [c]) == Concat(cs) + c
  {
    assert (cs + [c])[..|cs|] == cs;
  }

  /** The clone's pop loop: pops while the last trade is at or after the end time; popping
      the last trade reads past the start (TypeError), written None. */
  function PopTrades(ts: seq<AggTrade>, endTime: int): (r: Option<seq<AggTrade>>)
    ensures r.Some? ==> r.value != [] && r.value <= ts
    decreases |ts|
  {
    if ts == [] then None
    else if ts[|ts| - 1].time >= endTime then PopTrades(ts[..|ts| - 1], endTime)
    else Some(ts)
  }

  /** Popping leaves the longest prefix ending before the end time, and fails exactly
      when there is none. */
  lemma {:induction false} PopTradesSpec(ts: seq<AggTrade>, endTime: int)
    ensures var r := PopTrades(ts, endTime);
      (r.None? <==> forall i :: 0 <= i < |ts| ==> ts[i].time >= endTime) &&
      (r.Some? ==>
        r.value <= ts && r.value != [] && r.value[|r.value| - 1].time < endTime &&
        forall i :: |r.value| <= i < |ts| ==> ts[i].time >= endTime)
    decreases |ts|
  {
    if ts != [] && ts[|ts| - 1].time >= endTime {
      PopTradesSpec(ts[..|ts| - 1], endTime);
    }
  }

  /** `removeOverflowingTrades`: when the last trade is past the end time, pops from a
      copy; fails when no trade is before the end time. */
  method RemoveOverflowingTrades(trades: seq<AggTrade>, endTime: int) returns (r: Result<seq<AggTrade>>)
    requires trades != []
    ensures r == if PopTrades(trades, endTime).Some? then Ok(PopTrades(trades, endTime).value) else Err(TypeError)
    ensures r.Ok? ==> r.value != []
  {
    if trades[|trades| - 1].time >= endTime {
      var clone := trades;
      while clone != [] && clone[|clone| - 1].time >= endTime
        invariant PopTrades(clone, endTime) == PopTrades(trades, endTime)
        decreases |clone|
      {
        clone := clone[..|clone| - 1];
      }
      if clone == [] {
        return Err(TypeError);
      }
      return Ok(clone);
    }
    return Ok(trades);
  }

  /** The page handling of both trade loops; reachedEnd is `keepFetching = false`. */
  method TakeTradesPage(trades: seq<AggTrade>, endTime: int) returns (r: Result<seq<AggTrade>>, reachedEnd: bool)
    ensures r == TakePage(trades, endTime)
    ensures reachedEnd == (trades != [] && trades[|trades| - 1].time >= endTime)
  {
    if trades == [] {
      return Err(TypeError), false;
    }
    reachedEnd := trades[|trades| - 1].time >= endTime;
    r := Ok(trades);
    if reachedEnd {
      r := RemoveOverflowingTrades(trades, endTime);
    }
  }


  /** The trade loop from a state (abort flag, last id, pages handed on, requests made).
      The loop condition `keepFetching && !abortTradesFetch` is checked after each answer,
      so a raised flag ends the loop after the current answer. An empty page throws
      (`trades.at(-1).T`); a page reaching the end time is trimmed and ends the loop. */
  function RunTrades(rs: seq<TradeResponse>, symbol: string, targetTime: int, endTime: int, flag: bool,
                     lastId: Option<nat>, chunks: seq<seq<Trade>>, reqs: seq<TradeRequest>): TradesRun
    decreases |rs|
  {
    if rs == [] then TradesRun(reqs, chunks, TradesPending, flag)
    else
      var reqs' := reqs + [NextTradeRequest(lastId, targetTime)];
      match StepTrades(rs[0], symbol, endTime, flag, lastId, chunks, reqs')
      case Stop(run) => run
      case Continue(flag', lastId', chunks') =>
        RunTrades(rs[1..], symbol, targetTime, endTime, flag', lastId', chunks', reqs')
  }

  lemma RunTradesAt(rs: seq<TradeResponse>, k: nat, symbol: string, targetTime: int, endTime: int, flag: bool,
                    lastId: Option<nat>, chunks: seq<seq<Trade>>, reqs: seq<TradeRequest>)
    requires k < |rs|
    ensures var reqs' := reqs + [NextTradeRequest(lastId, targetTime)];
      RunTrades(rs[k..], symbol, targetTime, endTime, flag, lastId, chunks, reqs) ==
        match StepTrades(rs[k], symbol, endTime, flag, lastId, chunks, reqs')
        case Stop(run) => run
        case Continue(flag', lastId', chunks') =>
          RunTrades(rs[k + 1..], symbol, targetTime, endTime, flag', lastId', chunks', reqs')
  {
    assert rs[k..][0] == rs[k] && rs[k..][1..] == rs[k + 1..];
  }

  /** What one answer does to the trade loop: it ends the loop with a run, or the loop goes
      on with a new flag, last id and list of pages. */
  datatype TradeStep = Continue(flag: bool, lastId: Option<nat>, chunks: seq<seq<Trade>>) | Stop(run: TradesRun)

  /** One answer, the request for it already in reqs. */
  function StepTrades(r: TradeResponse, symbol: string, endTime: int, flag: bool, lastId: Option<nat>,
                      chunks: seq<seq<Trade>>, reqs: seq<TradeRequest>): TradeStep
  {
    var flag' := flag || r.abortRequested;
    match r.fetch
    case FetchFailed =>
      if flag' then Stop(TradesRun(reqs, chunks, TradesAborted, false)) else Continue(flag', lastId, chunks)
    case Fetched(ts) =>
      match TakePage(ts, endTime)
      case Err(e) => Stop(TradesRun(reqs, chunks, TradesThrew(e), flag'))
      case Ok(kept) =>
        var chunks' := chunks + [ToTrades(kept, symbol)];
        if ts[|ts| - 1].time >= endTime then
          Stop(TradesRun(reqs, chunks', if flag' then TradesAborted else TradesFinished, false))
        else if flag' then Stop(TradesRun(reqs, chunks', TradesAborted, false))
        else Continue(flag', Some(ts[|ts| - 1].id), chunks')
  }

  /** A page as both trade loops take it: `trades.at(-1).T` throws on an empty page, and a
      page reaching the end time is trimmed, which throws when no trade is before it. */
  function TakePage(ts: seq<AggTrade>, endTime: int): (r: Result<seq<AggTrade>>)
    ensures r.Ok? ==> ts != [] && r.value != [] && r.value <= ts
    ensures r.Ok? && ts[|ts| - 1].time < endTime ==> r.value == ts
  {
    if ts == [] then Err(TypeError)
    else if ts[|ts| - 1].time >= endTime then
      match PopTrades(ts, endTime)
      case None => Err(TypeError)
      case Some(kept) => Ok(kept)
    else Ok(ts)
  }

  /** What the collecting variant resolves to: the collected trades, or undefined (None)
      after an abort. */
  function CollectedOutcome(run: TradesRun): Outcome<Option<seq<Trade>>>
  {
    match run.ending
    case TradesPending => StillFetching
    case TradesThrew(e) => Threw(e)
    case TradesFinished => Returned(Some(Concat(run.chunks)))
    case TradesAborted => Returned(None)
  }

  /** The last aggregate id received, when a non-empty page has arrived. */
  function LastIdAfter(rs: seq<TradeResponse>): Option<nat>
  {
    if rs == [] then None
    else
      match rs[|rs| - 1].fetch
      case FetchFailed => LastIdAfter(rs[..|rs| - 1])
      case Fetched(ts) => if ts == [] then LastIdAfter(rs[..|rs| - 1]) else Some(ts[|ts| - 1].id)
  }

  lemma LastIdAfterStep(rs: seq<TradeResponse>, j: nat)
    requires j < |rs|
    ensures LastIdAfter(rs[..j + 1]) ==
      match rs[j].fetch
      case FetchFailed => LastIdAfter(rs[..j])
      case Fetched(ts) => if ts == [] then LastIdAfter(rs[..j]) else Some(ts[|ts| - 1].id)
  {
    assert rs[..j + 1][..j] == rs[..j] && rs[..j + 1][j] == rs[j];
  }

  /** Each trade request continues from the last id the answers before it brought. */
  lemma {:induction false} TradeRequestsFollowLastId(rs: seq<TradeResponse>, symbol: string, targetTime: int,
                                                    endTime: int, flag: bool, j: nat, chunks: seq<seq<Trade>>,
                                                    reqs: seq<TradeRequest>)
    requires j <= |rs| && |reqs| == j
    requires forall i :: 0 <= i < j ==> reqs[i] == NextTradeRequest(LastIdAfter(rs[..i]), targetTime)
    ensures var run := RunTrades(rs[j..], symbol, targetTime, endTime, flag, LastIdAfter(rs[..j]), chunks, reqs);
      |run.requests| <= |rs| && (j < |rs| ==> |run.requests| > j) &&
      forall i :: 0 <= i < |run.requests| ==> run.requests[i] == NextTradeRequest(LastIdAfter(rs[..i]), targetTime)
    decreases |rs| - j
  {
    if j < |rs| {
      var lastId := LastIdAfter(rs[..j]);
      var reqs' := reqs + [NextTradeRequest(lastId, targetTime)];
      assert forall i :: 0 <= i < j + 1 ==> reqs'[i] == NextTradeRequest(LastIdAfter(rs[..i]), targetTime);
      LastIdAfterStep(rs, j);
      RunTradesAt(rs, j, symbol, targetTime, endTime, flag, lastId, chunks, reqs);
      match StepTrades(rs[j], symbol, endTime, flag, lastId, chunks, reqs')
      case Stop(_) =>
      case Continue(flag', lastId', chunks') =>
        TradeRequestsFollowLastId(rs, symbol, targetTime, endTime, flag', j + 1, chunks', reqs');
    }
  }

  /** From the start: the first request asks from the target time with no id; each later
      one asks from the last id received (and again from the target time while that id
      is missing or 0). */
  lemma TradeRequests(rs: seq<TradeResponse>, symbol: string, targetTime: int, endTime: int, flag: bool)
    ensures var run := RunTrades(rs, symbol, targetTime, endTime, flag, None, [], []);
      |run.requests| <= |rs| &&
      (rs != [] ==> |run.requests| >= 1 && run.requests[0] == TradeRequest(None, Some(targetTime))) &&
      forall i :: 0 <= i < |run.requests| ==> run.requests[i] == NextTradeRequest(LastIdAfter(rs[..i]), targetTime)
  {
    assert rs[0..] == rs && rs[..0] == [];
    TradeRequestsFollowLastId(rs, symbol, targetTime, endTime, flag, 0, [], []);
  }

  /** The loop ends aborted only when the flag was up or an abort was requested during one
      of the calls made; and once it is, the loop ends right after that call, aborted
      unless the page throws. */
  lemma {:induction false} AbortIff(rs: seq<TradeResponse>, symbol: string, targetTime: int, endTime: int,
                                   flag: bool, lastId: Option<nat>, chunks: seq<seq<Trade>>, reqs: seq<TradeRequest>)
    ensures var run := RunTrades(rs, symbol, targetTime, endTime, flag, lastId, chunks, reqs);
      var made := |run.requests| - |reqs|;
      0 <= made <= |rs| &&
      (run.ending == TradesAborted ==> flag || exists i :: 0 <= i < made && rs[i].abortRequested) &&
      ((flag && rs != []) || (exists i :: 0 <= i < made && rs[i].abortRequested) ==>
        made <= 1 + (if flag then 0 else FirstAbort(rs)) && (run.ending == TradesAborted || run.ending.TradesThrew?))
    decreases |rs|
  {
    if rs != [] {
      var reqs' := reqs + [NextTradeRequest(lastId, targetTime)];
      var flag' := flag || rs[0].abortRequested;
      assert forall i :: 0 <= i < |rs| - 1 ==> rs[1..][i] == rs[i + 1];
      if !flag' {
        match rs[0].fetch
        case FetchFailed =>
          AbortIff(rs[1..], symbol, targetTime, endTime, flag', lastId, chunks, reqs');
        case Fetched(ts) =>
          if ts != [] && ts[|ts| - 1].time < endTime {
            AbortIff(rs[1..], symbol, targetTime, endTime, flag', Some(ts[|ts| - 1].id),
                     chunks + [ToTrades(ts, symbol)], reqs');
          }
      }
    }
  }

  /** Index of the first answer during which an abort was requested (|rs| when none). */
  function FirstAbort(rs: seq<TradeResponse>): (n: nat)
    ensures n <= |rs| && (n < |rs| ==> rs[n].abortRequested)
    ensures forall i :: 0 <= i < n ==> !rs[i].abortRequested
  {
    if rs == [] then 0 else if rs[0].abortRequested then 0 else 1 + FirstAbort(rs[1..])
  }
}
