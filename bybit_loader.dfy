/** The Bybit history loader: candles fetched page by page from a start time until a page
    reaches the end time or repeats the last candle collected. Bybit answers newest first,
    so each page is reversed before use. Trade back-fill is not implemented. */
module BybitLoader {
  import opened Common
  import opened TimeFrames
  import opened Klines
  import opened LoaderPages

  function Reverse<T>(s: seq<T>): (r: seq<T>)
    ensures |r| == |s| && forall i :: 0 <= i < |s| ==> r[i] == s[|s| - 1 - i]
  {
    seq(|s|, i requires 0 <= i < |s| => s[|s| - 1 - i])
  }

  /** The candle loop from a cursor with the candles collected and requests made so far.
      Each answered page is reversed; an empty one ends the loop; one reaching the end time
      is trimmed; one whose first candle repeats the last collected ends the loop without
      being appended; otherwise the page is appended (ending the loop if it was trimmed)
      and the cursor moves one period past its last candle. */
  function RunBybit(rs: seq<Fetch<Kline>>, endTime: int, p: nat, cursor: int, collected: seq<Kline>,
                    reqs: seq<int>): KlinesRun
    decreases |rs|
  {
    if rs == [] then KlinesRun(reqs, StillFetching)
    else
      var reqs' := reqs + [cursor];
      match rs[0]
      case FetchFailed => RunBybit(rs[1..], endTime, p, cursor, collected, reqs')
      case Fetched(page) =>
        var ks := Reverse(page);
        if ks == [] then KlinesRun(reqs', Returned(collected))
        else
          var past := LastKlineTimeIsPastEndTime(ks, endTime);
          var kept := if past then TrimKlines(ks, endTime) else ks;
          if Repeats(collected, kept) then KlinesRun(reqs', Returned(collected))
          else
            var cursor' := if kept != [] then kept[|kept| - 1].time + p else cursor;
            if past then KlinesRun(reqs', Returned(collected + kept))
            else RunBybit(rs[1..], endTime, p, cursor', collected + kept, reqs')
  }

  /** The page's first candle opens when the last collected one does. */
  predicate Repeats(collected: seq<Kline>, ks: seq<Kline>) {
    collected != [] && ks != [] && collected[|collected| - 1].time == ks[0].time
  }

  /** `fetchKlinesBackwardsUntilKlineOpenTime`: requests pages from the cursor, starting
      at the start time, until a page is empty, reaches the end time or repeats. */
  method FetchKlinesBackwardsUntilKlineOpenTime(tf: string, startTime: int, endTime: int,
                                               responses: seq<Fetch<Kline>>)
    returns (requests: seq<int>, r: Outcome<seq<Kline>>)
    requires ValidTf(tf)
    ensures KlinesRun(requests, r) == RunBybit(responses, endTime, Period(tf), startTime, [], [])
  {
    ghost var run := RunBybit(responses, endTime, Period(tf), startTime, [], []);
    var collectedKlines: seq<Kline> := [];
    var keepFetching := true;
    var lastCollectedKlineTime := startTime;
    requests := [];
    var k := 0;
    while keepFetching
      invariant k <= |responses|
      invariant keepFetching ==>
        run == RunBybit(responses[k..], endTime, Period(tf), lastCollectedKlineTime, collectedKlines, requests)
      invariant !keepFetching ==> run == KlinesRun(requests, Returned(collectedKlines))
      decreases |responses| - k
    {
      if k == |responses| {
        return requests, StillFetching;
      }
      assert responses[k..][1..] == responses[k + 1..];
      requests := requests + [lastCollectedKlineTime];
      var response := responses[k];
      k := k + 1;
      if response.FetchFailed? {
        continue;
      }
      var klines := Reverse(response.page);
      if klines == [] {
        keepFetching := false;
        continue;
      }
      if LastKlineTimeIsPastEndTime(klines, endTime) {
        keepFetching := false;
        klines := RemoveOverflowingKlines(klines, endTime);
      }
      if collectedKlines != [] && klines != [] && collectedKlines[|collectedKlines| - 1].time == klines[0].time {
        keepFetching := false;
        TrimChangesIffPast(klines, endTime);
        klines := RemoveOverflowingKlines(klines, endTime);
      } else {
        collectedKlines := collectedKlines + klines;
        lastCollectedKlineTime := if |klines| > 0 then klines[|klines| - 1].time + Period(tf) else lastCollectedKlineTime;
      }
    }
    r := Returned(collectedKlines);
  }

  /** No two neighbouring candles open at the same time. */
  predicate NoAdjacentRepeats(ks: seq<Kline>) {
    forall i :: 0 < i < |ks| ==> ks[i - 1].time != ks[i].time
  }

  /** Pages reversed into ascending order. */
  predicate ReversedPagesAscending(rs: seq<Fetch<Kline>>) {
    forall i :: 0 <= i < |rs| && rs[i].Fetched? ==> Ascending(Reverse(rs[i].page))
  }

  lemma NoAdjacentRepeatsAppend(a: seq<Kline>, b: seq<Kline>)
    requires NoAdjacentRepeats(a) && Ascending(b) && !Repeats(a, b)
    ensures NoAdjacentRepeats(a + b)
  {
    forall i | 0 < i < |a + b| ensures (a + b)[i - 1].time != (a + b)[i].time {
      if i > |a| {
        assert (a + b)[i - 1] == b[i - 1 - |a|] && (a + b)[i] == b[i - |a|];
      } else if i == |a| {
        assert (a + b)[i] == b[0];
      }
    }
  }

  /** The repeat check is what keeps the collected candles free of a candle fetched twice
      at a page boundary: with pages ascending once reversed, no two neighbouring candles
      returned open at the same time, and all open before the end time. */
  lemma {:induction false} BybitNoRepeatsBeforeEnd(rs: seq<Fetch<Kline>>, endTime: int, p: nat, cursor: int,
                                                  collected: seq<Kline>, reqs: seq<int>)
    requires ReversedPagesAscending(rs) && NoAdjacentRepeats(collected) && AllBefore(collected, endTime)
    ensures var run := RunBybit(rs, endTime, p, cursor, collected, reqs);
      run.result.Returned? ==> NoAdjacentRepeats(run.result.value) && AllBefore(run.result.value, endTime)
    decreases |rs|
  {
    if rs != [] {
      assert forall i :: 0 <= i < |rs| - 1 ==> rs[1..][i] == rs[i + 1];
      assert ReversedPagesAscending(rs[1..]);
      match rs[0]
      case FetchFailed =>
        BybitNoRepeatsBeforeEnd(rs[1..], endTime, p, cursor, collected, reqs + [cursor]);
      case Fetched(page) =>
        var ks := Reverse(page);
        assert Ascending(ks);
        if ks != [] {
          var past := LastKlineTimeIsPastEndTime(ks, endTime);
          var kept := if past then TrimKlines(ks, endTime) else ks;
          if past {
            TrimmedAscendingBefore(ks, endTime);
          } else {
            AscendingBefore(ks, endTime);
          }
          if !Repeats(collected, kept) {
            NoAdjacentRepeatsAppend(collected, kept);
            AllBeforeAppend(collected, kept, endTime);
            if !past {
              var cursor' := if kept != [] then kept[|kept| - 1].time + p else cursor;
              BybitNoRepeatsBeforeEnd(rs[1..], endTime, p, cursor', collected + kept, reqs + [cursor]);
            }
          }
        }
    }
  }

  /** Failed calls are retried transparently: the candles returned are those of the
      answered calls alone. */
  lemma {:induction false} BybitIgnoresFailures(rs: seq<Fetch<Kline>>, endTime: int, p: nat, cursor: int,
                                               collected: seq<Kline>, reqs: seq<int>, reqs2: seq<int>)
    ensures RunBybit(rs, endTime, p, cursor, collected, reqs).result ==
            RunBybit(Answered(rs), endTime, p, cursor, collected, reqs2).result
    decreases |rs|
  {
    if rs != [] {
      var rest := Answered(rs[1..]);
      match rs[0]
      case FetchFailed =>
        BybitIgnoresFailures(rs[1..], endTime, p, cursor, collected, reqs + [cursor], reqs2);
      case Fetched(page) =>
        assert Answered(rs) == [rs[0]] + rest;
        assert ([rs[0]] + rest)[1..] == rest;
        var ks := Reverse(page);
        if ks != [] {
          var past := LastKlineTimeIsPastEndTime(ks, endTime);
          var kept := if past then TrimKlines(ks, endTime) else ks;
          if !Repeats(collected, kept) && !past {
            var cursor' := if kept != [] then kept[|kept| - 1].time + p else cursor;
            BybitIgnoresFailures(rs[1..], endTime, p, cursor', collected + kept, reqs + [cursor], reqs2 + [cursor]);
          }
        }
    }
  }

  /** `fetchTradesBackwardsUntilTradeOpenTime`: not implemented for Bybit. */
  function FetchTradesBackwardsUntilTradeOpenTime(symbol: string, targetTime: int, endTime: int, xm: string):
    (r: Outcome<seq<Trade>>)
    ensures r == Threw(NotImplemented)
  {
    Threw(NotImplemented)
  }

  /** `fetchTradesBackwardsUntilTradeOpenTimeInChunks`: not implemented for Bybit; no chunk
      is handed on. */
  function FetchTradesBackwardsUntilTradeOpenTimeInChunks(symbol: string, targetTime: int, endTime: int,
                                                          xm: string): (r: Outcome<seq<seq<Trade>>>)
    ensures r == Threw(NotImplemented)
  {
    Threw(NotImplemented)
  }
}
