/** What the history loaders share: the answer to one REST call (a page or a failure
    the loader retries), the tail trimming at the end time, and what a loader's promise
    settles to. */
module LoaderPages {
  import opened Common
  import opened Klines

  /** One REST call's answer: a page of records, or a failure (caught and retried). */
  datatype Fetch<T> = FetchFailed | Fetched(page: seq<T>)

  /** How a loader call ends after the answers given: still waiting for an answer that
      never came, rejected with an error, or resolved with a value. */
  datatype Outcome<T> = StillFetching | Threw(error: Failure) | Returned(value: T)

  /** Open times strictly increasing. */
  predicate Ascending(ks: seq<Kline>) {
    forall i, j :: 0 <= i < j < |ks| ==> ks[i].time < ks[j].time
  }

  predicate AllBefore(ks: seq<Kline>, endTime: int) {
    forall i :: 0 <= i < |ks| ==> ks[i].time < endTime
  }

  /** `removeOverflowingKlines`: pops tail candles while the last one opens at or after the
      end time. The result is the longest prefix that is empty or ends before the end time
      with everything removed at or after it. */
  function TrimKlines(ks: seq<Kline>, endTime: int): (r: seq<Kline>)
    ensures r <= ks
    ensures r == [] || r[|r| - 1].time < endTime
    ensures forall i :: |r| <= i < |ks| ==> ks[i].time >= endTime
    decreases |ks|
  {
    if ks != [] && ks[|ks| - 1].time >= endTime then TrimKlines(ks[..|ks| - 1], endTime) else ks
  }

  /** Trimming an ascending page leaves only candles opening before the end time. */
  lemma TrimmedAscendingBefore(ks: seq<Kline>, endTime: int)
    requires Ascending(ks)
    ensures Ascending(TrimKlines(ks, endTime)) && AllBefore(TrimKlines(ks, endTime), endTime)
  {
    var r := TrimKlines(ks, endTime);
    forall i | 0 <= i < |r| ensures r[i].time < endTime {
      assert r[i] == ks[i] && r[|r| - 1] == ks[|r| - 1];
    }
  }

  /** A page that does not reach the end time is untouched by trimming. */
  lemma TrimKeepsPageBefore(ks: seq<Kline>, endTime: int)
    requires ks == [] || ks[|ks| - 1].time < endTime
    ensures TrimKlines(ks, endTime) == ks
  {
  }

  /** An ascending page whose last candle opens before the end time lies before it. */
  lemma AscendingBefore(ks: seq<Kline>, endTime: int)
    requires Ascending(ks) && (ks == [] || ks[|ks| - 1].time < endTime)
    ensures AllBefore(ks, endTime)
  {
    forall i | 0 <= i < |ks| ensures ks[i].time < endTime {
      if i < |ks| - 1 {
        assert ks[i].time < ks[|ks| - 1].time;
      }
    }
  }

  lemma AllBeforeAppend(a: seq<Kline>, b: seq<Kline>, endTime: int)
    requires AllBefore(a, endTime) && AllBefore(b, endTime)
    ensures AllBefore(a + b, endTime)
  {
    forall i | 0 <= i < |a + b| ensures (a + b)[i].time < endTime {
      if i >= |a| {
        assert (a + b)[i] == b[i - |a|];
      }
    }
  }

  /** The requests made (their `startTime` cursors) and how the call ended. */
  datatype KlinesRun = KlinesRun(requests: seq<int>, result: Outcome<seq<Kline>>)

  /** `lastKlineTimeIsPastEndTime`: false on an empty page, else the last open time is at
      or after the end time. */
  predicate LastKlineTimeIsPastEndTime(ks: seq<Kline>, endTime: int) {
    ks != [] && ks[|ks| - 1].time >= endTime
  }

  /** Trimming changes a page exactly when its last candle is past the end time. */
  lemma TrimChangesIffPast(ks: seq<Kline>, endTime: int)
    ensures TrimKlines(ks, endTime) != ks <==> LastKlineTimeIsPastEndTime(ks, endTime)
  {
    if LastKlineTimeIsPastEndTime(ks, endTime) {
      assert |TrimKlines(ks, endTime)| < |ks|;
    }
  }

  /** `removeOverflowingKlines` (the Binance and Bybit loaders have the same loop): pops
      while the last candle is past the end time. */
  method RemoveOverflowingKlines(klines: seq<Kline>, endTime: int) returns (r: seq<Kline>)
    ensures r == TrimKlines(klines, endTime)
  {
    r := klines;
    while LastKlineTimeIsPastEndTime(r, endTime)
      invariant TrimKlines(r, endTime) == TrimKlines(klines, endTime)
      decreases |r|
    {
      r := r[..|r| - 1];
    }
  }

  /** The answers without the failed calls. */
  function Answered<T>(rs: seq<Fetch<T>>): seq<Fetch<T>>
  {
    if rs == [] then []
    else if rs[0].FetchFailed? then Answered(rs[1..])
    else [rs[0]] + Answered(rs[1..])
  }

  /** Every page ascending. */
  predicate PagesAscending(rs: seq<Fetch<Kline>>) {
    forall i :: 0 <= i < |rs| && rs[i].Fetched? ==> Ascending(rs[i].page)
  }
}
