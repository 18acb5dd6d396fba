/** The symbols state manager: for every tracked symbol and configured time frame, the
    rolling candle history fed by the scanner's build results (FK updates when a candle
    closes, IK updates while it forms), completed once per pair by a history load. */
module SymbolsStateManager {
  import opened Common
  import opened Strings
  import opened TimeFrames
  import opened Klines
  import opened LoaderPages
  import KlinesBuilder
  import HistoryLoader

  /** `ISSMConfig`. */
  datatype SsmConfig = SsmConfig(timeFrames: seq<string>, whitelist: seq<string>, blacklist: seq<string>,
                                 historyLen: nat)

  /** `ISymbolHistory`: one time frame's history and its load flags. */
  datatype TfHistory = TfHistory(tf: string, history: seq<Kline>, loaded: bool, loading: bool)

  /** `ISymbolState`. */
  datatype SymbolState = SymbolState(symbol: string, histories: map<string, TfHistory>)

  /** FK: a candle closed and a new one opened; IK: the forming candle changed. */
  datatype UpdateKind = FK | IK

  /** A message handed to the websocket gateway. */
  datatype Emission = Emission(kind: UpdateKind, tf: string, sym: string, xm: string, history: seq<Kline>)

  const IkThrottlingTimeMs := 100

  /** The gap arithmetic of the model covers the fixed-width units only. */
  predicate ConfigValid(c: SsmConfig) {
    forall tf :: tf in c.timeFrames ==> FixedWidthTf(tf)
  }

  // ---------------------------------------------------------------------------
  // isInterestedInUpdate, removeUnwantedTimeFrames
  // ---------------------------------------------------------------------------

  /** `isInterestedInUpdate`: same market as the scanner, not blacklisted, whitelisted when
      a whitelist is set, and every configured time frame listed and built. */
  predicate IsInterested(c: SsmConfig, scannerMarket: string, u: KlinesBuilder.BuildResult) {
    u.exchangeMarket == scannerMarket &&
    u.symbol !in c.blacklist &&
    (|c.whitelist| == 0 || u.symbol in c.whitelist) &&
    forall tf :: tf in c.timeFrames ==> tf in u.timeFrames && tf in u.klines
  }

  /** `tfs.filter(tf => !drop.includes(tf))`. */
  function Without(tfs: seq<string>, drop: seq<string>): (r: seq<string>)
    ensures forall t :: t in r <==> t in tfs && t !in drop
  {
    if tfs == [] then []
    else (if tfs[0] in drop then [] else [tfs[0]]) + Without(tfs[1..], drop)
  }

  /** `tfs.filter(tf => keep.includes(tf))`. */
  function Within(tfs: seq<string>, keep: seq<string>): (r: seq<string>)
    ensures forall t :: t in r <==> t in tfs && t in keep
  {
    if tfs == [] then []
    else (if tfs[0] in keep then [tfs[0]] else []) + Within(tfs[1..], keep)
  }

  function Elems(tfs: seq<string>): set<string> {
    set t | t in tfs
  }

  /** Filtering keeps relative order: it distributes over concatenation. */
  lemma {:induction false} WithinAppend(a: seq<string>, b: seq<string>, keep: seq<string>)
    ensures Within(a + b, keep) == Within(a, keep) + Within(b, keep)
  {
    if a != [] {
      var head := if a[0] in keep then [a[0]] else [];
      assert (a + b)[0] == a[0];
      assert (a + b)[1..] == a[1..] + b;
      WithinAppend(a[1..], b, keep);
      AppendAssoc(head, Within(a[1..], keep), Within(b, keep));
    } else {
      assert a + b == b;
    }
  }

  lemma {:induction false} WithoutAppend(a: seq<string>, b: seq<string>, drop: seq<string>)
    ensures Without(a + b, drop) == Without(a, drop) + Without(b, drop)
  {
    if a != [] {
      var head := if a[0] in drop then [] else [a[0]];
      assert (a + b)[0] == a[0];
      assert (a + b)[1..] == a[1..] + b;
      WithoutAppend(a[1..], b, drop);
      AppendAssoc(head, Without(a[1..], drop), Without(b, drop));
    } else {
      assert a + b == b;
    }
  }

  lemma {:induction false} WithoutNothing(tfs: seq<string>)
    ensures Without(tfs, []) == tfs
  {
    if tfs != [] {
      WithoutNothing(tfs[1..]);
      assert [tfs[0]] + tfs[1..] == tfs;
    }
  }

  /** Removing the dropped time frames one at a time is removing them all at once. */
  lemma {:induction false} WithoutStep(tfs: seq<string>, drop: seq<string>, d: string)
    ensures Without(Without(tfs, drop), [d]) == Without(tfs, drop + [d])
  {
    if tfs != [] {
      var head := if tfs[0] in drop then [] else [tfs[0]];
      WithoutAppend(head, Without(tfs[1..], drop), [d]);
      WithoutStep(tfs[1..], drop, d);
      if tfs[0] !in drop {
        assert Without(head, [d]) == (if tfs[0] == d then [] else [tfs[0]]) + Without([], [d]);
      }
    }
  }

  /** Dropping exactly the entries not kept is keeping the kept ones. */
  lemma {:induction false} WithoutComplement(tfs: seq<string>, drop: seq<string>, keep: seq<string>)
    requires forall t :: t in tfs ==> (t in drop <==> t !in keep)
    ensures Without(tfs, drop) == Within(tfs, keep)
  {
    if tfs != [] {
      assert tfs[0] in tfs;
      WithoutComplement(tfs[1..], drop, keep);
    }
  }

  /** The update `removeUnwantedTimeFrames` returns: the configured time frames of the update,
      in order, and its candles minus those of the time frames it listed but are not configured. */
  function Filtered(u: KlinesBuilder.BuildResult, configTfs: seq<string>): (r: KlinesBuilder.BuildResult)
    ensures r.symbol == u.symbol && r.exchangeMarket == u.exchangeMarket
    ensures forall t :: t in r.timeFrames <==> t in u.timeFrames && t in configTfs
    ensures forall t :: t in r.klines <==> t in u.klines && (t in configTfs || t !in u.timeFrames)
    ensures forall t :: t in r.klines ==> r.klines[t] == u.klines[t]
  {
    u.(timeFrames := Within(u.timeFrames, configTfs),
       klines := u.klines - Elems(Without(u.timeFrames, configTfs)))
  }

  /** An update the manager is interested in keeps, after filtering, every configured time
      frame, each with its candle, and nothing else. */
  lemma InterestedFilteredCoversConfig(c: SsmConfig, scannerMarket: string, u: KlinesBuilder.BuildResult)
    requires IsInterested(c, scannerMarket, u)
    ensures var f := Filtered(u, c.timeFrames);
      (forall t :: t in f.timeFrames <==> t in c.timeFrames) &&
      (forall t :: t in f.timeFrames ==> t in f.klines && f.klines[t] == u.klines[t])
  {
    var f := Filtered(u, c.timeFrames);
    forall t | t in c.timeFrames
      ensures t in f.timeFrames && t in f.klines
    {
    }
  }

  /** `removeUnwantedTimeFrames`: a clone of the update from which each listed time frame
      that is not configured is deleted, candle and list entry, one after the other. */
  /** Deleting the keys of s, then t, is deleting the keys of s + [t]. */
  lemma DeleteStep(m: map<string, Kline>, s: seq<string>, t: string)
    ensures (m - Elems(s)) - {t} == m - Elems(s + [t])
  {
    assert Elems(s + [t]) == Elems(s) + {t};
  }

  /** One deletion of the loop in `removeUnwantedTimeFrames`: the i-th listed time frame. */
  lemma RemoveStep(u: KlinesBuilder.BuildResult, drop: seq<string>, i: nat)
    requires i < |drop|
    ensures Without(Without(u.timeFrames, drop[..i]), [drop[i]]) == Without(u.timeFrames, drop[..i + 1])
    ensures (u.klines - Elems(drop[..i])) - {drop[i]} == u.klines - Elems(drop[..i + 1])
  {
    assert drop[..i + 1] == drop[..i] + [drop[i]];
    WithoutStep(u.timeFrames, drop[..i], drop[i]);
    DeleteStep(u.klines, drop[..i], drop[i]);
  }

  method RemoveUnwantedTimeFrames(u: KlinesBuilder.BuildResult, configTfs: seq<string>)
    returns (clone: KlinesBuilder.BuildResult)
    ensures clone == Filtered(u, configTfs)
  {
    var tfsToRemove := Without(u.timeFrames, configTfs);
    var timeFrames := u.timeFrames;
    var klines := u.klines;
    WithoutNothing(u.timeFrames);
    assert Elems([]) == {};
    assert u.klines - {} == u.klines;
    var i := 0;
    while i < |tfsToRemove|
      invariant 0 <= i <= |tfsToRemove|
      invariant timeFrames == Without(u.timeFrames, tfsToRemove[..i])
      invariant klines == u.klines - Elems(tfsToRemove[..i])
    {
      var tf := tfsToRemove[i];
      RemoveStep(u, tfsToRemove, i);
      klines := klines - {tf};
      timeFrames := Without(timeFrames, [tf]);
      i := i + 1;
    }
    assert tfsToRemove[..i] == tfsToRemove;
    WithoutComplement(u.timeFrames, tfsToRemove, configTfs);
    clone := u.(timeFrames := timeFrames, klines := klines);
  }

  // ---------------------------------------------------------------------------
  // initStateInternal
  // ---------------------------------------------------------------------------

  function EmptyHistory(tf: string): TfHistory {
    TfHistory(tf, [], false, false)
  }

  /** The histories `initStateInternal` creates: one empty, unloaded history per time frame. */
  function EmptyHistories(tfs: seq<string>): (r: map<string, TfHistory>)
    ensures forall tf :: tf in r <==> tf in tfs
    ensures forall tf :: tf in r ==> r[tf] == TfHistory(tf, [], false, false)
  {
    if tfs == [] then map[]
    else
      var init := tfs[..|tfs| - 1];
      assert tfs == init + [Last(tfs)];
      EmptyHistories(init)[Last(tfs) := EmptyHistory(Last(tfs))]
  }

  lemma EmptyHistoriesSnoc(tfs: seq<string>, i: nat)
    requires i < |tfs|
    ensures EmptyHistories(tfs[..i + 1]) == EmptyHistories(tfs[..i])[tfs[i] := EmptyHistory(tfs[i])]
  {
    assert tfs[..i + 1][..i] == tfs[..i];
  }

  // ---------------------------------------------------------------------------
  // requestHistoryLoadIfMissing
  // ---------------------------------------------------------------------------

  /** The state a history request touches: the symbol's histories, the pending request ids,
      and the jobs handed to the history loader. */
  datatype Loading = Loading(histories: map<string, TfHistory>, pending: seq<string>,
                             requests: seq<HistoryLoader.HistoryLoadRequest>)

  function Ticker(xm: string, sym: string, tf: string): string {
    xm + "~" + sym + "~" + tf
  }

  predicate Untracked(h: TfHistory) {
    !h.loaded && !h.loading
  }

  /** One time frame of `requestHistoryLoadIfMissing`: a history neither loaded nor loading
      is marked loading and its load is requested under a fresh id. */
  function RequestTf(l: Loading, xm: string, sym: string, tf: string, k: Kline, historyLen: nat, id: string)
    : (r: Loading)
    requires tf in l.histories
    ensures r.histories.Keys == l.histories.Keys
  {
    var h := l.histories[tf];
    if Untracked(h) then
      Loading(l.histories[tf := h.(loading := true)], l.pending + [id],
              l.requests + [HistoryLoader.HistoryLoadRequest(id, Ticker(xm, sym, tf), historyLen, k.time)])
    else l
  }

  predicate Requestable(hs: map<string, TfHistory>, tfs: seq<string>, klines: map<string, Kline>) {
    forall tf :: tf in tfs ==> tf in hs && tf in klines
  }

  /** `requestHistoryLoadIfMissing`: RequestTf for each time frame of the update in order;
      `ids(tf)` is the `randomUUID()` drawn for it. */
  function RequestAll(l: Loading, xm: string, sym: string, tfs: seq<string>, klines: map<string, Kline>,
                      historyLen: nat, ids: string -> string): (r: Loading)
    requires Requestable(l.histories, tfs, klines)
    ensures r.histories.Keys == l.histories.Keys
    decreases |tfs|
  {
    if tfs == [] then l
    else
      var init := tfs[..|tfs| - 1];
      var mid := RequestAll(l, xm, sym, init, klines, historyLen, ids);
      RequestTf(mid, xm, sym, Last(tfs), klines[Last(tfs)], historyLen, ids(Last(tfs)))
  }

  lemma RequestablePrefix(hs: map<string, TfHistory>, tfs: seq<string>, klines: map<string, Kline>)
    requires Requestable(hs, tfs, klines) && tfs != []
    ensures Requestable(hs, tfs[..|tfs| - 1], klines) && Last(tfs) in hs && Last(tfs) in klines
  {
    assert forall t :: t in tfs[..|tfs| - 1] ==> t in tfs;
  }

  lemma RequestablePrefixAt(hs: map<string, TfHistory>, tfs: seq<string>, klines: map<string, Kline>, i: nat)
    requires Requestable(hs, tfs, klines) && i <= |tfs|
    ensures Requestable(hs, tfs[..i], klines)
  {
    assert forall t :: t in tfs[..i] ==> t in tfs;
  }

  /** One more time frame of the loop: RequestTf on what the earlier ones left. */
  lemma RequestAllStep(l: Loading, xm: string, sym: string, tfs: seq<string>, klines: map<string, Kline>,
                       historyLen: nat, ids: string -> string, i: nat)
    requires Requestable(l.histories, tfs, klines) && i < |tfs|
    ensures Requestable(l.histories, tfs[..i], klines) && Requestable(l.histories, tfs[..i + 1], klines)
    ensures tfs[i] in l.histories && tfs[i] in klines
    ensures var mid := RequestAll(l, xm, sym, tfs[..i], klines, historyLen, ids);
      RequestAll(l, xm, sym, tfs[..i + 1], klines, historyLen, ids) ==
        RequestTf(mid, xm, sym, tfs[i], klines[tfs[i]], historyLen, ids(tfs[i]))
  {
    RequestablePrefixAt(l.histories, tfs, klines, i);
    RequestablePrefixAt(l.histories, tfs, klines, i + 1);
    assert tfs[..i + 1][..i] == tfs[..i];
  }

  /** Requests leave `loaded` and the candles alone, never clear `loading`, leave the time
      frames not listed untouched, and leave every listed time frame loaded or loading. */
  lemma {:induction false} RequestAllFlags(l: Loading, xm: string, sym: string, tfs: seq<string>,
                                           klines: map<string, Kline>, historyLen: nat, ids: string -> string)
    requires Requestable(l.histories, tfs, klines)
    ensures var r := RequestAll(l, xm, sym, tfs, klines, historyLen, ids);
      (forall tf :: tf in r.histories ==>
         r.histories[tf].loaded == l.histories[tf].loaded &&
         r.histories[tf].history == l.histories[tf].history &&
         r.histories[tf].tf == l.histories[tf].tf &&
         (l.histories[tf].loading ==> r.histories[tf].loading)) &&
      (forall tf :: tf in r.histories && tf !in tfs ==> r.histories[tf] == l.histories[tf]) &&
      (forall tf :: tf in tfs ==> r.histories[tf].loaded || r.histories[tf].loading)
    decreases |tfs|
  {
    if tfs != [] {
      RequestablePrefix(l.histories, tfs, klines);
      RequestAllFlags(l, xm, sym, tfs[..|tfs| - 1], klines, historyLen, ids);
      forall t | t in tfs
        ensures t in tfs[..|tfs| - 1] || t == Last(tfs)
      {
        InInitOrLast(tfs, t);
      }
    }
  }

  /** `req` asks for one of `tfs` that was neither loaded nor loading in `hs`, with the
      configured length, the new candle's open time and the `xm~sym~tf` ticker. */
  predicate RequestedFor(hs: map<string, TfHistory>, xm: string, sym: string, tfs: seq<string>,
                         klines: map<string, Kline>, historyLen: nat, ids: string -> string,
                         req: HistoryLoader.HistoryLoadRequest)
  {
    exists tf :: tf in tfs && tf in hs && tf in klines && Untracked(hs[tf]) &&
      req == HistoryLoader.HistoryLoadRequest(ids(tf), Ticker(xm, sym, tf), historyLen, klines[tf].time)
  }

  /** The ids of the requests, in order. */
  function RequestIds(reqs: seq<HistoryLoader.HistoryLoadRequest>): (r: seq<string>)
    ensures |r| == |reqs|
  {
    seq(|reqs|, j requires 0 <= j < |reqs| => reqs[j].reqId)
  }

  /** Requests are only appended, and each one's id is recorded as pending at the same
      position. */
  lemma {:induction false} RequestAllPending(l: Loading, xm: string, sym: string, tfs: seq<string>,
                                             klines: map<string, Kline>, historyLen: nat, ids: string -> string)
    requires Requestable(l.histories, tfs, klines)
    ensures var r := RequestAll(l, xm, sym, tfs, klines, historyLen, ids);
      |r.requests| >= |l.requests| && r.requests[..|l.requests|] == l.requests &&
      r.pending == l.pending + RequestIds(r.requests[|l.requests|..])
    decreases |tfs|
  {
    if tfs != [] {
      var init := tfs[..|tfs| - 1];
      RequestablePrefix(l.histories, tfs, klines);
      RequestAllPending(l, xm, sym, init, klines, historyLen, ids);
      var mid := RequestAll(l, xm, sym, init, klines, historyLen, ids);
      var tf := Last(tfs);
      var r := RequestAll(l, xm, sym, tfs, klines, historyLen, ids);
      assert r == RequestTf(mid, xm, sym, tf, klines[tf], historyLen, ids(tf));
      if Untracked(mid.histories[tf]) {
        var req := r.requests[|r.requests| - 1];
        assert r.requests == mid.requests + [req] && r.pending == mid.pending + [req.reqId];
        assert r.requests[|l.requests|..] == mid.requests[|l.requests|..] + [req];
        assert RequestIds(r.requests[|l.requests|..]) == RequestIds(mid.requests[|l.requests|..]) + [req.reqId];
      }
    }
  }

  /** Every request is for a listed time frame that was neither loaded nor loading, and
      carries the configured length, the new candle's open time and the `xm~sym~tf` ticker. */
  lemma {:induction false} RequestAllLogs(l: Loading, xm: string, sym: string, tfs: seq<string>,
                                          klines: map<string, Kline>, historyLen: nat, ids: string -> string)
    requires Requestable(l.histories, tfs, klines)
    ensures var r := RequestAll(l, xm, sym, tfs, klines, historyLen, ids);
      |r.requests| >= |l.requests| &&
      forall j :: |l.requests| <= j < |r.requests| ==>
        RequestedFor(l.histories, xm, sym, tfs, klines, historyLen, ids, r.requests[j])
    decreases |tfs|
  {
    if tfs != [] {
      var init := tfs[..|tfs| - 1];
      RequestablePrefix(l.histories, tfs, klines);
      RequestAllLogs(l, xm, sym, init, klines, historyLen, ids);
      RequestAllFlags(l, xm, sym, init, klines, historyLen, ids);
      var mid := RequestAll(l, xm, sym, init, klines, historyLen, ids);
      var r := RequestAll(l, xm, sym, tfs, klines, historyLen, ids);
      var tf := Last(tfs);
      assert r == RequestTf(mid, xm, sym, tf, klines[tf], historyLen, ids(tf));
      forall j | |l.requests| <= j < |r.requests|
        ensures RequestedFor(l.histories, xm, sym, tfs, klines, historyLen, ids, r.requests[j])
      {
        if j < |mid.requests| {
          assert r.requests[j] == mid.requests[j];
          var t :| t in init && t in l.histories && t in klines && Untracked(l.histories[t]) &&
            mid.requests[j] == HistoryLoader.HistoryLoadRequest(ids(t), Ticker(xm, sym, t), historyLen, klines[t].time);
          assert t in tfs;
        } else {
          assert Untracked(l.histories[tf]);
          assert r.requests[j] == HistoryLoader.HistoryLoadRequest(ids(tf), Ticker(xm, sym, tf), historyLen, klines[tf].time);
        }
      }
    }
  }

  /** Two tickers built for the same market and symbol name the same time frame only if they
      are equal. */
  lemma TickerInjective(xm: string, sym: string, a: string, b: string)
    requires Ticker(xm, sym, a) == Ticker(xm, sym, b)
    ensures a == b
  {
    var p := xm + "~" + sym + "~";
    assert Ticker(xm, sym, a) == p + a && Ticker(xm, sym, b) == p + b;
    assert a == (p + a)[|p|..];
  }

  /** One update requests each (symbol, time frame) at most once, even when it lists a time
      frame twice. */
  lemma {:induction false} RequestAllDistinct(l: Loading, xm: string, sym: string, tfs: seq<string>,
                                              klines: map<string, Kline>, historyLen: nat, ids: string -> string)
    requires Requestable(l.histories, tfs, klines)
    ensures var r := RequestAll(l, xm, sym, tfs, klines, historyLen, ids);
      forall i, j :: |l.requests| <= i < j < |r.requests| ==> r.requests[i].ticker != r.requests[j].ticker
    decreases |tfs|
  {
    if tfs != [] {
      var init := tfs[..|tfs| - 1];
      RequestablePrefix(l.histories, tfs, klines);
      RequestAllDistinct(l, xm, sym, init, klines, historyLen, ids);
      RequestAllLogs(l, xm, sym, init, klines, historyLen, ids);
      RequestAllFlags(l, xm, sym, init, klines, historyLen, ids);
      var mid := RequestAll(l, xm, sym, init, klines, historyLen, ids);
      var r := RequestAll(l, xm, sym, tfs, klines, historyLen, ids);
      var tf := Last(tfs);
      if Untracked(mid.histories[tf]) {
        var n := |r.requests| - 1;
        forall i | |l.requests| <= i < n
          ensures r.requests[i].ticker != r.requests[n].ticker
        {
          assert r.requests[i] == mid.requests[i];
          var t :| t in init && Untracked(l.histories[t]) &&
            mid.requests[i] == HistoryLoader.HistoryLoadRequest(ids(t), Ticker(xm, sym, t), historyLen, klines[t].time);
          assert mid.histories[t].loaded || mid.histories[t].loading;
          if r.requests[i].ticker == r.requests[n].ticker {
            TickerInjective(xm, sym, t, tf);
          }
        }
      }
    }
  }

  /** Time frames already loaded or loading are never requested again. */
  lemma {:induction false} RequestAllTracked(l: Loading, xm: string, sym: string, tfs: seq<string>,
                                             klines: map<string, Kline>, historyLen: nat, ids: string -> string)
    requires Requestable(l.histories, tfs, klines)
    requires forall tf :: tf in tfs ==> !Untracked(l.histories[tf])
    ensures RequestAll(l, xm, sym, tfs, klines, historyLen, ids) == l
    decreases |tfs|
  {
    if tfs != [] {
      RequestablePrefix(l.histories, tfs, klines);
      RequestAllTracked(l, xm, sym, tfs[..|tfs| - 1], klines, historyLen, ids);
    }
  }

  /** Hence a second update for the same time frames requests nothing: each pair is
      requested at most once. */
  lemma RequestAtMostOnce(l: Loading, xm: string, sym: string, tfs: seq<string>, tfs2: seq<string>,
                          klines: map<string, Kline>, klines2: map<string, Kline>, historyLen: nat,
                          ids: string -> string, ids2: string -> string)
    requires Requestable(l.histories, tfs, klines)
    requires forall tf :: tf in tfs2 ==> tf in tfs && tf in klines2
    ensures var r := RequestAll(l, xm, sym, tfs, klines, historyLen, ids);
      RequestAll(r, xm, sym, tfs2, klines2, historyLen, ids2) == r
  {
    var r := RequestAll(l, xm, sym, tfs, klines, historyLen, ids);
    RequestAllFlags(l, xm, sym, tfs, klines, historyLen, ids);
    RequestAllTracked(r, xm, sym, tfs2, klines2, historyLen, ids2);
  }

  // ---------------------------------------------------------------------------
  // updateHistories, getFilledKlines, trimHistory, canDispatchIKUpdate
  // ---------------------------------------------------------------------------

  /** `getFilledKlines`: fill the gaps of [last, new] and drop the leading `last`. */
  function FilledKlines(last: Kline, k: Kline, tf: string): seq<Kline>
    requires FixedWidthTf(tf)
  {
    FillSpec([last, k], tf)[1..]
  }

  /** The filled candles are the candles missing between last and the new one, then the new one. */
  lemma FilledKlinesShape(last: Kline, k: Kline, tf: string)
    requires FixedWidthTf(tf)
    ensures FilledKlines(last, k, tf) == GapFill(last, k, UnitMs(tf), Amount(tf)) + [k]
  {
    var list := [last, k];
    assert list[..1] == [last];
    assert FillSpecUA([last], UnitMs(tf), Amount(tf)) == [last];
  }

  /** For aligned open times last < new, the filled candles step one period at a time from
      last to the new candle, each missing one flat at last's close with no volume. */
  lemma FilledKlinesProps(last: Kline, k: Kline, tf: string)
    requires FixedWidthTf(tf)
    requires last.time % Period(tf) == 0 && k.time % Period(tf) == 0 && last.time < k.time
    ensures var r := FilledKlines(last, k, tf);
      Last(r) == k && last.time + |r| * Period(tf) == k.time &&
      forall i :: 0 <= i < |r| - 1 ==> r[i] == FillKline(last, i + 1, Period(tf))
  {
    var u, a := UnitMs(tf), Amount(tf);
    var p := Period(tf);
    FilledKlinesShape(last, k, tf);
    var n := AlignedDistance(last.time, k.time, p);
    GapFillAligned(last, k, u, a, n);
    GapFillElems(last, k, u, a);
  }

  /** `history.findIndex(k => k[0] === t)`. */
  function FindIndexByTime(hs: seq<Kline>, t: int): (i: int)
    ensures -1 <= i < |hs|
    ensures 0 <= i ==> hs[i].time == t && forall j :: 0 <= j < i ==> hs[j].time != t
    ensures i == -1 ==> forall j :: 0 <= j < |hs| ==> hs[j].time != t
  {
    if hs == [] then -1
    else if hs[0].time == t then 0
    else
      var r := FindIndexByTime(hs[1..], t);
      if r == -1 then -1 else r + 1
  }

  function IkKey(sym: string, tf: string): string {
    sym + ":" + tf
  }

  /** `canDispatchIKUpdate`: no recorded time (absent or 0, both falsy) or at least 100 ms
      since it. */
  predicate CanDispatchIK(times: map<string, int>, key: string, now: int) {
    key !in times || times[key] == 0 || now - times[key] >= IkThrottlingTimeMs
  }

  /** The state an update touches: the symbol's histories, the last IK emission times,
      and the messages sent to the gateway. */
  datatype Books = Books(histories: map<string, TfHistory>, ikTimes: map<string, int>, emitted: seq<Emission>)

  /** The FK history: the old one, the filled candles, trimmed to the last historyLen. */
  function FormedHistory(hs: seq<Kline>, k: Kline, tf: string, historyLen: nat): seq<Kline>
    requires hs != [] && FixedWidthTf(tf)
  {
    SliceLast(hs + FilledKlines(Last(hs), k, tf), historyLen)
  }

  /** The IK history: the first candle with k's open time replaced by k. */
  function IntermediateHistory(hs: seq<Kline>, k: Kline): seq<Kline> {
    var i := FindIndexByTime(hs, k.time);
    if i < 0 then hs else hs[i := k]
  }

  /** The body of `updateHistories` for one time frame with its new candle k. An empty
      history takes k silently; a different open time appends the filled candles, trims to
      historyLen and emits FK when loaded; the same open time replaces the first candle with
      that time and, when loaded and not throttled, records `now` and emits IK. Both IK
      branches of the source do the same, since `canDispatchIKUpdate` records the time first. */
  function UpdateTf(b: Books, sym: string, xm: string, tf: string, k: Kline, historyLen: nat, now: int): (r: Books)
    requires tf in b.histories && FixedWidthTf(tf)
    ensures tf in r.histories
    ensures r.histories == b.histories[tf := b.histories[tf].(history := r.histories[tf].history)]
  {
    var h := b.histories[tf];
    if h.history == [] then
      b.(histories := b.histories[tf := h.(history := [k])])
    else if Last(h.history).time != k.time then
      var nh := FormedHistory(h.history, k, tf, historyLen);
      var b1 := b.(histories := b.histories[tf := h.(history := nh)]);
      if h.loaded then b1.(emitted := b.emitted + [Emission(FK, tf, sym, xm, nh)]) else b1
    else
      var nh := IntermediateHistory(h.history, k);
      var b1 := b.(histories := b.histories[tf := h.(history := nh)]);
      if h.loaded && CanDispatchIK(b.ikTimes, IkKey(sym, tf), now) then
        b1.(ikTimes := b.ikTimes[IkKey(sym, tf) := now], emitted := b.emitted + [Emission(IK, tf, sym, xm, nh)])
      else b1
  }

  /** FK form: the history becomes the last historyLen candles of the old history, the
      missing candles and the new one; it ends with the new candle. */
  lemma FormedKlineUpdate(b: Books, sym: string, xm: string, tf: string, k: Kline, historyLen: nat, now: int)
    requires tf in b.histories && FixedWidthTf(tf)
    requires var hs := b.histories[tf].history; hs != [] && Last(hs).time != k.time
    ensures var hs := b.histories[tf].history;
      var nh := UpdateTf(b, sym, xm, tf, k, historyLen, now).histories[tf].history;
      nh == SliceLast(hs + GapFill(Last(hs), k, UnitMs(tf), Amount(tf)) + [k], historyLen) &&
      nh != [] && Last(nh) == k && (historyLen > 0 ==> |nh| <= historyLen)
  {
    var hs := b.histories[tf].history;
    FilledKlinesShape(Last(hs), k, tf);
    assert hs + GapFill(Last(hs), k, UnitMs(tf), Amount(tf)) + [k] == hs + FilledKlines(Last(hs), k, tf);
  }

  /** IK form: the first candle with the new candle's open time is replaced and the length
      is unchanged. */
  lemma IntermediateKlineUpdate(b: Books, sym: string, xm: string, tf: string, k: Kline, historyLen: nat, now: int)
    requires tf in b.histories && FixedWidthTf(tf)
    requires var hs := b.histories[tf].history; hs != [] && Last(hs).time == k.time
    ensures var hs := b.histories[tf].history;
      var nh := UpdateTf(b, sym, xm, tf, k, historyLen, now).histories[tf].history;
      |nh| == |hs| &&
      exists i :: 0 <= i < |hs| && hs[i].time == k.time && nh == hs[i := k] &&
                  forall j :: 0 <= j < i ==> hs[j].time != k.time
  {
    var hs := b.histories[tf].history;
    var i := FindIndexByTime(hs, k.time);
    assert hs[|hs| - 1].time == k.time;
    assert 0 <= i;
  }

  /** Emission rules: the first candle of a history is never emitted; FK is emitted iff the
      history is loaded; IK iff loaded and not throttled, and only then is `now` recorded;
      an emission carries the new history. */
  lemma UpdateTfEmission(b: Books, sym: string, xm: string, tf: string, k: Kline, historyLen: nat, now: int)
    requires tf in b.histories && FixedWidthTf(tf)
    ensures var h := b.histories[tf];
      var r := UpdateTf(b, sym, xm, tf, k, historyLen, now);
      var key := IkKey(sym, tf);
      (h.history == [] ==> r.histories[tf].history == [k] && r.emitted == b.emitted && r.ikTimes == b.ikTimes) &&
      (r.emitted == b.emitted || r.emitted == b.emitted + [Emission(Last(r.emitted).kind, tf, sym, xm, r.histories[tf].history)]) &&
      (r.emitted != b.emitted && Last(r.emitted).kind == FK <==>
         h.loaded && h.history != [] && Last(h.history).time != k.time) &&
      (r.emitted != b.emitted && Last(r.emitted).kind == IK <==>
         h.loaded && h.history != [] && Last(h.history).time == k.time && CanDispatchIK(b.ikTimes, key, now)) &&
      r.ikTimes == (if r.emitted != b.emitted && Last(r.emitted).kind == IK then b.ikTimes[key := now] else b.ikTimes)
  {
  }

  /** Throttling: after an IK emission at a non-zero time t, no IK is emitted for the same
      symbol and time frame before t + 100 ms. */
  lemma IkThrottled(b: Books, sym: string, xm: string, tf: string, k1: Kline, k2: Kline, historyLen: nat,
                    now1: int, now2: int)
    requires tf in b.histories && FixedWidthTf(tf)
    requires var r1 := UpdateTf(b, sym, xm, tf, k1, historyLen, now1);
      r1.emitted != b.emitted && Last(r1.emitted).kind == IK
    requires now1 != 0 && now1 <= now2 < now1 + IkThrottlingTimeMs
    ensures var r1 := UpdateTf(b, sym, xm, tf, k1, historyLen, now1);
      var r2 := UpdateTf(r1, sym, xm, tf, k2, historyLen, now2);
      r2.emitted == r1.emitted || Last(r2.emitted).kind == FK
  {
    var r1 := UpdateTf(b, sym, xm, tf, k1, historyLen, now1);
    UpdateTfEmission(b, sym, xm, tf, k1, historyLen, now1);
    assert r1.ikTimes[IkKey(sym, tf)] == now1;
    UpdateTfEmission(r1, sym, xm, tf, k2, historyLen, now2);
  }

  /** Replacing a candle by one with the same open time keeps a list contiguous. */
  lemma ReplaceKeepsContiguous(hs: seq<Kline>, i: int, k: Kline, p: int)
    requires Contiguous(hs, p) && 0 <= i < |hs| && hs[i].time == k.time
    ensures Contiguous(hs[i := k], p)
  {
    var r := hs[i := k];
    forall m | 0 < m < |r|
      ensures r[m].time == r[m - 1].time + p
    {
      assert r[m].time == hs[m].time && r[m - 1].time == hs[m - 1].time;
    }
  }

  lemma SuffixKeepsContiguous(hs: seq<Kline>, n: nat, p: int)
    requires Contiguous(hs, p)
    ensures Contiguous(SliceLast(hs, n), p)
  {
    var r := SliceLast(hs, n);
    var d := |hs| - |r|;
    forall m | 0 < m < |r|
      ensures r[m].time == r[m - 1].time + p
    {
      assert r[m] == hs[d + m] && r[m - 1] == hs[d + m - 1];
    }
  }

  /** Candles arriving in order of aligned open times keep each history gap-free: consecutive
      candles exactly one period apart, whatever the form of the update. */
  lemma UpdateKeepsContiguous(b: Books, sym: string, xm: string, tf: string, k: Kline, historyLen: nat, now: int)
    requires tf in b.histories && FixedWidthTf(tf)
    requires var hs := b.histories[tf].history;
      Contiguous(hs, Period(tf)) && k.time % Period(tf) == 0 &&
      (hs != [] ==> Last(hs).time % Period(tf) == 0 && Last(hs).time <= k.time)
    ensures Contiguous(UpdateTf(b, sym, xm, tf, k, historyLen, now).histories[tf].history, Period(tf))
  {
    var hs := b.histories[tf].history;
    var p := Period(tf);
    if hs != [] {
      var last := Last(hs);
      if last.time != k.time {
        var u, a := UnitMs(tf), Amount(tf);
        var g := GapFill(last, k, u, a);
        var n := AlignedDistance(last.time, k.time, p);
        GapFillAligned(last, k, u, a, n);
        GapFillElems(last, k, u, a);
        ContiguousAppend(hs, g, k, last, p, n);
        FormedKlineUpdate(b, sym, xm, tf, k, historyLen, now);
        SuffixKeepsContiguous(hs + g + [k], historyLen, p);
      } else {
        var i := FindIndexByTime(hs, k.time);
        assert hs[|hs| - 1].time == k.time;
        ReplaceKeepsContiguous(hs, i, k, p);
      }
    }
  }

  predicate Updatable(hs: map<string, TfHistory>, tfs: seq<string>, klines: map<string, Kline>) {
    forall tf :: tf in tfs ==> tf in hs && tf in klines && FixedWidthTf(tf)
  }

  lemma UpdatablePrefix(hs: map<string, TfHistory>, tfs: seq<string>, klines: map<string, Kline>)
    requires Updatable(hs, tfs, klines) && tfs != []
    ensures Updatable(hs, tfs[..|tfs| - 1], klines)
    ensures Last(tfs) in hs && Last(tfs) in klines && FixedWidthTf(Last(tfs))
  {
    assert forall t :: t in tfs[..|tfs| - 1] ==> t in tfs;
  }

  /** `updateHistories`: UpdateTf for each time frame of the update in order. */
  function UpdateAll(b: Books, sym: string, xm: string, tfs: seq<string>, klines: map<string, Kline>,
                     historyLen: nat, now: int): (r: Books)
    requires Updatable(b.histories, tfs, klines)
    ensures r.histories.Keys == b.histories.Keys
    decreases |tfs|
  {
    if tfs == [] then b
    else
      UpdatablePrefix(b.histories, tfs, klines);
      var mid := UpdateAll(b, sym, xm, tfs[..|tfs| - 1], klines, historyLen, now);
      UpdateTf(mid, sym, xm, Last(tfs), klines[Last(tfs)], historyLen, now)
  }

  lemma UpdatablePrefixAt(hs: map<string, TfHistory>, tfs: seq<string>, klines: map<string, Kline>, i: nat)
    requires Updatable(hs, tfs, klines) && i <= |tfs|
    ensures Updatable(hs, tfs[..i], klines)
  {
    assert forall t :: t in tfs[..i] ==> t in tfs;
  }

  /** One more time frame of the loop: UpdateTf on what the earlier ones left. */
  lemma UpdateAllStep(b: Books, sym: string, xm: string, tfs: seq<string>, klines: map<string, Kline>,
                      historyLen: nat, now: int, i: nat)
    requires Updatable(b.histories, tfs, klines) && i < |tfs|
    ensures Updatable(b.histories, tfs[..i], klines) && Updatable(b.histories, tfs[..i + 1], klines)
    ensures tfs[i] in b.histories && tfs[i] in klines && FixedWidthTf(tfs[i])
    ensures var mid := UpdateAll(b, sym, xm, tfs[..i], klines, historyLen, now);
      UpdateAll(b, sym, xm, tfs[..i + 1], klines, historyLen, now) ==
        UpdateTf(mid, sym, xm, tfs[i], klines[tfs[i]], historyLen, now)
  {
    UpdatablePrefixAt(b.histories, tfs, klines, i);
    UpdatablePrefixAt(b.histories, tfs, klines, i + 1);
    assert tfs[..i + 1][..i] == tfs[..i];
  }

  /** Updates change candles only: the load flags of every history stay as they were, the
      time frames not listed stay untouched, and the gateway log only grows. */
  lemma {:induction false} UpdateAllFrame(b: Books, sym: string, xm: string, tfs: seq<string>,
                                          klines: map<string, Kline>, historyLen: nat, now: int)
    requires Updatable(b.histories, tfs, klines)
    ensures var r := UpdateAll(b, sym, xm, tfs, klines, historyLen, now);
      (forall tf :: tf in r.histories ==> r.histories[tf] == b.histories[tf].(history := r.histories[tf].history)) &&
      (forall tf :: tf in r.histories && tf !in tfs ==> r.histories[tf] == b.histories[tf]) &&
      |r.emitted| >= |b.emitted| && r.emitted[..|b.emitted|] == b.emitted
    decreases |tfs|
  {
    if tfs != [] {
      UpdatablePrefix(b.histories, tfs, klines);
      UpdateAllFrame(b, sym, xm, tfs[..|tfs| - 1], klines, historyLen, now);
      var mid := UpdateAll(b, sym, xm, tfs[..|tfs| - 1], klines, historyLen, now);
      UpdateTfEmission(mid, sym, xm, Last(tfs), klines[Last(tfs)], historyLen, now);
      forall t | t in tfs
        ensures t in tfs[..|tfs| - 1] || t == Last(tfs)
      {
        InInitOrLast(tfs, t);
      }
    }
  }

  // ---------------------------------------------------------------------------
  // The history-loaded merge in subscribeHistoriesLoaded
  // ---------------------------------------------------------------------------

  /** The loaded history in front of the live one, without its last candle when that has
      the live history's first open time (the live candle is trusted). */
  function MergeHistory(loaded: seq<Kline>, live: seq<Kline>): seq<Kline>
    requires loaded != [] && live != []
  {
    (if Last(loaded).time == live[0].time then loaded[..|loaded| - 1] else loaded) + live
  }

  /** The merge keeps the live history whole at the end and at most one candle per open
      time at the seam: ascending parts that meet in order give an ascending history. */
  lemma MergeKeepsOrder(loaded: seq<Kline>, live: seq<Kline>)
    requires loaded != [] && live != []
    requires Ascending(loaded) && Ascending(live) && Last(loaded).time <= live[0].time
    ensures var r := MergeHistory(loaded, live);
      Ascending(r) && r[|r| - |live|..] == live &&
      |r| == |loaded| + |live| - (if Last(loaded).time == live[0].time then 1 else 0)
  {
    var r := MergeHistory(loaded, live);
    var front := if Last(loaded).time == live[0].time then loaded[..|loaded| - 1] else loaded;
    assert r == front + live;
    assert forall i :: 0 <= i < |front| ==> front[i].time < live[0].time by {
      forall i | 0 <= i < |front|
        ensures front[i].time < live[0].time
      {
        assert front[i] == loaded[i];
        if i < |loaded| - 1 {
          assert loaded[i].time < loaded[|loaded| - 1].time;
        }
      }
    }
    forall i, j | 0 <= i < j < |r|
      ensures r[i].time < r[j].time
    {
      if j < |front| {
        assert r[i] == loaded[i] && r[j] == loaded[j];
      } else if i < |front| {
        assert r[j] == live[j - |front|];
        if j - |front| > 0 {
          assert live[0].time < live[j - |front|].time;
        }
      } else {
        assert r[i] == live[i - |front|] && r[j] == live[j - |front|];
      }
    }
    assert r[|r| - |live|..] == live;
  }

  /** A contiguous loaded history ending on or just before the live one's first candle
      merges into a contiguous history. */
  lemma MergeKeepsContiguous(loaded: seq<Kline>, live: seq<Kline>, p: int)
    requires loaded != [] && live != []
    requires Contiguous(loaded, p) && Contiguous(live, p)
    requires Last(loaded).time == live[0].time || Last(loaded).time + p == live[0].time
    ensures Contiguous(MergeHistory(loaded, live), p)
  {
    var r := MergeHistory(loaded, live);
    var front := if Last(loaded).time == live[0].time then loaded[..|loaded| - 1] else loaded;
    assert r == front + live;
    forall m | 0 < m < |r|
      ensures r[m].time == r[m - 1].time + p
    {
      if m < |front| {
        assert r[m] == loaded[m] && r[m - 1] == loaded[m - 1];
      } else if m == |front| {
        assert r[m] == live[0] && r[m - 1] == loaded[m - 1];
        if Last(loaded).time == live[0].time {
          assert loaded[m].time == loaded[m - 1].time + p;
        }
      } else {
        assert r[m] == live[m - |front|] && r[m - 1] == live[m - 1 - |front|];
      }
    }
  }

  // ---------------------------------------------------------------------------
  // The whole service state
  // ---------------------------------------------------------------------------

  /** The service's fields; `subscribed` is whether the histories-loaded subscription is
      alive, `emitted` what went to the gateway, `requests` what went to the history loader. */
  datatype SsmState = SsmState(started: bool, subscribed: bool, config: Option<SsmConfig>,
                               state: map<string, map<string, TfHistory>>, pending: seq<string>,
                               ikTimes: map<string, int>, emitted: seq<Emission>,
                               requests: seq<HistoryLoader.HistoryLoadRequest>)

  predicate HasHistories(hs: map<string, TfHistory>, tfs: seq<string>) {
    forall tf :: tf in tfs ==> tf in hs
  }

  /** Started iff configured, a configuration of fixed-width time frames, and every tracked
      symbol holds a history for every configured time frame. */
  predicate StateValid(s: SsmState) {
    (s.started <==> s.config.Some?) &&
    (s.config.Some? ==> ConfigValid(s.config.value)) &&
    forall sym :: sym in s.state ==> s.config.Some? && HasHistories(s.state[sym], s.config.value.timeFrames)
  }

  /** The processing of a filtered update once the symbol's histories hs exist: missing
      histories requested under the scanner's market, then the histories updated. */
  function Ingest(s: SsmState, f: KlinesBuilder.BuildResult, hs: map<string, TfHistory>, scannerMarket: string,
                  now: int, ids: string -> string): (r: SsmState)
    requires s.config.Some? && Updatable(hs, f.timeFrames, f.klines)
    ensures f.symbol in r.state && r.state == s.state[f.symbol := r.state[f.symbol]]
    ensures r.state[f.symbol].Keys == hs.Keys
    ensures r.started == s.started && r.subscribed == s.subscribed && r.config == s.config
  {
    var c := s.config.value;
    var l := RequestAll(Loading(hs, s.pending, s.requests), scannerMarket, f.symbol, f.timeFrames, f.klines,
                        c.historyLen, ids);
    var b := UpdateAll(Books(l.histories, s.ikTimes, s.emitted), f.symbol, f.exchangeMarket, f.timeFrames,
                       f.klines, c.historyLen, now);
    s.(state := s.state[f.symbol := b.histories], pending := l.pending, requests := l.requests,
       ikTimes := b.ikTimes, emitted := b.emitted)
  }

  /** Ingesting overwrites the symbol's entry, so what the entry held before does not matter. */
  lemma IngestOverwrites(s: SsmState, f: KlinesBuilder.BuildResult, hs: map<string, TfHistory>,
                         old_hs: map<string, TfHistory>, scannerMarket: string, now: int, ids: string -> string)
    requires s.config.Some? && Updatable(hs, f.timeFrames, f.klines)
    ensures Ingest(s.(state := s.state[f.symbol := old_hs]), f, hs, scannerMarket, now, ids) ==
            Ingest(s, f, hs, scannerMarket, now, ids)
  {
  }

  /** Ingesting into histories that cover the configured time frames keeps the state
      valid. */
  lemma IngestKeepsValid(s: SsmState, f: KlinesBuilder.BuildResult, hs: map<string, TfHistory>,
                         scannerMarket: string, now: int, ids: string -> string)
    requires StateValid(s) && s.config.Some? && Updatable(hs, f.timeFrames, f.klines)
    requires HasHistories(hs, s.config.value.timeFrames)
    ensures StateValid(Ingest(s, f, hs, scannerMarket, now, ids))
  {
    var r := Ingest(s, f, hs, scannerMarket, now, ids);
    forall sym | sym in r.state ensures HasHistories(r.state[sym], s.config.value.timeFrames) {
      if sym != f.symbol {
        assert r.state[sym] == s.state[sym];
      }
    }
  }

  /** The histories a filtered update works on: the symbol's, or fresh ones. */
  function SymbolHistories(s: SsmState, sym: string): map<string, TfHistory>
    requires s.config.Some?
  {
    if sym in s.state then s.state[sym] else EmptyHistories(s.config.value.timeFrames)
  }

  /** `handleNewKlinesUpdate`: ignored unless started and interested; otherwise the update
      is filtered, a first-seen symbol initialised, and the update ingested. */
  function HandleSpec(s: SsmState, u: KlinesBuilder.BuildResult, scannerMarket: string, now: int,
                      ids: string -> string): (r: SsmState)
    requires StateValid(s)
    ensures StateValid(r)
    ensures !(s.started && IsInterested(s.config.value, scannerMarket, u)) ==> r == s
    ensures r.started == s.started && r.subscribed == s.subscribed && r.config == s.config
    ensures s.started && IsInterested(s.config.value, scannerMarket, u) ==> r.state.Keys == s.state.Keys + {u.symbol}
  {
    if !s.started || !IsInterested(s.config.value, scannerMarket, u) then s
    else
      var f := Filtered(u, s.config.value.timeFrames);
      InterestedFilteredCoversConfig(s.config.value, scannerMarket, u);
      var hs := SymbolHistories(s, f.symbol);
      IngestKeepsValid(s, f, hs, scannerMarket, now, ids);
      Ingest(s, f, hs, scannerMarket, now, ids)
  }

  /** Ingesting into fresh histories leaves every listed time frame holding just the
      update's candle, not loaded and loading. */
  lemma IngestSeedsFresh(s: SsmState, f: KlinesBuilder.BuildResult, tfs: seq<string>, scannerMarket: string,
                         now: int, ids: string -> string)
    requires s.config.Some? && Updatable(EmptyHistories(tfs), f.timeFrames, f.klines)
    ensures var r := Ingest(s, f, EmptyHistories(tfs), scannerMarket, now, ids);
      forall tf :: tf in f.timeFrames ==> r.state[f.symbol][tf] == TfHistory(tf, [f.klines[tf]], false, true)
  {
    var c := s.config.value;
    var hs := EmptyHistories(tfs);
    var l0 := Loading(hs, s.pending, s.requests);
    var l := RequestAll(l0, scannerMarket, f.symbol, f.timeFrames, f.klines, c.historyLen, ids);
    RequestAllFlags(l0, scannerMarket, f.symbol, f.timeFrames, f.klines, c.historyLen, ids);
    var b0 := Books(l.histories, s.ikTimes, s.emitted);
    FirstCandleSeeds(b0, f.symbol, f.exchangeMarket, f.timeFrames, f.klines, c.historyLen, now);
  }

  /** A first-seen symbol starts from one empty, unloaded history per configured time
      frame; the update's candle then seeds each of them, and a load is requested for each. */
  lemma FirstUpdateSeedsHistories(s: SsmState, u: KlinesBuilder.BuildResult, scannerMarket: string, now: int,
                                  ids: string -> string)
    requires StateValid(s) && s.started && IsInterested(s.config.value, scannerMarket, u)
    requires u.symbol !in s.state
    ensures var r := HandleSpec(s, u, scannerMarket, now, ids);
      var c := s.config.value;
      u.symbol in r.state &&
      (forall tf :: tf in r.state[u.symbol] <==> tf in c.timeFrames) &&
      forall tf :: tf in c.timeFrames ==>
        r.state[u.symbol][tf] == TfHistory(tf, [u.klines[tf]], false, true)
  {
    var c := s.config.value;
    var f := Filtered(u, c.timeFrames);
    InterestedFilteredCoversConfig(c, scannerMarket, u);
    assert HandleSpec(s, u, scannerMarket, now, ids) == Ingest(s, f, EmptyHistories(c.timeFrames), scannerMarket, now, ids);
    IngestSeedsFresh(s, f, c.timeFrames, scannerMarket, now, ids);
  }

  /** A history that is empty or holds just k holds just k after k arrives. */
  lemma SeedStep(b: Books, sym: string, xm: string, tf: string, k: Kline, historyLen: nat, now: int)
    requires tf in b.histories && FixedWidthTf(tf)
    requires b.histories[tf].history == [] || b.histories[tf].history == [k]
    ensures UpdateTf(b, sym, xm, tf, k, historyLen, now).histories[tf] == b.histories[tf].(history := [k])
  {
    if b.histories[tf].history != [] {
      assert FindIndexByTime([k], k.time) == 0;
    }
  }

  lemma UpdateAllUntouched(b: Books, sym: string, xm: string, tfs: seq<string>, klines: map<string, Kline>,
                           historyLen: nat, now: int, tf: string)
    requires Updatable(b.histories, tfs, klines) && tf in b.histories && tf !in tfs
    ensures UpdateAll(b, sym, xm, tfs, klines, historyLen, now).histories[tf] == b.histories[tf]
  {
    UpdateAllFrame(b, sym, xm, tfs, klines, historyLen, now);
  }

  /** Over time frames whose histories are empty or hold just their candle, each history
      ends up holding exactly its candle, whatever else it carries. */
  lemma {:induction false} FirstCandleSeeds(b: Books, sym: string, xm: string, tfs: seq<string>,
                                            klines: map<string, Kline>, historyLen: nat, now: int)
    requires Updatable(b.histories, tfs, klines)
    requires forall tf :: tf in tfs ==> b.histories[tf].history == [] || b.histories[tf].history == [klines[tf]]
    ensures var r := UpdateAll(b, sym, xm, tfs, klines, historyLen, now);
      forall tf :: tf in tfs ==> r.histories[tf] == b.histories[tf].(history := [klines[tf]])
    decreases |tfs|
  {
    if tfs != [] {
      var init := tfs[..|tfs| - 1];
      var tf := Last(tfs);
      UpdatablePrefix(b.histories, tfs, klines);
      assert forall t :: t in init ==> t in tfs;
      FirstCandleSeeds(b, sym, xm, init, klines, historyLen, now);
      var mid := UpdateAll(b, sym, xm, init, klines, historyLen, now);
      if tf !in init {
        UpdateAllUntouched(b, sym, xm, init, klines, historyLen, now, tf);
      }
      SeedStep(mid, sym, xm, tf, klines[tf], historyLen, now);
      var r := UpdateAll(b, sym, xm, tfs, klines, historyLen, now);
      assert r == UpdateTf(mid, sym, xm, tf, klines[tf], historyLen, now);
      forall t | t in tfs
        ensures r.histories[t] == b.histories[t].(history := [klines[t]])
      {
        InInitOrLast(tfs, t);
      }
    }
  }

  /** The history-loaded handler. A completion is applied only while subscribed and only
      for a non-empty pending id, which it removes. The ticker's second and third `~` parts
      name the symbol and time frame; a missing state, or an empty loaded or live history,
      throws a TypeError, which ends the subscription. Otherwise the loaded history is
      merged in front of the live one, and the time frame becomes loaded and not loading. */
  function HistoryLoadedSpec(s: SsmState, ev: HistoryLoader.HistoryLoaded): (r: (SsmState, Result<()>))
    ensures !s.subscribed || ev.reqId == [] || ev.reqId !in s.pending ==> r == (s, Ok(()))
    ensures r.0.started == s.started && r.0.config == s.config && r.0.state.Keys == s.state.Keys
    ensures r.1.Err? <==> r.0.subscribed != s.subscribed
    ensures StateValid(s) ==> StateValid(r.0)
  {
    if !s.subscribed || ev.reqId == [] || ev.reqId !in s.pending then (s, Ok(()))
    else
      var s1 := s.(pending := RemoveAll(s.pending, ev.reqId));
      var parts := Split(ev.ticker, '~');
      if |parts| < 3 then (s1.(subscribed := false), Err(TypeError))
      else
        var sym, tf := parts[1], parts[2];
        if sym !in s.state || tf !in s.state[sym] || ev.history == [] || s.state[sym][tf].history == [] then
          (s1.(subscribed := false), Err(TypeError))
        else
          var h := s.state[sym][tf];
          var merged := h.(history := MergeHistory(ev.history, h.history), loaded := true, loading := false);
          (s1.(state := s.state[sym := s.state[sym][tf := merged]]), Ok(()))
  }

  /** A completion for the request of (sym, tf) removes its id from the pending ones and
      makes that history loaded, not loading, and the merge of the loaded and live candles;
      nothing else changes. */
  lemma CompletionMerges(s: SsmState, ev: HistoryLoader.HistoryLoaded, xm: string, sym: string, tf: string)
    requires s.subscribed && ev.reqId != [] && ev.reqId in s.pending
    requires ev.ticker == Ticker(xm, sym, tf) && '~' !in xm && '~' !in sym && '~' !in tf
    requires sym in s.state && tf in s.state[sym] && ev.history != [] && s.state[sym][tf].history != []
    ensures var r := HistoryLoadedSpec(s, ev);
      var h := s.state[sym][tf];
      r.1 == Ok(()) && ev.reqId !in r.0.pending && r.0.pending == RemoveAll(s.pending, ev.reqId) &&
      r.0 == s.(pending := r.0.pending,
                state := s.state[sym := s.state[sym][tf := TfHistory(h.tf, MergeHistory(ev.history, h.history), true, false)]])
  {
    SplitThree(xm, sym, tf);
  }

  /** The same completion delivered twice is applied once. */
  lemma CompletionAppliedOnce(s: SsmState, ev: HistoryLoader.HistoryLoaded)
    ensures var r := HistoryLoadedSpec(s, ev);
      HistoryLoadedSpec(r.0, ev) == (r.0, Ok(()))
  {
    var r := HistoryLoadedSpec(s, ev);
    if s.subscribed && ev.reqId != [] && ev.reqId in s.pending {
      assert ev.reqId !in RemoveAll(s.pending, ev.reqId);
      assert ev.reqId !in r.0.pending;
    }
  }

  // ---------------------------------------------------------------------------
  // The service
  // ---------------------------------------------------------------------------

  /** `SymbolsStateManagerService`. The scanner is reduced to the two facts read from it
      (started, market), the gateway and the history loader to the logs of what they were
      handed, `Date.now()` to a parameter and `randomUUID()` to an id per time frame. */
  class SymbolsStateManagerService {
    var pendingHistoriesLoadUIDs: seq<string>
    var started: bool
    var subscribed: bool
    var config: Option<SsmConfig>
    var state: map<string, map<string, TfHistory>>
    var ikLastEmissionTimes: map<string, int>
    var emitted: seq<Emission>
    var loadRequests: seq<HistoryLoader.HistoryLoadRequest>

    function State(): SsmState
      reads this
    {
      SsmState(started, subscribed, config, state, pendingHistoriesLoadUIDs, ikLastEmissionTimes, emitted, loadRequests)
    }

    ghost predicate Valid()
      reads this
    {
      StateValid(State())
    }

    constructor()
      ensures Valid()
      ensures State() == SsmState(false, false, None, map[], [], map[], [], [])
    {
      pendingHistoriesLoadUIDs := [];
      started := false;
      subscribed := false;
      config := None;
      state := map[];
      ikLastEmissionTimes := map[];
      emitted := [];
      loadRequests := [];
    }

    /** `start`: once started it answers true and changes nothing; before the scanner has
        started it fails; otherwise it stores the configuration, subscribes and starts. */
    method Start(c: SsmConfig, scannerStarted: bool) returns (r: Result<bool>)
      requires Valid() && ConfigValid(c)
      modifies this
      ensures Valid()
      ensures old(started) ==> r == Ok(true) && State() == old(State())
      ensures !old(started) && !scannerStarted ==> r == Err(ScannerNotStarted) && State() == old(State())
      ensures !old(started) && scannerStarted ==>
        r == Ok(true) && State() == old(State()).(started := true, subscribed := true, config := Some(c))
    {
      if started {
        return Ok(true);
      }
      if !scannerStarted {
        return Err(ScannerNotStarted);
      }
      config := Some(c);
      subscribed := true;
      started := true;
      r := Ok(true);
    }

    /** `getSymbolState`: the symbol's state, or null when it is not tracked. */
    function GetSymbolState(symbol: string): (r: Option<SymbolState>)
      reads this
      ensures r.Some? <==> symbol in state
      ensures r.Some? ==> r.value.symbol == symbol && r.value.histories == state[symbol]
    {
      if symbol in state then Some(SymbolState(symbol, state[symbol])) else None
    }

    method HandleNewKlinesUpdate(u: KlinesBuilder.BuildResult, scannerMarket: string, now: int,
                                 ids: string -> string)
      requires Valid()
      modifies this
      ensures Valid()
      ensures State() == HandleSpec(old(State()), u, scannerMarket, now, ids)
    {
      if !started {
        return;
      }
      if !IsInterested(config.value, scannerMarket, u) {
        return;
      }
      var c := config.value;
      var filtered := RemoveUnwantedTimeFrames(u, c.timeFrames);
      InterestedFilteredCoversConfig(c, scannerMarket, u);
      ghost var s0 := State();
      ghost var hs := SymbolHistories(s0, filtered.symbol);
      assert HandleSpec(s0, u, scannerMarket, now, ids) == Ingest(s0, filtered, hs, scannerMarket, now, ids);
      if filtered.symbol !in state {
        InitStateInternal(filtered.symbol);
        IngestOverwrites(s0, filtered, hs, hs, scannerMarket, now, ids);
      } else {
        MapSelfUpdate(s0.state, filtered.symbol);
      }
      assert State() == s0.(state := s0.state[filtered.symbol := hs]);
      IngestUpdate(filtered, scannerMarket, now, ids);
    }

    /** The rest of `handleNewKlinesUpdate` once the symbol is initialised. */
    method IngestUpdate(f: KlinesBuilder.BuildResult, scannerMarket: string, now: int, ids: string -> string)
      requires config.Some? && f.symbol in state && Updatable(state[f.symbol], f.timeFrames, f.klines)
      modifies this
      ensures State() == Ingest(old(State()), f, old(state[f.symbol]), scannerMarket, now, ids)
    {
      RequestHistoryLoadIfMissing(f, scannerMarket, ids);
      UpdateHistories(f, now);
    }

    /** `initStateInternal`: a fresh entry with an empty history per configured time frame. */
    method InitStateInternal(symbol: string)
      requires config.Some?
      modifies this
      ensures state == old(state)[symbol := EmptyHistories(old(config.value).timeFrames)]
      ensures State() == old(State()).(state := state)
    {
      ghost var s0 := State();
      state := state[symbol := map[]];
      var tfs := config.value.timeFrames;
      assert tfs[..0] == [];
      var i := 0;
      while i < |tfs|
        invariant 0 <= i <= |tfs|
        invariant state == old(state)[symbol := EmptyHistories(tfs[..i])]
        invariant State() == s0.(state := state)
      {
        var tf := tfs[i];
        EmptyHistoriesSnoc(tfs, i);
        var histories := state[symbol][tf := TfHistory(tf, [], false, false)];
        KlinesBuilder.UpdateTwice(old(state), symbol, state[symbol], histories);
        state := state[symbol := histories];
        i := i + 1;
      }
      assert tfs[..i] == tfs;
    }

    /** `requestHistoryLoadIfMissing` over the filtered update. */
    method RequestHistoryLoadIfMissing(u: KlinesBuilder.BuildResult, xm: string, ids: string -> string)
      requires config.Some? && u.symbol in state && Requestable(state[u.symbol], u.timeFrames, u.klines)
      modifies this
      ensures var l := RequestAll(Loading(old(state[u.symbol]), old(pendingHistoriesLoadUIDs), old(loadRequests)),
                                  xm, u.symbol, u.timeFrames, u.klines, old(config.value.historyLen), ids);
        State() == old(State()).(state := old(state)[u.symbol := l.histories], pending := l.pending,
                                 requests := l.requests)
    {
      var symbol := u.symbol;
      var tfs := u.timeFrames;
      ghost var l0 := Loading(state[symbol], pendingHistoriesLoadUIDs, loadRequests);
      var i := 0;
      RequestablePrefixAt(l0.histories, tfs, u.klines, 0);
      while i < |tfs|
        invariant 0 <= i <= |tfs|
        invariant Requestable(l0.histories, tfs[..i], u.klines)
        invariant symbol in state && config == old(config)
        invariant var l := RequestAll(l0, xm, symbol, tfs[..i], u.klines, config.value.historyLen, ids);
          State() == old(State()).(state := old(state)[symbol := l.histories], pending := l.pending,
                                   requests := l.requests)
      {
        var tf := tfs[i];
        RequestAllStep(l0, xm, symbol, tfs, u.klines, config.value.historyLen, ids, i);
        ghost var l := RequestAll(l0, xm, symbol, tfs[..i], u.klines, config.value.historyLen, ids);
        ghost var l' := RequestTf(l, xm, symbol, tf, u.klines[tf], config.value.historyLen, ids(tf));
        KlinesBuilder.UpdateTwice(old(state), symbol, l.histories, l'.histories);
        RequestTimeFrame(symbol, xm, tf, u.klines[tf], ids);
        i := i + 1;
      }
      assert tfs[..i] == tfs;
    }

    /** The body of the `requestHistoryLoadIfMissing` loop for one time frame. */
    method RequestTimeFrame(symbol: string, xm: string, tf: string, k: Kline, ids: string -> string)
      requires config.Some? && symbol in state && tf in state[symbol]
      modifies this
      ensures var l := RequestTf(Loading(old(state[symbol]), old(pendingHistoriesLoadUIDs), old(loadRequests)),
                                 xm, symbol, tf, k, old(config.value.historyLen), ids(tf));
        State() == old(State()).(state := old(state)[symbol := l.histories], pending := l.pending,
                                 requests := l.requests)
    {
      var h := state[symbol][tf];
      if !h.loaded && !h.loading {
        state := state[symbol := state[symbol][tf := h.(loading := true)]];
        var historyLoadReqId := ids(tf);
        pendingHistoriesLoadUIDs := pendingHistoriesLoadUIDs + [historyLoadReqId];
        loadRequests := loadRequests + [HistoryLoader.HistoryLoadRequest(historyLoadReqId,
          xm + "~" + symbol + "~" + tf, config.value.historyLen, k.time)];
      }
    }

    /** `updateHistories` over the filtered update. */
    method UpdateHistories(u: KlinesBuilder.BuildResult, now: int)
      requires config.Some? && u.symbol in state && Updatable(state[u.symbol], u.timeFrames, u.klines)
      modifies this
      ensures var b := UpdateAll(Books(old(state[u.symbol]), old(ikLastEmissionTimes), old(emitted)),
                                 u.symbol, u.exchangeMarket, u.timeFrames, u.klines, old(config.value.historyLen), now);
        State() == old(State()).(state := old(state)[u.symbol := b.histories], ikTimes := b.ikTimes,
                                 emitted := b.emitted)
    {
      var symbol := u.symbol;
      var tfs := u.timeFrames;
      ghost var b0 := Books(state[symbol], ikLastEmissionTimes, emitted);
      var i := 0;
      while i < |tfs|
        invariant 0 <= i <= |tfs|
        invariant Updatable(b0.histories, tfs[..i], u.klines)
        invariant symbol in state && config == old(config)
        invariant var b := UpdateAll(b0, symbol, u.exchangeMarket, tfs[..i], u.klines, config.value.historyLen, now);
          State() == old(State()).(state := old(state)[symbol := b.histories], ikTimes := b.ikTimes,
                                   emitted := b.emitted)
      {
        var tf := tfs[i];
        UpdateAllStep(b0, symbol, u.exchangeMarket, tfs, u.klines, config.value.historyLen, now, i);
        ghost var b := UpdateAll(b0, symbol, u.exchangeMarket, tfs[..i], u.klines, config.value.historyLen, now);
        ghost var b' := UpdateTf(b, symbol, u.exchangeMarket, tf, u.klines[tf], config.value.historyLen, now);
        KlinesBuilder.UpdateTwice(old(state), symbol, b.histories, b'.histories);
        UpdateTimeFrame(symbol, u.exchangeMarket, tf, u.klines[tf], now);
        i := i + 1;
      }
      assert tfs[..i] == tfs;
    }

    /** The body of the `updateHistories` loop for one time frame. */
    method UpdateTimeFrame(symbol: string, xm: string, tf: string, newKline: Kline, now: int)
      requires config.Some? && symbol in state && tf in state[symbol] && FixedWidthTf(tf)
      modifies this
      ensures var b := UpdateTf(Books(old(state[symbol]), old(ikLastEmissionTimes), old(emitted)),
                                symbol, xm, tf, newKline, old(config.value.historyLen), now);
        State() == old(State()).(state := old(state)[symbol := b.histories], ikTimes := b.ikTimes,
                                 emitted := b.emitted)
    {
      var h := state[symbol][tf];
      if |h.history| == 0 {
        state := state[symbol := state[symbol][tf := h.(history := [newKline])]];
        return;
      }
      var lastKline := h.history[|h.history| - 1];
      if lastKline.time != newKline.time {
        var filled := GetFilledKlines(lastKline, newKline, tf);
        var history := SliceLast(h.history + filled, config.value.historyLen);
        state := state[symbol := state[symbol][tf := h.(history := history)]];
        if !h.loaded {
          return;
        }
        emitted := emitted + [Emission(FK, tf, symbol, xm, history)];
      } else {
        var lastKlineIndex := FindIndexByTime(h.history, newKline.time);
        var history := if lastKlineIndex < 0 then h.history else h.history[lastKlineIndex := newKline];
        state := state[symbol := state[symbol][tf := h.(history := history)]];
        if !h.loaded {
          return;
        }
        var key := symbol + ":" + tf;
        if !CanDispatchIK(ikLastEmissionTimes, key, now) {
          return;
        }
        ikLastEmissionTimes := ikLastEmissionTimes[key := now];
        emitted := emitted + [Emission(IK, tf, symbol, xm, history)];
      }
    }

    /** `getFilledKlines`. */
    method GetFilledKlines(lastHistoryKline: Kline, newKline: Kline, tf: string) returns (filled: seq<Kline>)
      requires FixedWidthTf(tf)
      ensures filled == FilledKlines(lastHistoryKline, newKline, tf)
      ensures filled != [] && Last(filled) == newKline
    {
      FilledKlinesShape(lastHistoryKline, newKline, tf);
      var filledKlines := FillMissingKlines([lastHistoryKline, newKline], tf);
      filled := filledKlines[1..];
    }

    /** The history-loaded handler. */
    method OnHistoryLoaded(ev: HistoryLoader.HistoryLoaded) returns (r: Result<()>)
      requires Valid()
      modifies this
      ensures Valid()
      ensures (State(), r) == HistoryLoadedSpec(old(State()), ev)
    {
      if !subscribed || ev.reqId == [] || ev.reqId !in pendingHistoriesLoadUIDs {
        return Ok(());
      }
      pendingHistoriesLoadUIDs := RemoveAll(pendingHistoriesLoadUIDs, ev.reqId);
      var parts := Split(ev.ticker, '~');
      if |parts| < 3 {
        subscribed := false;
        return Err(TypeError);
      }
      var symbol, tf := parts[1], parts[2];
      if symbol !in state || tf !in state[symbol] || |ev.history| == 0 || |state[symbol][tf].history| == 0 {
        subscribed := false;
        return Err(TypeError);
      }
      var h := state[symbol][tf];
      var history := ev.history;
      if history[|history| - 1].time == h.history[0].time {
        history := history[..|history| - 1];
      }
      state := state[symbol := state[symbol][tf := h.(history := history + h.history, loaded := true, loading := false)]];
      r := Ok(());
    }
  }
}
