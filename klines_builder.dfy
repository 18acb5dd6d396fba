/** The per-symbol candle builder: for every scanned symbol and each of its time frames it
    keeps a reference candle and a deferred build start time, and folds each incoming
    trade into the reference candles of the time frames whose start time has passed. */
module KlinesBuilder {
  import opened Common
  import opened Strings
  import opened TimeFrames
  import opened Klines

  /** `IExchangeSymbol` as the scanner hands it over (time frames always set). */
  datatype ExchangeSymbol = ExchangeSymbol(baseAsset: string, quoteAsset: string, timeFrames: seq<string>,
                                           exchangeMarket: string)

  /** `IKlinesBuildResult`. */
  datatype BuildResult = BuildResult(symbol: string, timeFrames: seq<string>, exchangeMarket: string,
                                     klines: map<string, Kline>)

  /** The builder's key for a symbol: base followed by quote, e.g. `BTCUSDT`. */
  function SymbolId(s: ExchangeSymbol): string
  {
    s.baseAsset + s.quoteAsset
  }

  // ---------------------------------------------------------------------------
  // Build start times

  /** `getStartTimeMultiplier`: 10 for second time frames of at most 15 seconds, else 1
      (a NaN amount compares false). */
  function StartTimeMultiplier(tf: string): nat
  {
    var meta := GetTfMetadata(tf);
    if meta.unit == "s" && meta.amount.Some? && meta.amount.value <= 15 then 10 else 1
  }

  /** On tokens `<n><u>`, the multiplier is 10 exactly for `1s`..`15s` (and `0s`). */
  lemma MultiplierOfToken(n: nat, u: char)
    requires !IsDigit(u)
    ensures StartTimeMultiplier(NatToString(n) + [u]) == if u == 's' && n <= 15 then 10 else 1
  {
    var t := NatToString(n) + [u];
    assert t[..|t| - 1] == NatToString(n);
    NumberOfNatToString(n);
    assert GetTfMetadata(t) == TfMeta([u], Some(n));
  }

  /** The deferred build start: the open time `multiplier` candles after the current one. */
  function BuildStartTime(now: int, tf: string): int
    requires ValidTf(tf)
  {
    NthNext(now, tf, StartTimeMultiplier(tf))
  }

  /** Every build start time is a boundary of its time frame strictly after now, at most
      multiplier periods away and, for a multiplier of 10, more than 9 periods away. */
  lemma BuildStartTimeIsBoundaryAfterNow(now: int, tf: string)
    requires ValidTf(tf)
    ensures BuildStartTime(now, tf) % Period(tf) == 0
    ensures now < BuildStartTime(now, tf) <= now + StartTimeMultiplier(tf) * Period(tf)
    ensures StartTimeMultiplier(tf) == 10 ==> BuildStartTime(now, tf) > now + 9 * Period(tf)
  {
    NthStepsAreBoundaries(now, tf, StartTimeMultiplier(tf));
    StartAfter(now, OpenTime(now, tf), Period(tf), StartTimeMultiplier(tf));
  }

  lemma StartAfter(now: int, o: int, p: int, m: int)
    requires p > 0 && m >= 1 && o <= now < o + p
    ensures now < o + p * m <= now + m * p
    ensures now + (m - 1) * p < o + p * m
  {
    MulLe(1, m, p);
    assert p * m == m * p;
    assert (m - 1) * p == m * p - p;
  }

  // ---------------------------------------------------------------------------
  // Building a trade into the reference candles

  /** The tables kept for one symbol agree: the time frames in key order, without
      repetition, are exactly the keys of both maps, and all of them parse. */
  ghost predicate SymbolTablesAgree(refs: map<string, Option<Kline>>, starts: map<string, int>, order: seq<string>)
  {
    NoDuplicates(order) &&
    (forall tf :: tf in order <==> tf in refs) &&
    (forall tf :: tf in order <==> tf in starts) &&
    (forall tf :: tf in order ==> ValidTf(tf))
  }

  /** Every time frame listed has a reference and a start time, and parses. */
  ghost predicate Covers(refs: map<string, Option<Kline>>, starts: map<string, int>, tfs: seq<string>)
  {
    forall tf :: tf in tfs ==> tf in refs && tf in starts && ValidTf(tf)
  }

  /** The candles built for a trade over the time frames tfs, one time frame after the
      other (BuiltKlinesMembers states what they are). */
  function BuiltKlines(refs: map<string, Option<Kline>>, starts: map<string, int>, tfs: seq<string>,
                       trade: Trade): map<string, Kline>
    requires Covers(refs, starts, tfs)
  {
    if tfs == [] then map[]
    else
      var init := tfs[..|tfs| - 1];
      var tf := tfs[|tfs| - 1];
      assert forall x :: x in tfs <==> x in init || x == tf;
      var r0 := BuiltKlines(refs, starts, init, trade);
      if starts[tf] > trade.ts then r0 else r0[tf := BuildKline(trade, tf, refs[tf])]
  }

  /** The candles built for a trade are exactly those of the time frames whose start time
      is not after the trade, each the trade folded into its reference. */
  lemma {:induction false} BuiltKlinesMembers(refs: map<string, Option<Kline>>, starts: map<string, int>,
                                              tfs: seq<string>, trade: Trade)
    requires Covers(refs, starts, tfs)
    ensures var r := BuiltKlines(refs, starts, tfs, trade);
      (forall tf :: tf in r <==> tf in tfs && starts[tf] <= trade.ts) &&
      (forall tf :: tf in r ==> r[tf] == BuildKline(trade, tf, refs[tf]))
    decreases |tfs|
  {
    if tfs != [] {
      var init := tfs[..|tfs| - 1];
      assert forall x :: x in tfs <==> x in init || x == tfs[|tfs| - 1];
      BuiltKlinesMembers(refs, starts, init, trade);
    }
  }

  /** The reference candles after a build: each built time frame's reference is its new
      candle, the others keep theirs. */
  function AdvancedRefs(refs: map<string, Option<Kline>>, built: map<string, Kline>): (r: map<string, Option<Kline>>)
    ensures r.Keys == refs.Keys
  {
    map tf | tf in refs :: if tf in built then Some(built[tf]) else refs[tf]
  }

  /** Each reference candle built from a trade is the trade's candle: open time of the
      trade's bucket, closing at the trade's price, continuing the old reference when it
      was of the same bucket and fresh otherwise. Unbuilt time frames keep their reference. */
  lemma AdvancedRefsProps(refs: map<string, Option<Kline>>, starts: map<string, int>, tfs: seq<string>,
                          trade: Trade, tf: string)
    requires Covers(refs, starts, tfs) && tf in refs
    ensures var r := AdvancedRefs(refs, BuiltKlines(refs, starts, tfs, trade));
      if tf in tfs && starts[tf] <= trade.ts then
        r[tf].Some? && r[tf].value.time == OpenTime(trade.ts, tf) && r[tf].value.close == trade.price &&
        (refs[tf].Some? && refs[tf].value.time == OpenTime(trade.ts, tf) ==>
          r[tf].value.open == refs[tf].value.open &&
          r[tf].value.volume == refs[tf].value.volume + trade.amt)
      else r[tf] == refs[tf]
  {
    BuiltKlinesMembers(refs, starts, tfs, trade);
  }

  lemma CoversPrefix(refs: map<string, Option<Kline>>, starts: map<string, int>, tfs: seq<string>, i: nat)
    requires Covers(refs, starts, tfs) && i <= |tfs|
    ensures Covers(refs, starts, tfs[..i])
  {
    forall tf | tf in tfs[..i] ensures tf in tfs {
      var j :| 0 <= j < i && tfs[..i][j] == tf;
      assert tfs[j] == tf;
    }
  }

  /** Building over one more time frame adds at most that time frame. */
  lemma BuiltSnoc(refs: map<string, Option<Kline>>, starts: map<string, int>, tfs: seq<string>, i: nat, trade: Trade)
    requires Covers(refs, starts, tfs) && i < |tfs|
    ensures Covers(refs, starts, tfs[..i]) && Covers(refs, starts, tfs[..i + 1])
    ensures BuiltKlines(refs, starts, tfs[..i + 1], trade) ==
      var r0 := BuiltKlines(refs, starts, tfs[..i], trade);
      if starts[tfs[i]] > trade.ts then r0 else r0[tfs[i] := BuildKline(trade, tfs[i], refs[tfs[i]])]
  {
    CoversPrefix(refs, starts, tfs, i);
    CoversPrefix(refs, starts, tfs, i + 1);
    assert tfs[..i + 1][..i] == tfs[..i];
  }

  /** Without repetitions, the time frame at position i is not among those built before it. */
  lemma NotYetBuilt(refs: map<string, Option<Kline>>, starts: map<string, int>, tfs: seq<string>, i: nat, trade: Trade)
    requires NoDuplicates(tfs) && Covers(refs, starts, tfs) && i < |tfs|
    ensures Covers(refs, starts, tfs[..i]) && tfs[i] !in BuiltKlines(refs, starts, tfs[..i], trade)
  {
    CoversPrefix(refs, starts, tfs, i);
    BuiltKlinesMembers(refs, starts, tfs[..i], trade);
  }

  /** Advancing one more time frame's reference is a single map update. */
  lemma AdvancedInsert(refs: map<string, Option<Kline>>, built: map<string, Kline>, tf: string, k: Kline)
    requires tf in refs && tf !in built
    ensures AdvancedRefs(refs, built)[tf] == refs[tf]
    ensures AdvancedRefs(refs, built)[tf := Some(k)] == AdvancedRefs(refs, built[tf := k])
  {
  }

  // ---------------------------------------------------------------------------
  // Initialising symbols

  /** Every listed time frame with a null reference. */
  function NullRefs(tfs: seq<string>): (r: map<string, Option<Kline>>)
    ensures forall tf :: tf in r <==> tf in tfs
    ensures forall tf :: tf in r ==> r[tf] == None
  {
    map tf | tf in tfs :: None
  }

  /** Every listed time frame with its deferred build start time. */
  function StartTimes(tfs: seq<string>, now: int): (r: map<string, int>)
    requires forall tf :: tf in tfs ==> ValidTf(tf)
    ensures forall tf :: tf in r <==> tf in tfs
    ensures forall tf :: tf in r ==> r[tf] == BuildStartTime(now, tf)
  {
    map tf | tf in tfs :: BuildStartTime(now, tf)
  }

  /** The builder's three tables: reference candles, build start times and the key order
      of each symbol's time frames. */
  datatype Tables = Tables(refs: map<string, map<string, Option<Kline>>>, starts: map<string, map<string, int>>,
                           order: map<string, seq<string>>)

  ghost predicate TablesValid(t: Tables)
  {
    t.refs.Keys == t.starts.Keys == t.order.Keys &&
    forall sym {:trigger t.order[sym]} :: sym in t.order ==> SymbolTablesAgree(t.refs[sym], t.starts[sym], t.order[sym])
  }

  /** Replacing one symbol's references by a map over the same time frames keeps the
      tables valid. */
  lemma ValidAfterAdvance(t: Tables, sym: string, refs: map<string, Option<Kline>>)
    requires TablesValid(t) && sym in t.refs && refs.Keys == t.refs[sym].Keys
    ensures TablesValid(t.(refs := t.refs[sym := refs]))
  {
    var t' := t.(refs := t.refs[sym := refs]);
    forall s | s in t'.order ensures SymbolTablesAgree(t'.refs[s], t'.starts[s], t'.order[s]) {
      assert SymbolTablesAgree(t.refs[s], t.starts[s], t.order[s]);
    }
  }

  predicate SymbolsParse(symbols: seq<ExchangeSymbol>)
  {
    forall i, tf :: 0 <= i < |symbols| && tf in symbols[i].timeFrames ==> ValidTf(tf)
  }

  /** The tables with the symbol's key set to fresh tables for tfs. */
  function FreshKey(t: Tables, id: string, tfs: seq<string>, now: int): Tables
    requires forall tf :: tf in tfs ==> ValidTf(tf)
  {
    Tables(t.refs[id := NullRefs(tfs)], t.starts[id := StartTimes(tfs, now)], t.order[id := Distinct(tfs)])
  }

  /** The tables after initialising the symbols one after the other: each symbol's key is
      (re)set to fresh tables for its time frames. */
  function Init(t: Tables, symbols: seq<ExchangeSymbol>, now: int): Tables
    requires SymbolsParse(symbols)
  {
    if symbols == [] then t
    else
      var s := symbols[|symbols| - 1];
      var t0 := Init(t, symbols[..|symbols| - 1], now);
      FreshKey(t0, SymbolId(s), s.timeFrames, now)
  }

  /** The fresh tables of one symbol agree with each other. */
  lemma FreshTablesAgree(tfs: seq<string>, now: int)
    requires forall tf :: tf in tfs ==> ValidTf(tf)
    ensures SymbolTablesAgree(NullRefs(tfs), StartTimes(tfs, now), Distinct(tfs))
  {
    DistinctProps(tfs);
  }

  /** Initialising keeps the tables consistent. */
  lemma {:induction false} InitValid(t: Tables, symbols: seq<ExchangeSymbol>, now: int)
    requires TablesValid(t) && SymbolsParse(symbols)
    ensures TablesValid(Init(t, symbols, now))
  {
    if symbols != [] {
      var s := symbols[|symbols| - 1];
      InitValid(t, symbols[..|symbols| - 1], now);
      FreshTablesAgree(s.timeFrames, now);
    }
  }

  lemma SymbolsParsePrefix(symbols: seq<ExchangeSymbol>, n: nat)
    requires SymbolsParse(symbols) && n <= |symbols|
    ensures SymbolsParse(symbols[..n])
    ensures n < |symbols| ==> forall tf :: tf in symbols[n].timeFrames ==> ValidTf(tf)
  {
    assert forall i :: 0 <= i < n ==> symbols[..n][i] == symbols[i];
  }

  /** Initialising one more symbol updates its key only. */
  lemma InitSnoc(t: Tables, symbols: seq<ExchangeSymbol>, n: nat, now: int)
    requires SymbolsParse(symbols) && n < |symbols|
    ensures SymbolsParse(symbols[..n]) && SymbolsParse(symbols[..n + 1])
    ensures forall tf :: tf in symbols[n].timeFrames ==> ValidTf(tf)
    ensures var tn := Init(t, symbols[..n], now);
      var s := symbols[n];
      Init(t, symbols[..n + 1], now) == FreshKey(tn, SymbolId(s), s.timeFrames, now)
  {
    SymbolsParsePrefix(symbols, n);
    SymbolsParsePrefix(symbols, n + 1);
    assert symbols[..n + 1][..n] == symbols[..n];
  }

  /** After initialising, the symbol listed at index i and not listed again later has
      null references and the deferred start times for exactly its time frames, in
      first-occurrence order. Re-initialising a symbol thus wipes its references. */
  lemma {:induction false} InitListed(t: Tables, symbols: seq<ExchangeSymbol>, now: int, i: nat)
    requires SymbolsParse(symbols) && i < |symbols|
    requires forall j :: i < j < |symbols| ==> SymbolId(symbols[j]) != SymbolId(symbols[i])
    ensures var r := Init(t, symbols, now);
      var id := SymbolId(symbols[i]);
      id in r.refs && id in r.starts && id in r.order &&
      r.refs[id] == NullRefs(symbols[i].timeFrames) &&
      r.starts[id] == StartTimes(symbols[i].timeFrames, now) &&
      r.order[id] == Distinct(symbols[i].timeFrames)
  {
    var n := |symbols|;
    if i < n - 1 {
      var init := symbols[..n - 1];
      SymbolsParsePrefix(symbols, n - 1);
      assert init[i] == symbols[i];
      assert forall j :: i < j < |init| ==> init[j] == symbols[j];
      InitListed(t, init, now, i);
    }
  }

  /** Keys of symbols not listed are left as they were. */
  lemma {:induction false} InitUnlisted(t: Tables, symbols: seq<ExchangeSymbol>, now: int, id: string)
    requires SymbolsParse(symbols)
    requires forall i :: 0 <= i < |symbols| ==> SymbolId(symbols[i]) != id
    ensures var r := Init(t, symbols, now);
      (id in r.refs <==> id in t.refs) && (id in t.refs ==> r.refs[id] == t.refs[id]) &&
      (id in r.starts <==> id in t.starts) && (id in t.starts ==> r.starts[id] == t.starts[id]) &&
      (id in r.order <==> id in t.order) && (id in t.order ==> r.order[id] == t.order[id])
  {
    var n := |symbols|;
    if n > 0 {
      var init := symbols[..n - 1];
      SymbolsParsePrefix(symbols, n - 1);
      assert forall j :: 0 <= j < |init| ==> init[j] == symbols[j];
      InitUnlisted(t, init, now, id);
      assert SymbolId(symbols[n - 1]) != id;
    }
  }

  /** One time frame of a symbol's initialisation: a null reference, its deferred start
      time, and the time frame appended to the key order unless already there. */
  function AddTimeFrame(t: Tables, id: string, tf: string, now: int): Tables
    requires ValidTf(tf) && id in t.refs && id in t.starts && id in t.order
  {
    Tables(t.refs[id := t.refs[id][tf := None]], t.starts[id := t.starts[id][tf := BuildStartTime(now, tf)]],
           t.order[id := if tf in t.order[id] then t.order[id] else t.order[id] + [tf]])
  }

  lemma FreshKeyEmpty(t: Tables, id: string, now: int)
    ensures FreshKey(t, id, [], now) == Tables(t.refs[id := map[]], t.starts[id := map[]], t.order[id := []])
  {
  }

  /** Fresh tables for one more time frame are one AddTimeFrame away. */
  lemma FreshKeySnoc(t: Tables, id: string, tfs: seq<string>, k: nat, now: int)
    requires forall tf :: tf in tfs ==> ValidTf(tf)
    requires k < |tfs|
    ensures forall tf :: tf in tfs[..k] ==> ValidTf(tf)
    ensures forall tf :: tf in tfs[..k + 1] ==> ValidTf(tf)
    ensures ValidTf(tfs[k])
    ensures FreshKey(t, id, tfs[..k + 1], now) == AddTimeFrame(FreshKey(t, id, tfs[..k], now), id, tfs[k], now)
  {
    ValidPrefix(tfs, k);
    ValidPrefix(tfs, k + 1);
    var a, tf := tfs[..k], tfs[k];
    assert tfs[..k + 1] == a + [tf];
    NullRefsSnoc(a, tf);
    StartTimesSnoc(a, tf, now);
    DistinctSnoc(a, tf);
    UpdateTwice(t.refs, id, NullRefs(a), NullRefs(a)[tf := None]);
    UpdateTwice(t.starts, id, StartTimes(a, now), StartTimes(a, now)[tf := BuildStartTime(now, tf)]);
    UpdateTwice(t.order, id, Distinct(a), Distinct(a + [tf]));
  }

  lemma NullRefsSnoc(tfs: seq<string>, tf: string)
    ensures NullRefs(tfs + [tf]) == NullRefs(tfs)[tf := None]
  {
  }

  lemma ValidPrefix(tfs: seq<string>, k: nat)
    requires forall tf :: tf in tfs ==> ValidTf(tf)
    requires k <= |tfs|
    ensures forall tf :: tf in tfs[..k] ==> ValidTf(tf)
  {
    assert forall tf :: tf in tfs[..k] ==> tf in tfs;
  }

  lemma StartTimesSnoc(tfs: seq<string>, tf: string, now: int)
    requires forall x :: x in tfs ==> ValidTf(x)
    requires ValidTf(tf)
    ensures StartTimes(tfs + [tf], now) == StartTimes(tfs, now)[tf := BuildStartTime(now, tf)]
  {
  }

  lemma DistinctSnoc(tfs: seq<string>, tf: string)
    ensures Distinct(tfs + [tf]) == if tf in Distinct(tfs) then Distinct(tfs) else Distinct(tfs) + [tf]
  {
    assert (tfs + [tf])[..|tfs|] == tfs;
  }

  lemma UpdateTwice<K, V>(m: map<K, V>, k: K, v: V, w: V)
    ensures m[k := v][k := w] == m[k := w]
  {
  }

  lemma AdvancedRefsNone(refs: map<string, Option<Kline>>)
    ensures AdvancedRefs(refs, map[]) == refs
  {
  }

  // ---------------------------------------------------------------------------
  // The service

  class Builder {
    var referenceKlines: map<string, map<string, Option<Kline>>>
    var buildStartTimes: map<string, map<string, int>>
    /** The insertion order of each `referenceKlines[sym]` object's keys (`Object.keys`). */
    var keyOrder: map<string, seq<string>>

    function State(): Tables
      reads this
    {
      Tables(referenceKlines, buildStartTimes, keyOrder)
    }

    ghost predicate Valid()
      reads this
    {
      TablesValid(State())
    }

    constructor()
      ensures Valid()
      ensures referenceKlines == map[] && buildStartTimes == map[] && keyOrder == map[]
    {
      referenceKlines := map[];
      buildStartTimes := map[];
      keyOrder := map[];
    }

    /** `buildKlines`: folds the trade into the reference of every time frame of its
        symbol whose build start time has passed. The result lists all the symbol's time
        frames and the candles built. An uninitialised symbol fails (`Object.keys` of
        undefined) and changes nothing. */
    method BuildKlines(trade: Trade, exchangeMarket: string) returns (r: Result<BuildResult>)
      requires Valid()
      modifies this
      ensures Valid()
      ensures trade.sym !in old(referenceKlines) ==> r == Err(TypeError) && State() == old(State())
      ensures trade.sym in old(referenceKlines) ==>
        var tfs := old(keyOrder[trade.sym]);
        var built := BuiltKlines(old(referenceKlines[trade.sym]), old(buildStartTimes[trade.sym]), tfs, trade);
        r == Ok(BuildResult(trade.sym, tfs, exchangeMarket, built)) &&
        referenceKlines == old(referenceKlines)[trade.sym := AdvancedRefs(old(referenceKlines[trade.sym]), built)] &&
        buildStartTimes == old(buildStartTimes) && keyOrder == old(keyOrder)
    {
      if trade.sym !in referenceKlines {
        return Err(TypeError);
      }
      ghost var t0 := State();
      assert SymbolTablesAgree(t0.refs[trade.sym], t0.starts[trade.sym], t0.order[trade.sym]);
      var klines := BuildSymbolKlines(trade);
      ValidAfterAdvance(t0, trade.sym, AdvancedRefs(t0.refs[trade.sym], klines));
      r := Ok(BuildResult(trade.sym, keyOrder[trade.sym], exchangeMarket, klines));
    }

    /** The loop of `buildKlines` over the symbol's time frames in key order: each one whose
        start time has passed gets the trade built into its reference. */
    method BuildSymbolKlines(trade: Trade) returns (klines: map<string, Kline>)
      requires trade.sym in referenceKlines && trade.sym in buildStartTimes && trade.sym in keyOrder
      requires SymbolTablesAgree(referenceKlines[trade.sym], buildStartTimes[trade.sym], keyOrder[trade.sym])
      modifies this
      ensures Covers(old(referenceKlines[trade.sym]), old(buildStartTimes[trade.sym]), old(keyOrder[trade.sym]))
      ensures klines == BuiltKlines(old(referenceKlines[trade.sym]), old(buildStartTimes[trade.sym]),
                                    old(keyOrder[trade.sym]), trade)
      ensures referenceKlines == old(referenceKlines)[trade.sym := AdvancedRefs(old(referenceKlines[trade.sym]), klines)]
      ensures buildStartTimes == old(buildStartTimes) && keyOrder == old(keyOrder)
    {
      var tfs := keyOrder[trade.sym];
      ghost var t0 := State();
      ghost var refs0 := referenceKlines[trade.sym];
      ghost var starts := buildStartTimes[trade.sym];
      klines := map[];
      AdvancedRefsNone(refs0);
      MapSelfUpdate(t0.refs, trade.sym);
      assert Covers(refs0, starts, tfs);
      CoversPrefix(refs0, starts, tfs, 0);
      var i := 0;
      while i < |tfs|
        invariant 0 <= i <= |tfs|
        invariant Covers(refs0, starts, tfs[..i])
        invariant klines == BuiltKlines(refs0, starts, tfs[..i], trade)
        invariant State() == t0.(refs := t0.refs[trade.sym := AdvancedRefs(refs0, klines)])
      {
        BuiltSnoc(refs0, starts, tfs, i, trade);
        NotYetBuilt(refs0, starts, tfs, i, trade);
        klines := BuildTimeFrame(trade, tfs[i], t0, refs0, klines);
        i := i + 1;
      }
      assert tfs[..i] == tfs;
    }

    /** One time frame of the loop of `buildKlines`: once its start time has passed, the
        trade is built into its reference, which becomes the new reference. */
    method BuildTimeFrame(trade: Trade, tf: string, ghost t0: Tables, ghost refs0: map<string, Option<Kline>>,
                          klines: map<string, Kline>) returns (klines': map<string, Kline>)
      requires trade.sym in t0.refs && trade.sym in buildStartTimes
      requires tf in refs0 && tf in buildStartTimes[trade.sym] && ValidTf(tf) && tf !in klines
      requires State() == t0.(refs := t0.refs[trade.sym := AdvancedRefs(refs0, klines)])
      modifies this
      ensures State() == t0.(refs := t0.refs[trade.sym := AdvancedRefs(refs0, klines')])
      ensures klines' == if buildStartTimes[trade.sym][tf] > trade.ts then klines
                         else klines[tf := BuildKline(trade, tf, refs0[tf])]
    {
      klines' := klines;
      if buildStartTimes[trade.sym][tf] <= trade.ts {
        AdvancedInsert(refs0, klines, tf, BuildKline(trade, tf, refs0[tf]));
        var buildResult := BuildKline(trade, tf, referenceKlines[trade.sym][tf]);
        UpdateTwice(t0.refs, trade.sym, referenceKlines[trade.sym], referenceKlines[trade.sym][tf := Some(buildResult)]);
        AdvanceReference(trade.sym, tf, buildResult);
        klines' := klines[tf := buildResult];
      }
    }

    /** The new reference candle of one time frame of a symbol. */
    method AdvanceReference(sym: string, tf: string, k: Kline)
      requires sym in referenceKlines
      modifies this
      ensures State() == old(State()).(refs := old(referenceKlines)[sym := old(referenceKlines[sym])[tf := Some(k)]])
    {
      var symbolRefs := referenceKlines[sym][tf := Some(k)];
      referenceKlines := referenceKlines[sym := symbolRefs];
    }

    /** `initializeSymbolsBuildStartTimes`: for each symbol in turn, its key is reset to
        null references and deferred start times for its time frames. */
    method InitializeSymbolsBuildStartTimes(symbols: seq<ExchangeSymbol>, now: int)
      requires Valid() && SymbolsParse(symbols)
      modifies this
      ensures Valid()
      ensures State() == Init(old(State()), symbols, now)
    {
      ghost var t0 := State();
      var n := 0;
      while n < |symbols|
        invariant 0 <= n <= |symbols|
        invariant SymbolsParse(symbols[..n])
        invariant State() == Init(t0, symbols[..n], now)
      {
        InitSnoc(t0, symbols, n, now);
        InitializeSymbol(symbols[n], now);
        n := n + 1;
      }
      assert symbols[..n] == symbols;
      InitValid(t0, symbols, now);
    }

    /** One time frame of the inner loop of `initializeSymbolsBuildStartTimes`. */
    method InitializeTimeFrame(symId: string, tf: string, now: int)
      requires ValidTf(tf) && symId in referenceKlines && symId in buildStartTimes && symId in keyOrder
      modifies this
      ensures State() == AddTimeFrame(old(State()), symId, tf, now)
    {
      var multiplier := StartTimeMultiplier(tf);
      var deferredBuildTime := NthNext(now, tf, multiplier);
      var symbolStarts := buildStartTimes[symId][tf := deferredBuildTime];
      buildStartTimes := buildStartTimes[symId := symbolStarts];
      var symbolRefs := referenceKlines[symId][tf := None];
      referenceKlines := referenceKlines[symId := symbolRefs];
      if tf !in keyOrder[symId] {
        var symbolOrder := keyOrder[symId] + [tf];
        keyOrder := keyOrder[symId := symbolOrder];
      }
    }

    /** The body of the loop of `initializeSymbolsBuildStartTimes` for one symbol: its key
        gets empty tables, then each time frame a null reference and its deferred start
        time, and is appended to the key order when not yet there. */
    method InitializeSymbol(sym: ExchangeSymbol, now: int)
      requires forall tf :: tf in sym.timeFrames ==> ValidTf(tf)
      modifies this
      ensures State() == FreshKey(old(State()), SymbolId(sym), sym.timeFrames, now)
    {
      var symId := sym.baseAsset + sym.quoteAsset;
      assert symId == SymbolId(sym);
      var tfs := sym.timeFrames;
      ghost var t0 := State();
      referenceKlines := referenceKlines[symId := map[]];
      buildStartTimes := buildStartTimes[symId := map[]];
      keyOrder := keyOrder[symId := []];
      assert tfs[..0] == [];
      FreshKeyEmpty(t0, symId, now);
      var k := 0;
      while k < |tfs|
        invariant 0 <= k <= |tfs|
        invariant forall tf :: tf in tfs[..k] ==> ValidTf(tf)
        invariant State() == FreshKey(t0, symId, tfs[..k], now)
      {
        FreshKeySnoc(t0, symId, tfs, k, now);
        InitializeTimeFrame(symId, tfs[k], now);
        k := k + 1;
      }
      assert tfs[..k] == tfs;
    }
  }
}
