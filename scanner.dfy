/** The scanner: admits the exchange's instruments that match the configuration (quote
    asset, black- and whitelist, no leveraged up/down tokens), caps how many symbols are
    tracked, hands only the newly found symbols to the candle builder and the trade
    watcher, and republishes every build result under the `base/quote` symbol. */
module Scanner {
  import opened Common
  import opened Strings
  import opened TimeFrames
  import opened Klines
  import opened KlinesBuilder

  /** `IScannerConfig` as `getScannableSymbols` reads it: the black- and whitelist are
      the destructured `blacklist` and `whitelist`, which the declared config type does not
      have (it names them `baseAssetsBlacklist`/`baseAssetsWhitelist`), so either may be
      absent (None). */
  datatype ScannerConfig = ScannerConfig(quoteAsset: string, timeFrames: seq<string>, maxScannedAssets: nat,
                                         blacklist: Option<seq<string>>, whitelist: Option<seq<string>>,
                                         exchangeMarket: string)

  /** A tradable instrument as the exchange lists it. */
  datatype Instrument = Instrument(baseAsset: string, quoteAsset: string)

  // ---------------------------------------------------------------------------
  // getScannableSymbols

  /** The admission filter: same quote ignoring case, base not blacklisted, and the
      lower-cased base ending neither in `up` nor in `down`. */
  predicate Admitted(cfg: ScannerConfig, ins: Instrument) {
    ToLower(ins.quoteAsset) == ToLower(cfg.quoteAsset) && !Blacklisted(cfg, ins.baseAsset) &&
    !EndsWith(ToLower(ins.baseAsset), "up") && !EndsWith(ToLower(ins.baseAsset), "down")
  }

  /** `blacklist.includes(base)`; an absent blacklist never gets this far (see
      GetScannableSymbols). */
  predicate Blacklisted(cfg: ScannerConfig, base: string) {
    cfg.blacklist.Some? && base in cfg.blacklist.value
  }

  /** The whitelist counts only when it is present, non-empty and its first entry is not `''`. */
  predicate WhitelistActive(cfg: ScannerConfig) {
    cfg.whitelist.Some? && |cfg.whitelist.value| > 0 && cfg.whitelist.value[0] != ""
  }

  predicate Kept(cfg: ScannerConfig, ins: Instrument) {
    Admitted(cfg, ins) && (WhitelistActive(cfg) ==> ins.baseAsset in cfg.whitelist.value)
  }

  /** The symbol the scanner builds for an instrument. */
  function AsSymbol(cfg: ScannerConfig, ins: Instrument): ExchangeSymbol
  {
    ExchangeSymbol(ins.baseAsset, ins.quoteAsset, cfg.timeFrames, cfg.exchangeMarket)
  }

  /** The kept instruments as symbols, in exchange order. */
  function Candidates(cfg: ScannerConfig, all: seq<Instrument>): seq<ExchangeSymbol>
  {
    if all == [] then []
    else
      Candidates(cfg, all[..|all| - 1]) +
      (if Kept(cfg, all[|all| - 1]) then [AsSymbol(cfg, all[|all| - 1])] else [])
  }

  /** `getScannableSymbols`: no candidate when the configuration has no time frame,
      otherwise the last `maxScannedAssets` candidates. */
  function ScannableSymbols(cfg: ScannerConfig, all: seq<Instrument>): seq<ExchangeSymbol>
  {
    var candidates := if cfg.timeFrames == [] then [] else Candidates(cfg, all);
    SliceLast(candidates, cfg.maxScannedAssets)
  }

  /** `getScannableSymbols` with its error path: the admission filter reads
      `blacklist.includes` for every instrument, so an absent blacklist throws a TypeError as
      soon as the exchange lists one instrument. */
  function GetScannableSymbols(cfg: ScannerConfig, all: seq<Instrument>): Result<seq<ExchangeSymbol>>
  {
    if cfg.blacklist.None? && all != [] then Err(TypeError) else Ok(ScannableSymbols(cfg, all))
  }

  /** It throws exactly when the blacklist is absent and the exchange lists an instrument;
      otherwise it yields the scannable symbols, and with no instrument there are none. */
  lemma GetScannableSymbolsThrowsIff(cfg: ScannerConfig, all: seq<Instrument>)
    ensures GetScannableSymbols(cfg, all).Err? <==> cfg.blacklist.None? && all != []
    ensures GetScannableSymbols(cfg, all).Err? ==> GetScannableSymbols(cfg, all).error == TypeError
    ensures GetScannableSymbols(cfg, all).Ok? ==> GetScannableSymbols(cfg, all).value == ScannableSymbols(cfg, all)
    ensures all == [] ==> GetScannableSymbols(cfg, all) == Ok([])
  {
    if all == [] {
      assert Candidates(cfg, all) == [];
    }
  }

  /** Filtering commutes with concatenation: candidates keep the exchange's order. */
  lemma {:induction false} CandidatesAppend(cfg: ScannerConfig, a: seq<Instrument>, b: seq<Instrument>)
    ensures Candidates(cfg, a + b) == Candidates(cfg, a) + Candidates(cfg, b)
    decreases |b|
  {
    if b == [] {
      assert a + b == a;
    } else {
      var b' := b[..|b| - 1];
      assert (a + b)[..|a + b| - 1] == a + b';
      assert (a + b)[|a + b| - 1] == b[|b| - 1];
      CandidatesAppend(cfg, a, b');
    }
  }

  /** The symbol comes from a kept instrument. */
  predicate FromKept(cfg: ScannerConfig, all: seq<Instrument>, s: ExchangeSymbol) {
    exists i :: 0 <= i < |all| && Kept(cfg, all[i]) && s == AsSymbol(cfg, all[i])
  }

  /** A symbol is a candidate exactly when it comes from a kept instrument. */
  lemma {:induction false} CandidatesMembers(cfg: ScannerConfig, all: seq<Instrument>)
    ensures forall s :: s in Candidates(cfg, all) <==> FromKept(cfg, all, s)
    decreases |all|
  {
    if all != [] {
      var init := all[..|all| - 1];
      CandidatesMembers(cfg, init);
      forall s | s in Candidates(cfg, all)
        ensures FromKept(cfg, all, s)
      {
        if s in Candidates(cfg, init) {
          var i :| 0 <= i < |init| && Kept(cfg, init[i]) && s == AsSymbol(cfg, init[i]);
          assert all[i] == init[i];
        }
      }
      forall i | 0 <= i < |all| && Kept(cfg, all[i])
        ensures AsSymbol(cfg, all[i]) in Candidates(cfg, all)
      {
        if i < |all| - 1 {
          assert all[i] == init[i];
        }
      }
    }
  }

  /** The scannable symbols are the last `maxScannedAssets` candidates (all of them when
      the cap is 0, since `slice(-0)` keeps everything), each carrying the configured
      time frames and market; none at all without time frames. */
  lemma ScannableSymbolsProps(cfg: ScannerConfig, all: seq<Instrument>)
    ensures var r := ScannableSymbols(cfg, all);
      (cfg.timeFrames == [] ==> r == []) &&
      (cfg.maxScannedAssets > 0 ==> |r| <= cfg.maxScannedAssets) &&
      (cfg.timeFrames != [] && (cfg.maxScannedAssets == 0 || |Candidates(cfg, all)| <= cfg.maxScannedAssets) ==>
         r == Candidates(cfg, all)) &&
      forall s :: s in r ==>
        s.timeFrames == cfg.timeFrames && s.exchangeMarket == cfg.exchangeMarket && FromKept(cfg, all, s)
  {
    CandidatesMembers(cfg, all);
    var c := if cfg.timeFrames == [] then [] else Candidates(cfg, all);
    SliceLastMembers(c, cfg.maxScannedAssets);
  }

  // ---------------------------------------------------------------------------
  // scan

  /** The comparison key `base/quote`. */
  function Key(s: ExchangeSymbol): string
  {
    s.baseAsset + "/" + s.quoteAsset
  }

  function Keys(ss: seq<ExchangeSymbol>): (r: seq<string>)
    ensures |r| == |ss| && forall i :: 0 <= i < |ss| ==> r[i] == Key(ss[i])
  {
    seq(|ss|, i requires 0 <= i < |ss| => Key(ss[i]))
  }

  /** No two symbols share a key. */
  predicate DistinctKeys(ss: seq<ExchangeSymbol>) {
    forall i, j :: 0 <= i < j < |ss| ==> Key(ss[i]) != Key(ss[j])
  }

  /** The candidates whose key is not tracked yet, in order. Repeats among the
      candidates themselves are not filtered: each is compared with the tracked list only. */
  function NewSymbols(tracked: seq<ExchangeSymbol>, cs: seq<ExchangeSymbol>): seq<ExchangeSymbol>
  {
    if cs == [] then []
    else
      NewSymbols(tracked, cs[..|cs| - 1]) +
      (if Key(cs[|cs| - 1]) in Keys(tracked) then [] else [cs[|cs| - 1]])
  }

  /** The scanner's state: its configuration, the tracked symbols, the batches of new
      symbols handed to `initializeSymbolsBuildStartTimes` and to `watchTrades`, the
      quote captured by each trade subscription, and the republished build results. */
  datatype ScannerState = ScannerState(config: Option<ScannerConfig>, tracked: seq<ExchangeSymbol>,
                                       handedOver: seq<seq<ExchangeSymbol>>, subscriptions: seq<string>,
                                       updates: seq<BuildResult>)

  /** `scan` given the scannable symbols: a round whose candidates would exceed the cap
      is rejected whole; otherwise the untracked ones are appended and, when there are
      any, handed over as one batch. */
  function ScanSpec(s: ScannerState, cs: seq<ExchangeSymbol>, max: nat): ScannerState
  {
    if |cs| > 0 && |cs| + |s.tracked| > max then s
    else
      var added := NewSymbols(s.tracked, cs);
      if added == [] then s
      else s.(tracked := s.tracked + added, handedOver := s.handedOver + [added])
  }
  /** A whole `scan`: a rejected `getScannableSymbols` rejects the scan before anything
      changes; otherwise ScanSpec over the scannable symbols. */
  function ScanAfter(s: ScannerState, res: Result<seq<ExchangeSymbol>>, max: nat): ScannerState
  {
    if res.Err? then s else ScanSpec(s, res.value, max)
  }


  /** The new symbols are exactly the candidates not yet tracked. */
  lemma {:induction false} NewSymbolsMembers(tracked: seq<ExchangeSymbol>, cs: seq<ExchangeSymbol>)
    ensures forall x :: x in NewSymbols(tracked, cs) <==> x in cs && Key(x) !in Keys(tracked)
    decreases |cs|
  {
    if cs != [] {
      var init := cs[..|cs| - 1];
      var c := cs[|cs| - 1];
      NewSymbolsMembers(tracked, init);
      assert cs == init + [c];
    }
  }

  /** When the tracked symbols and the candidates each have distinct keys, tracking the
      new symbols adds no repeated key. */
  lemma {:induction false} NewSymbolsDistinct(tracked: seq<ExchangeSymbol>, cs: seq<ExchangeSymbol>)
    requires DistinctKeys(tracked) && DistinctKeys(cs)
    ensures DistinctKeys(tracked + NewSymbols(tracked, cs))
    decreases |cs|
  {
    if cs != [] {
      var init := cs[..|cs| - 1];
      var c := cs[|cs| - 1];
      var n := NewSymbols(tracked, init);
      forall i, j | 0 <= i < j < |init| ensures Key(init[i]) != Key(init[j]) {
        assert init[i] == cs[i] && init[j] == cs[j];
      }
      NewSymbolsDistinct(tracked, init);
      if Key(c) in Keys(tracked) {
        assert NewSymbols(tracked, cs) == n;
      } else {
        assert NewSymbols(tracked, cs) == n + [c];
        NewSymbolsMembers(tracked, init);
        var t := tracked + n;
        forall i | 0 <= i < |t| ensures Key(t[i]) != Key(c) {
          if i < |tracked| {
            assert Key(tracked[i]) == Keys(tracked)[i];
          } else {
            assert t[i] == n[i - |tracked|] && t[i] in n;
            var k :| 0 <= k < |init| && init[k] == t[i];
            assert cs[k] == init[k];
          }
        }
        DistinctKeysSnoc(t, c);
        assert tracked + (n + [c]) == t + [c];
      }
    }
  }

  lemma DistinctKeysSnoc(t: seq<ExchangeSymbol>, c: ExchangeSymbol)
    requires DistinctKeys(t) && forall i :: 0 <= i < |t| ==> Key(t[i]) != Key(c)
    ensures DistinctKeys(t + [c])
  {
    var t' := t + [c];
    forall i, j | 0 <= i < j < |t'| ensures Key(t'[i]) != Key(t'[j]) {
      assert t'[i] == t[i];
      if j < |t| {
        assert t'[j] == t[j];
      }
    }
  }

  /** The cap is kept: a scan never takes the tracked list past `maxScannedAssets` when it
      was within it, the tracked list only grows by the untracked candidates, and repeated
      keys never enter it when the candidates have none. */
  lemma ScanKeepsCap(s: ScannerState, cs: seq<ExchangeSymbol>, max: nat)
    ensures var r := ScanSpec(s, cs, max);
      (|s.tracked| <= max ==> |r.tracked| <= max) &&
      s.tracked <= r.tracked &&
      (forall x :: x in r.tracked[|s.tracked|..] ==> x in cs && Key(x) !in Keys(s.tracked)) &&
      (DistinctKeys(s.tracked) && DistinctKeys(cs) ==> DistinctKeys(r.tracked))
  {
    NewSymbolsMembers(s.tracked, cs);
    if DistinctKeys(s.tracked) && DistinctKeys(cs) {
      NewSymbolsDistinct(s.tracked, cs);
    }
    NewSymbolsLength(s.tracked, cs);
    var r := ScanSpec(s, cs, max);
    if r.tracked != s.tracked {
      assert r.tracked[|s.tracked|..] == NewSymbols(s.tracked, cs);
    } else {
      assert r.tracked[|s.tracked|..] == [];
    }
  }

  lemma {:induction false} NewSymbolsLength(tracked: seq<ExchangeSymbol>, cs: seq<ExchangeSymbol>)
    ensures |NewSymbols(tracked, cs)| <= |cs|
    decreases |cs|
  {
    if cs != [] {
      NewSymbolsLength(tracked, cs[..|cs| - 1]);
    }
  }

  // ---------------------------------------------------------------------------
  // Republishing build results

  /** The canonical `base/quote` symbol: the first occurrence of the quote asset gets a
      slash in front. */
  function Republished(quote: string, built: BuildResult): BuildResult
  {
    built.(symbol := ReplaceFirst(built.symbol, quote, "/" + quote))
  }

  /** A builder symbol `base + quote` (the quote not occurring earlier) is republished as
      `base/quote`, and dropping the slash, as the history loader does, gives it back. */
  lemma RepublishedCanonical(quote: string, base: string, built: BuildResult)
    requires built.symbol == base + quote && '/' !in base
    requires forall k :: 0 <= k < |base| ==> !OccursAt(base + quote, quote, k)
    ensures Republished(quote, built).symbol == base + "/" + quote
    ensures RemoveSymbolSlash(Republished(quote, built).symbol) == base + quote
  {
    var s := base + quote;
    assert s[|base|..|base| + |quote|] == quote;
    FirstIndexIs(s, quote, |base|);
    assert s[..|base|] == base && s[|base| + |quote|..] == [];
    assert base + ("/" + quote) + [] == base + "/" + quote;
    RemoveSymbolSlashFirstOnly(base, quote);
  }

  /** The `.klines` the filter reads off what the pipeline's `map` produced. As written
      `buildKlines` is async, so `map` yields a promise, whose `.klines` is undefined
      (None); with the build awaited it is the result's own candles. */
  function KlinesRead(awaited: bool, built: BuildResult): Option<map<string, Kline>>
  {
    if awaited then Some(built.klines) else None
  }

  /** The trade pipeline over the build results: `Object.keys(undefined)` throws and ends
      the subscription; a result with no advanced time frame is filtered out; the others
      are republished. Gives the results republished and the error that ended it. */
  function RepublishPipeline(quote: string, built: seq<BuildResult>, awaited: bool): (seq<BuildResult>, Option<Failure>)
    decreases |built|
  {
    if built == [] then ([], None)
    else match KlinesRead(awaited, built[0])
      case None => ([], Some(TypeError))
      case Some(klines) =>
        var rest := RepublishPipeline(quote, built[1..], awaited);
        if |klines| == 0 then rest else ([Republished(quote, built[0])] + rest.0, rest.1)
  }

  /** As written, the first trade ends the subscription with a TypeError and nothing is
      ever republished, whatever the builder produced. */
  lemma AsWrittenNeverRepublishes(quote: string, built: seq<BuildResult>)
    requires built != []
    ensures RepublishPipeline(quote, built, false) == ([], Some(TypeError))
  {
  }

  /** The intended republishing: the build results with at least one advanced time frame,
      in order, under the canonical symbol. */
  function Republish(quote: string, built: seq<BuildResult>): seq<BuildResult>
    decreases |built|
  {
    if built == [] then []
    else (if |built[0].klines| > 0 then [Republished(quote, built[0])] else []) + Republish(quote, built[1..])
  }

  /** Corrected: with the build awaited the subscription never fails and republishes
      exactly the intended results. */
  lemma {:induction false} AwaitedPipelineRepublishes(quote: string, built: seq<BuildResult>)
    ensures RepublishPipeline(quote, built, true) == (Republish(quote, built), None)
    decreases |built|
  {
    if built != [] {
      AwaitedPipelineRepublishes(quote, built[1..]);
      assert [] + Republish(quote, built[1..]) == Republish(quote, built[1..]);
    }
  }

  /** The republished results are those that advanced some time frame, in order, with
      their candles untouched. */
  lemma RepublishKeepsAdvanced(quote: string, built: seq<BuildResult>)
    ensures var r := Republish(quote, built);
      |r| <= |built| &&
      (forall i :: 0 <= i < |r| ==> |r[i].klines| > 0) &&
      (forall b :: b in built && |b.klines| > 0 ==> Republished(quote, b) in r) &&
      (forall x :: x in r ==> exists b :: b in built && x == Republished(quote, b))
  {
    RepublishOnlyAdvanced(quote, built);
    RepublishAllAdvanced(quote, built);
    RepublishFromBuilt(quote, built);
  }

  lemma {:induction false} RepublishOnlyAdvanced(quote: string, built: seq<BuildResult>)
    ensures var r := Republish(quote, built);
      |r| <= |built| && forall i :: 0 <= i < |r| ==> |r[i].klines| > 0
    decreases |built|
  {
    if built != [] {
      RepublishOnlyAdvanced(quote, built[1..]);
      var r, rest := Republish(quote, built), Republish(quote, built[1..]);
      var head := if |built[0].klines| > 0 then [Republished(quote, built[0])] else [];
      assert r == head + rest;
      forall i | 0 <= i < |r| ensures |r[i].klines| > 0 {
        if i >= |head| {
          assert r[i] == rest[i - |head|];
        }
      }
    }
  }

  lemma {:induction false} RepublishAllAdvanced(quote: string, built: seq<BuildResult>)
    ensures forall b :: b in built && |b.klines| > 0 ==> Republished(quote, b) in Republish(quote, built)
    decreases |built|
  {
    if built != [] {
      RepublishAllAdvanced(quote, built[1..]);
      var r, rest := Republish(quote, built), Republish(quote, built[1..]);
      var head := if |built[0].klines| > 0 then [Republished(quote, built[0])] else [];
      assert r == head + rest;
      forall b | b in built && |b.klines| > 0 ensures Republished(quote, b) in r {
        if b != built[0] {
          assert b in built[1..];
        }
      }
    }
  }

  lemma {:induction false} RepublishFromBuilt(quote: string, built: seq<BuildResult>)
    ensures forall x :: x in Republish(quote, built) ==> exists b :: b in built && x == Republished(quote, b)
    decreases |built|
  {
    if built != [] {
      RepublishFromBuilt(quote, built[1..]);
      var r, rest := Republish(quote, built), Republish(quote, built[1..]);
      var head := if |built[0].klines| > 0 then [Republished(quote, built[0])] else [];
      assert r == head + rest;
      forall x | x in r ensures exists b :: b in built && x == Republished(quote, b) {
        if x !in head {
          var b :| b in built[1..] && x == Republished(quote, b);
          assert b in built;
        }
      }
    }
  }

  // ---------------------------------------------------------------------------
  // The service

  class ScannerService {
    var config: Option<ScannerConfig>
    var scannedSymbols: seq<ExchangeSymbol>
    var handedOver: seq<seq<ExchangeSymbol>>
    var subscriptions: seq<string>
    var updates: seq<BuildResult>

    function State(): ScannerState
      reads this
    {
      ScannerState(config, scannedSymbols, handedOver, subscriptions, updates)
    }

    constructor()
      ensures State() == ScannerState(None, [], [], [], [])
    {
      config := None;
      scannedSymbols := [];
      handedOver := [];
      subscriptions := [];
      updates := [];
    }

    /** `scannerStarted`: a configuration is set. */
    predicate ScannerStarted()
      reads this
    {
      config.Some?
    }

    method SetScannerConfig(cfg: ScannerConfig)
      modifies this
      ensures State() == old(State()).(config := Some(cfg))
    {
      config := Some(cfg);
    }

    /** `start`: fails without a configuration; otherwise subscribes to the trades
      (capturing the quote asset) and scans the exchange's instruments. */
    method Start(instruments: seq<Instrument>) returns (r: Result<()>)
      modifies this
      ensures old(config).None? ==> r == Err(ConfigNotInitialized) && State() == old(State())
      ensures old(config).Some? ==>
        r == Ok(()) &&
        var cfg := old(config).value;
        State() == ScanAfter(old(State()).(subscriptions := old(subscriptions) + [cfg.quoteAsset]),
                             GetScannableSymbols(cfg, instruments), cfg.maxScannedAssets)
    {
      if config.None? {
        return Err(ConfigNotInitialized);
      }
      subscriptions := subscriptions + [config.value.quoteAsset];
      // `start` does not await `scan`: its rejection does not reach the caller
      var _ := Scan(instruments);
      r := Ok(());
    }

    /** `scan` over the exchange's instruments. */
    method Scan(instruments: seq<Instrument>) returns (r: Result<()>)
      requires config.Some?
      modifies this
      ensures var res := GetScannableSymbols(old(config).value, instruments);
        (r.Err? <==> res.Err?) && (r.Err? ==> r.error == res.error) &&
        State() == ScanAfter(old(State()), res, old(config).value.maxScannedAssets)
    {
      var cfg := config.value;
      var res := GetScannableSymbols(cfg, instruments);
      if res.Err? {
        return Err(res.error);
      }
      var scannable := res.value;
      r := Ok(());
      if |scannable| > 0 && |scannable| + |scannedSymbols| > cfg.maxScannedAssets {
        return;
      }
      var newSymbolsToScan := CollectNewSymbols(scannedSymbols, scannable);
      if newSymbolsToScan == [] {
        return;
      }
      Track(newSymbolsToScan);
      handedOver := handedOver + [newSymbolsToScan];
    }

    /** The push loop appending the new symbols to the tracked ones. */
    method Track(batch: seq<ExchangeSymbol>)
      modifies this
      ensures State() == old(State()).(tracked := old(scannedSymbols) + batch)
    {
      var j := 0;
      while j < |batch|
        invariant 0 <= j <= |batch|
        invariant State() == old(State()).(tracked := old(scannedSymbols) + batch[..j])
      {
        assert batch[..j + 1] == batch[..j] + [batch[j]];
        scannedSymbols := scannedSymbols + [batch[j]];
        j := j + 1;
      }
      assert batch[..j] == batch;
    }

    /** One build result reaching the trade subscriptions, with the build awaited: each
      subscription republishes it under its quote when some time frame advanced. */
    method OnBuildResult(built: BuildResult)
      modifies this
      ensures State() == old(State()).(updates := old(updates) + RepublishEach(old(subscriptions), built))
    {
      var k := 0;
      while k < |subscriptions|
        invariant 0 <= k <= |subscriptions|
        invariant updates == old(updates) + RepublishEach(subscriptions[..k], built)
        invariant config == old(config) && scannedSymbols == old(scannedSymbols)
        invariant handedOver == old(handedOver) && subscriptions == old(subscriptions)
      {
        assert subscriptions[..k + 1][..k] == subscriptions[..k];
        RepublishOne(subscriptions[k], built);
        if |built.klines| > 0 {
          updates := updates + [Republished(subscriptions[k], built)];
        }
        k := k + 1;
      }
      assert subscriptions[..k] == subscriptions;
    }
  }

  /** The loop collecting the scannable symbols whose key is not tracked yet. */
  method CollectNewSymbols(tracked: seq<ExchangeSymbol>, scannable: seq<ExchangeSymbol>)
    returns (newSymbolsToScan: seq<ExchangeSymbol>)
    ensures newSymbolsToScan == NewSymbols(tracked, scannable)
  {
    newSymbolsToScan := [];
    var i := 0;
    while i < |scannable|
      invariant 0 <= i <= |scannable|
      invariant newSymbolsToScan == NewSymbols(tracked, scannable[..i])
    {
      assert scannable[..i + 1][..i] == scannable[..i];
      if Key(scannable[i]) !in Keys(tracked) {
        newSymbolsToScan := newSymbolsToScan + [scannable[i]];
      }
      i := i + 1;
    }
    assert scannable[..i] == scannable;
  }

  lemma RepublishOne(quote: string, built: BuildResult)
    ensures Republish(quote, [built]) == if |built.klines| > 0 then [Republished(quote, built)] else []
  {
    assert [built][1..] == [];
  }

  /** One build result as republished by each subscription in turn. */
  function RepublishEach(quotes: seq<string>, built: BuildResult): seq<BuildResult>
  {
    if quotes == [] then []
    else RepublishEach(quotes[..|quotes| - 1], built) + Republish(quotes[|quotes| - 1], [built])
  }
}
