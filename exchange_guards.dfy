/** The market predicates over exchange-market names such as `binance_spot`. */
module ExchangeGuards {
  import opened Strings

  /** The three markets the pipeline declares. */
  predicate DeclaredMarket(m: string) {
    m == "bybit_linear" || m == "bybit_spot" || m == "binance_spot"
  }

  predicate IsBinanceExchange(m: string) { StartsWith(m, "binance_") }

  predicate IsBybitExchange(m: string) { StartsWith(m, "bybit_") }

  predicate IsBybitLinearMarket(m: string) { m == "bybit_linear" }

  predicate IsBybitSpotMarket(m: string) { m == "bybit_spot" }

  predicate IsBinanceSpotMarket(m: string) { m == "binance_spot" }

  /** No market name is both a binance and a bybit one. */
  lemma ExchangesDisjoint(m: string)
    ensures !(IsBinanceExchange(m) && IsBybitExchange(m))
  {
    if IsBinanceExchange(m) {
      assert m[..6][1] == m[..8][1] == 'i' != "bybit_"[1];
    }
  }

  /** Each declared market belongs to exactly one exchange, and the market predicates
      agree with their exchange. */
  lemma DeclaredMarketsExactlyOne(m: string)
    requires DeclaredMarket(m)
    ensures IsBinanceExchange(m) != IsBybitExchange(m)
    ensures IsBinanceExchange(m) <==> IsBinanceSpotMarket(m)
    ensures IsBybitExchange(m) <==> IsBybitLinearMarket(m) || IsBybitSpotMarket(m)
  {
    ExchangesDisjoint(m);
    assert "bybit_linear"[..6] == "bybit_";
    assert "bybit_spot"[..6] == "bybit_";
    assert "binance_spot"[..8] == "binance_";
  }

  /** A market name is recognised by its prefix alone, whatever follows. */
  lemma PrefixDecides(rest: string)
    ensures IsBinanceExchange("binance_" + rest) && !IsBybitExchange("binance_" + rest)
    ensures IsBybitExchange("bybit_" + rest) && !IsBinanceExchange("bybit_" + rest)
  {
    assert ("binance_" + rest)[..8] == "binance_";
    assert ("bybit_" + rest)[..6] == "bybit_";
    ExchangesDisjoint("binance_" + rest);
    ExchangesDisjoint("bybit_" + rest);
  }
}
