/** Candle (OHLCV) arithmetic: open-time flooring, stepping n candles, folding a trade
    into a candle, counting and synthesising the candles missing between two candles,
    and filling every gap of a candle list. Times are integer milliseconds (UTC);
    gap arithmetic is restricted to the fixed-width units s, m, h, d and w. */
module Klines {
  import opened Common
  import opened TimeFrames

  /** `[time, open, high, low, close, volume]`. */
  datatype Kline = Kline(time: int, open: real, high: real, low: real, close: real, volume: real)

  datatype Trade = Trade(id: string, sym: string, ts: int, price: real, amt: real)

  // ---------------------------------------------------------------------------
  // Open times

  /** `Math.floor(ts / p) * p` for a positive p. */
  function FloorTo(ts: int, p: int): (r: int)
    requires p > 0
    ensures r % p == 0
    ensures r <= ts < r + p
  {
    DivUnique((ts / p) * p, p, ts / p, 0);
    (ts / p) * p
  }

  lemma FloorToUnique(ts: int, p: int, r: int)
    requires p > 0 && r % p == 0 && r <= ts < r + p
    ensures r == FloorTo(ts, p)
  {
    var q := r / p;
    assert r == q * p;
    DivUnique(ts, p, q, ts - r);
  }

  lemma MulSucc(t: int, p: int)
    ensures (t + 1) * p == t * p + p
  {
  }

  lemma MulLe(a: int, b: int, p: nat)
    requires a <= b
    ensures a * p <= b * p
  {
  }

  lemma DivUnique(x: int, u: int, q: int, r: int)
    requires u > 0 && x == q * u + r && 0 <= r < u
    ensures x / u == q && x % u == r
  {
    var q0, r0 := x / u, x % u;
    assert x == q0 * u + r0;
    if q0 < q {
      MulLe(q0 + 1, q, u);
    } else if q0 > q {
      MulLe(q + 1, q0, u);
    }
  }

  /** `getKlineOpeningTimeFromTimestamp`: `Math.floor(ts / ms) * ms`. */
  function OpenTime(ts: int, tf: string): (r: int)
    requires ValidTf(tf)
    ensures r % Period(tf) == 0
    ensures r <= ts < r + Period(tf)
  {
    FloorTo(ts, Period(tf))
  }

  /** The open time is the only period boundary in (ts - period, ts]. */
  lemma OpenTimeUnique(ts: int, tf: string, r: int)
    requires ValidTf(tf)
    requires r % Period(tf) == 0 && r <= ts < r + Period(tf)
    ensures r == OpenTime(ts, tf)
  {
    FloorToUnique(ts, Period(tf), r);
  }

  /** `getNthPreviousKlineOpeningTimeFromTimestamp`. */
  function NthPrevious(ts: int, tf: string, n: int): int
    requires ValidTf(tf)
  {
    OpenTime(ts, tf) - Period(tf) * n
  }

  /** `getNthNextKlineOpeningTimeFromTimestamp`. */
  function NthNext(ts: int, tf: string, n: int): int
    requires ValidTf(tf)
  {
    OpenTime(ts, tf) + Period(tf) * n
  }

  /** Stepping n candles back or forward lands on a boundary n periods away, and the two
      steps undo each other. */
  lemma NthStepsAreBoundaries(ts: int, tf: string, n: int)
    requires ValidTf(tf)
    ensures OpenTime(NthPrevious(ts, tf, n), tf) == NthPrevious(ts, tf, n)
    ensures OpenTime(NthNext(ts, tf, n), tf) == NthNext(ts, tf, n)
    ensures NthNext(NthPrevious(ts, tf, n), tf, n) == OpenTime(ts, tf)
    ensures NthPrevious(NthNext(ts, tf, n), tf, n) == OpenTime(ts, tf)
    ensures NthNext(ts, tf, n) - NthPrevious(ts, tf, n) == 2 * n * Period(tf)
  {
    StepBoundaries(ts, Period(tf), n);
  }

  lemma StepBoundaries(ts: int, p: int, n: int)
    requires p > 0
    ensures FloorTo(FloorTo(ts, p) - p * n, p) == FloorTo(ts, p) - p * n
    ensures FloorTo(FloorTo(ts, p) + p * n, p) == FloorTo(ts, p) + p * n
  {
    var o := FloorTo(ts, p);
    var k := o / p;
    assert o == k * p + o % p;
    assert o - p * n == (k - n) * p;
    assert o + p * n == (k + n) * p;
    DivUnique(o - p * n, p, k - n, 0);
    DivUnique(o + p * n, p, k + n, 0);
    FloorToUnique(o - p * n, p, o - p * n);
    FloorToUnique(o + p * n, p, o + p * n);
  }

  // ---------------------------------------------------------------------------
  // Building a candle from trades

  /** `buildKline`: a trade in the reference candle's bucket updates a copy of it
      (`buildKlineUsingKlineReference`); otherwise it opens a fresh candle. */
  function BuildKline(trade: Trade, tf: string, ref: Option<Kline>): (k: Kline)
    requires ValidTf(tf)
    ensures k.time == OpenTime(trade.ts, tf) && k.close == trade.price
    ensures k.low <= trade.price <= k.high
    ensures ref.Some? && ref.value.time == OpenTime(trade.ts, tf) ==>
      k.open == ref.value.open && k.volume == ref.value.volume + trade.amt &&
      k.high == Max(ref.value.high, trade.price) && k.low == Min(ref.value.low, trade.price)
    ensures !(ref.Some? && ref.value.time == OpenTime(trade.ts, tf)) ==>
      k == Kline(OpenTime(trade.ts, tf), trade.price, trade.price, trade.price, trade.price, trade.amt)
  {
    var openingTime := OpenTime(trade.ts, tf);
    if ref.Some? && ref.value.time == openingTime then
      BuildKlineUsingKlineReference(trade, ref.value)
    else
      Kline(openingTime, trade.price, trade.price, trade.price, trade.price, trade.amt)
  }

  function BuildKlineUsingKlineReference(trade: Trade, ref: Kline): Kline
  {
    ref.(low := Min(ref.low, trade.price), high := Max(ref.high, trade.price),
         close := trade.price, volume := ref.volume + trade.amt)
  }

  /** The candle obtained by feeding the trades one by one to buildKline. */
  function FoldTrades(trades: seq<Trade>, tf: string): Option<Kline>
    requires ValidTf(tf)
  {
    if trades == [] then None
    else Some(BuildKline(trades[|trades| - 1], tf, FoldTrades(trades[..|trades| - 1], tf)))
  }

  function SumAmt(trades: seq<Trade>): real
  {
    if trades == [] then 0.0 else SumAmt(trades[..|trades| - 1]) + trades[|trades| - 1].amt
  }

  predicate SameBucket(trades: seq<Trade>, tf: string)
    requires ValidTf(tf)
  {
    forall i :: 0 <= i < |trades| ==> OpenTime(trades[i].ts, tf) == OpenTime(trades[0].ts, tf)
  }

  /** Folding the trades of one bucket: open is the first price, close the last, high
      the largest, low the smallest, volume the sum of the amounts. */
  lemma {:induction false} FoldOneBucket(trades: seq<Trade>, tf: string)
    requires ValidTf(tf) && |trades| > 0 && SameBucket(trades, tf)
    ensures FoldTrades(trades, tf).Some?
    ensures var k := FoldTrades(trades, tf).value;
      k.time == OpenTime(trades[0].ts, tf) &&
      k.open == trades[0].price && k.close == trades[|trades| - 1].price &&
      k.volume == SumAmt(trades) &&
      (forall i :: 0 <= i < |trades| ==> k.low <= trades[i].price <= k.high) &&
      (exists i :: 0 <= i < |trades| && k.high == trades[i].price) &&
      (exists i :: 0 <= i < |trades| && k.low == trades[i].price)
  {
    var n := |trades|;
    if n > 1 {
      var init := trades[..n - 1];
      assert SameBucket(init, tf) by {
        forall i | 0 <= i < |init|
          ensures OpenTime(init[i].ts, tf) == OpenTime(init[0].ts, tf)
        {
          assert init[i] == trades[i];
        }
      }
      FoldOneBucket(init, tf);
      var prev := FoldTrades(init, tf).value;
      var k := FoldTrades(trades, tf).value;
      assert k == BuildKline(trades[n - 1], tf, Some(prev));
      var ih :| 0 <= ih < |init| && prev.high == init[ih].price;
      var il :| 0 <= il < |init| && prev.low == init[il].price;
      if k.high == trades[n - 1].price {
      } else {
        assert k.high == trades[ih].price;
      }
      if k.low == trades[n - 1].price {
      } else {
        assert k.low == trades[il].price;
      }
      forall i | 0 <= i < n
        ensures k.low <= trades[i].price <= k.high
      {
        if i < n - 1 {
          assert trades[i] == init[i];
        }
      }
    } else {
      assert trades[..0] == [];
    }
  }

  // ---------------------------------------------------------------------------
  // Gap counting

  /** Integer division truncating toward zero, as moment's `diff` reports whole units. */
  function TruncDiv(x: int, d: nat): int
    requires d > 0
  {
    if x >= 0 then x / d else -((-x) / d)
  }

  /** Whole units (of u ms) in d, divided by the amount a, minus one. */
  function GapsOf(d: int, u: int, a: int): real
    requires u > 0 && a > 0
  {
    (TruncDiv(d, u) as real) / (a as real) - 1.0
  }

  /** `getKlineGapsCount`: whole units between the two times, divided by the amount,
      minus one. */
  function GapsCount(prev: int, next: int, tf: string): real
    requires FixedWidthTf(tf)
  {
    GapsOf(next - prev, UnitMs(tf), Amount(tf))
  }

  /** `klinesHasGaps`. */
  predicate HasGaps(prev: int, next: int, tf: string)
    requires FixedWidthTf(tf)
  {
    GapsCount(prev, next, tf) > 0.0
  }

  lemma RealDivLe(x: real, y: real, a: real)
    requires a > 0.0
    ensures x / a <= y <==> x <= y * a
  {
    var q := x / a;
    assert x == q * a;
    if q <= y {
      assert q * a <= y * a;
    } else {
      assert q * a > y * a;
    }
  }

  lemma RealDivMul(t: int, a: int)
    requires a > 0
    ensures ((t * a) as real) / (a as real) == t as real
  {
  }

  lemma TruncDivExact(q: int, u: int)
    requires u > 0
    ensures TruncDiv(q * u, u) == q
  {
    if q >= 0 {
      DivUnique(q * u, u, q, 0);
    } else {
      assert -(q * u) == (-q) * u;
      DivUnique(-(q * u), u, -q, 0);
    }
  }

  lemma GapsOfAligned(k: int, u: int, a: int)
    requires u > 0 && a > 0
    ensures GapsOf((k * a) * u, u, a) == (k - 1) as real
  {
    TruncDivExact(k * a, u);
    RealDivMul(k, a);
  }

  lemma GapsOfPositive(d: int, u: int, a: int)
    requires u > 0 && a > 0
    ensures GapsOf(d, u, a) > 0.0 <==> TruncDiv(d, u) > a
  {
    RealDivLe(TruncDiv(d, u) as real, 1.0, a as real);
  }

  /** For candle times a whole number k of periods apart, the gap count is k - 1 and
      there is a gap exactly when k > 1. */
  lemma GapsCountAligned(prev: int, next: int, tf: string, k: int)
    requires FixedWidthTf(tf) && next - prev == k * Period(tf)
    ensures GapsCount(prev, next, tf) == (k - 1) as real
    ensures HasGaps(prev, next, tf) <==> k > 1
  {
    var u, a := UnitMs(tf), Amount(tf);
    assert k * Period(tf) == (k * a) * u;
    GapsOfAligned(k, u, a);
  }

  /** There is a gap exactly when more than `amount` whole units separate the times. */
  lemma HasGapsIff(prev: int, next: int, tf: string)
    requires FixedWidthTf(tf)
    ensures HasGaps(prev, next, tf) <==> TruncDiv(next - prev, UnitMs(tf)) > Amount(tf)
  {
    GapsOfPositive(next - prev, UnitMs(tf), Amount(tf));
  }

  // ---------------------------------------------------------------------------
  // Generating the missing candles

  /** How many times `for (let i = 0; i < gaps; i++)` runs. */
  function IterCount(g: real): nat
  {
    if g <= 0.0 then 0 else if g.Floor as real == g then g.Floor else g.Floor + 1
  }

  lemma IterCountIff(g: real, i: nat)
    ensures (i as real) < g <==> i < IterCount(g)
  {
  }

  lemma IterCountOfWhole(n: nat)
    ensures IterCount(n as real) == n
  {
  }

  /** With t whole units and amount a (t > a), the loop runs (t - 1) / a times. */
  lemma IterCountOfGaps(t: int, a: int)
    requires t > a > 0
    ensures IterCount((t as real) / (a as real) - 1.0) == (t - 1) / a
  {
    var n := (t - 1) / a;
    assert t - 1 == n * a + (t - 1) % a;
    var g := (t as real) / (a as real) - 1.0;
    // n >= g, because (n + 1) * a >= t
    MulLe(n + 1, n + 1, a);
    assert (n + 1) * a >= t;
    RealDivLe(t as real, (n + 1) as real, a as real);
    assert (n as real) >= g;
    // n - 1 < g, because n * a < t
    assert n * a < t;
    RealDivLe(t as real, n as real, a as real);
    assert ((n - 1) as real) < g;
    if n > 0 {
      IterCountIff(g, n - 1);
    }
    IterCountIff(g, n);
  }

  /** n = (t - 1) / a whole steps of a leave between 1 and a units of t. */
  lemma StepsBound(t: int, a: int)
    requires t > a > 0
    ensures t - a <= ((t - 1) / a) * a <= t - 1
  {
    var n := (t - 1) / a;
    assert t - 1 == n * a + (t - 1) % a;
  }

  /** Removing c whole units from d (c below the t = d / u units of d) leaves t - c units. */
  lemma LeftoverUnits(d: int, u: int, c: int)
    requires u > 0 && d >= 0 && 0 <= c < d / u
    ensures TruncDiv(d - c * u, u) == d / u - c
  {
    var t := d / u;
    assert d == t * u + d % u;
    assert d - c * u == (t - c) * u + d % u;
    MulLe(c, t, u);
    DivUnique(d - c * u, u, t - c, d % u);
  }

  /** The last of the synthesised candles leaves no gap before the candle that follows. */
  lemma NoGapAfterFillsInt(d: int, u: int, a: int)
    requires u > 0 && a > 0 && GapsOf(d, u, a) > 0.0
    ensures !(GapsOf(d - (IterCount(GapsOf(d, u, a)) * a) * u, u, a) > 0.0)
  {
    var t := TruncDiv(d, u);
    GapsOfPositive(d, u, a);
    assert d >= 0 && t == d / u && t > a;
    IterCountOfGaps(t, a);
    var n := IterCount(GapsOf(d, u, a));
    assert n == (t - 1) / a;
    StepsBound(t, a);
    LeftoverUnits(d, u, n * a);
    GapsOfPositive(d - (n * a) * u, u, a);
  }

  /** The k-th synthesised candle (k >= 1) after `last`: flat at last's close, no volume. */
  function FillKline(last: Kline, k: nat, p: int): Kline
  {
    Kline(last.time + k * p, last.close, last.close, last.close, last.close, 0.0)
  }

  /** The n candles that follow `last`, p ms apart. */
  function Fills(last: Kline, n: nat, p: int): (r: seq<Kline>)
    ensures |r| == n
    ensures forall k :: 0 <= k < n ==> r[k] == FillKline(last, k + 1, p)
  {
    seq(n, k requires 0 <= k < n => FillKline(last, k + 1, p))
  }

  lemma FillsSnoc(last: Kline, n: nat, p: int)
    ensures Fills(last, n + 1, p) == Fills(last, n, p) + [FillKline(last, n + 1, p)]
  {
  }

  /** `generateMissingKlines`: as many candles as the loop `i < gaps` runs, the k-th one
      k periods after `last`, flat at last's close with zero volume. */
  method GenerateMissingKlines(last: Kline, gaps: real, tf: string) returns (r: seq<Kline>)
    requires FixedWidthTf(tf)
    ensures |r| == IterCount(gaps)
    ensures gaps == 0.0 ==> r == []
    ensures forall k :: 0 <= k < |r| ==>
      r[k].time == last.time + (k + 1) * Period(tf) &&
      r[k].open == r[k].high == r[k].low == r[k].close == last.close && r[k].volume == 0.0
    ensures r == Fills(last, IterCount(gaps), Period(tf))
  {
    if gaps == 0.0 {
      return [];
    }
    ghost var p := Period(tf);
    r := [];
    var lastKline := last;
    var i := 0;
    IterCountIff(gaps, 0);
    while (i as real) < gaps
      invariant 0 <= i <= IterCount(gaps)
      invariant r == Fills(last, i, p)
      invariant lastKline.time == last.time + i * p && lastKline.close == last.close
      decreases IterCount(gaps) - i
    {
      IterCountIff(gaps, i);
      var fill := lastKline.(time := lastKline.time + Amount(tf) * UnitMs(tf),
                             open := lastKline.close, high := lastKline.close,
                             low := lastKline.close, volume := 0.0);
      assert (i + 1) * p == i * p + p;
      assert fill == FillKline(last, i + 1, p);
      FillsSnoc(last, i, p);
      r := r + [fill];
      lastKline := fill;
      i := i + 1;
    }
    IterCountIff(gaps, i);
  }

  // ---------------------------------------------------------------------------
  // Filling a list. The definitions below take the time frame as its unit length u (ms)
  // and its amount a; the time frame's period is a * u.

  /** `klinesHasGaps` for a time frame of unit u and amount a. */
  predicate HasGapsUA(prev: int, next: int, u: int, a: int)
    requires u > 0 && a > 0
  {
    GapsOf(next - prev, u, a) > 0.0
  }

  lemma HasGapsIsUA(prev: int, next: int, tf: string)
    requires FixedWidthTf(tf)
    ensures GapsCount(prev, next, tf) == GapsOf(next - prev, UnitMs(tf), Amount(tf))
    ensures HasGaps(prev, next, tf) == HasGapsUA(prev, next, UnitMs(tf), Amount(tf))
  {
  }

  lemma MulAssoc(x: int, y: int, z: int)
    ensures x * (y * z) == (x * y) * z
  {
  }

  /** Candles one period apart never have a gap. */
  lemma NoGapOnePeriod(t: int, u: int, a: int)
    requires u > 0 && a > 0
    ensures !HasGapsUA(t, t + a * u, u, a)
  {
    GapsOfAligned(1, u, a);
  }

  /** The last synthesised candle has no gap to the candle that follows the gap. */
  lemma NoGapAfterFills(x: int, y: int, u: int, a: int)
    requires u > 0 && a > 0 && HasGapsUA(x, y, u, a)
    ensures !HasGapsUA(x + IterCount(GapsOf(y - x, u, a)) * (a * u), y, u, a)
  {
    var n := IterCount(GapsOf(y - x, u, a));
    NoGapAfterFillsInt(y - x, u, a);
    MulAssoc(n, a, u);
    assert y - (x + n * (a * u)) == (y - x) - (n * a) * u;
  }

  /** The candles inserted between two consecutive candles x and y. */
  function GapFill(x: Kline, y: Kline, u: int, a: int): seq<Kline>
    requires u > 0 && a > 0
  {
    if HasGapsUA(x.time, y.time, u, a) then Fills(x, IterCount(GapsOf(y.time - x.time, u, a)), a * u) else []
  }

  lemma GapFillOfGap(x: Kline, y: Kline, u: int, a: int)
    requires u > 0 && a > 0 && HasGapsUA(x.time, y.time, u, a)
    ensures GapFill(x, y, u, a) == Fills(x, IterCount(GapsOf(y.time - x.time, u, a)), a * u)
  {
  }

  lemma GapFillElems(x: Kline, y: Kline, u: int, a: int)
    requires u > 0 && a > 0
    ensures forall t :: 0 <= t < |GapFill(x, y, u, a)| ==> GapFill(x, y, u, a)[t] == FillKline(x, t + 1, a * u)
  {
  }

  /** The filled list: each original candle preceded by the candles missing since the
      previous original. */
  function FillSpecUA(list: seq<Kline>, u: int, a: int): (r: seq<Kline>)
    requires u > 0 && a > 0
    ensures |r| >= |list|
    ensures |list| > 0 ==> |r| > 0 && r[|r| - 1] == list[|list| - 1]
  {
    if |list| <= 1 then list
    else
      var init := list[..|list| - 1];
      FillSpecUA(init, u, a) + GapFill(init[|init| - 1], list[|list| - 1], u, a) + [list[|list| - 1]]
  }

  function FillSpec(list: seq<Kline>, tf: string): seq<Kline>
    requires FixedWidthTf(tf)
  {
    FillSpecUA(list, UnitMs(tf), Amount(tf))
  }

  /** No consecutive pair with a gap among positions lo..hi-1 (each with its predecessor). */
  predicate NoGapsBetween(s: seq<Kline>, lo: int, hi: int, u: int, a: int)
    requires u > 0 && a > 0 && hi <= |s|
  {
    forall m :: 1 <= m && lo <= m < hi ==> !HasGapsUA(s[m - 1].time, s[m].time, u, a)
  }

  /** The scan's state: `clone` is the filled list of the first j originals followed by the
      rest of the originals, and candles before position i already have no gap in front. */
  predicate ScanInv(list: seq<Kline>, clone: seq<Kline>, i: int, j: int, u: int, a: int)
    requires u > 0 && a > 0
  {
    0 <= j <= |list| &&
    clone == FillSpecUA(list[..j], u, a) + list[j..] &&
    0 <= i <= |FillSpecUA(list[..j], u, a)| &&
    (i == 0 <==> j == 0) &&
    NoGapsBetween(clone, i, |FillSpecUA(list[..j], u, a)|, u, a)
  }

  /** `clone` after the scan's step at i: the missing candles spliced in front of clone[i]
      when it follows a gap. */
  function ScanSplice(clone: seq<Kline>, i: int, u: int, a: int): seq<Kline>
    requires u > 0 && a > 0 && 0 < i < |clone|
  {
    if HasGapsUA(clone[i - 1].time, clone[i].time, u, a)
    then clone[..i] + GapFill(clone[i - 1], clone[i], u, a) + clone[i..]
    else clone
  }

  lemma ScanStart(list: seq<Kline>, u: int, a: int)
    requires u > 0 && a > 0
    ensures ScanInv(list, list, 0, 0, u, a)
    ensures |list| > 0 ==> ScanInv(list, list, 1, 1, u, a)
  {
    assert list[..0] == [] && list[0..] == list;
    if |list| > 0 {
      assert list[..1] == [list[0]];
      assert [list[0]] + list[1..] == list;
    }
  }

  /** The scan has ended once i passes the end of clone: clone is then the filled list. */
  lemma ScanDone(list: seq<Kline>, clone: seq<Kline>, i: int, j: int, u: int, a: int)
    requires u > 0 && a > 0 && ScanInv(list, clone, i, j, u, a) && i >= |clone|
    ensures clone == FillSpecUA(list, u, a)
  {
    assert j == |list|;
    assert list[..j] == list;
  }

  /** One step of the scan keeps ScanInv; j advances exactly when i reaches the end of the
      current filled prefix, so the pair (|list| - j, |filled prefix| - i) decreases. */
  lemma ScanStep(list: seq<Kline>, clone: seq<Kline>, i: int, j: int, u: int, a: int) returns (j': int)
    requires u > 0 && a > 0 && ScanInv(list, clone, i, j, u, a) && 0 < i < |clone|
    ensures ScanInv(list, ScanSplice(clone, i, u, a), i + 1, j', u, a)
    ensures (j' == j && i < |FillSpecUA(list[..j], u, a)|) || j' == j + 1
  {
    if i < |FillSpecUA(list[..j], u, a)| {
      ScanKeep(list, clone, i, j, u, a);
      j' := j;
    } else {
      ScanAdvance(list, clone, i, j, u, a);
      j' := j + 1;
    }
  }

  /** Inside the filled prefix nothing is spliced and the scan moves on. */
  lemma ScanKeep(list: seq<Kline>, clone: seq<Kline>, i: int, j: int, u: int, a: int)
    requires u > 0 && a > 0 && ScanInv(list, clone, i, j, u, a) && 0 < i < |FillSpecUA(list[..j], u, a)|
    ensures i < |clone| && ScanSplice(clone, i, u, a) == clone
    ensures ScanInv(list, clone, i + 1, j, u, a)
  {
    assert !HasGapsUA(clone[i - 1].time, clone[i].time, u, a);
  }

  /** At the end of the filled prefix, the next original gets its missing candles in front
      and the filled prefix grows by one original. */
  lemma ScanAdvance(list: seq<Kline>, clone: seq<Kline>, i: int, j: int, u: int, a: int)
    requires u > 0 && a > 0 && ScanInv(list, clone, i, j, u, a) && 0 < i < |clone|
    requires i == |FillSpecUA(list[..j], u, a)|
    ensures ScanInv(list, ScanSplice(clone, i, u, a), i + 1, j + 1, u, a)
  {
    ProcessStep(list, j, u, a);
    SpliceAtEnd(list, clone, i, j, u, a);
  }

  /** The splice at the end of the filled prefix inserts exactly the gap fill between the
      last filled original and the next one. */
  lemma SpliceAtEnd(list: seq<Kline>, clone: seq<Kline>, i: int, j: int, u: int, a: int)
    requires u > 0 && a > 0 && ScanInv(list, clone, i, j, u, a) && 0 < i < |clone|
    requires i == |FillSpecUA(list[..j], u, a)|
    ensures ScanSplice(clone, i, u, a) == FillSpecUA(list[..j], u, a) + GapFill(list[j - 1], list[j], u, a) + list[j..]
  {
    var fs := FillSpecUA(list[..j], u, a);
    ProcessStep(list, j, u, a);
    var g := GapFill(list[j - 1], list[j], u, a);
    assert clone[i - 1] == list[j - 1] && clone[i] == list[j];
    assert clone[..i] == fs && clone[i..] == list[j..];
    if !HasGapsUA(clone[i - 1].time, clone[i].time, u, a) {
      assert g == [];
      assert fs + g == fs;
    }
  }


  /** `fillMissingKlines`: a scan over a copy of the list that splices the missing
      candles in front of each candle that follows a gap, and keeps scanning over the
      inserted candles. */
  method FillMissingKlines(list: seq<Kline>, tf: string) returns (clone: seq<Kline>)
    requires FixedWidthTf(tf)
    ensures clone == FillSpec(list, tf)
  {
    ghost var u, a := UnitMs(tf), Amount(tf);
    ScanStart(list, u, a);
    clone := list;
    var i := 0;
    ghost var j := 0;
    while i < |clone|
      invariant ScanInv(list, clone, i, j, u, a)
      decreases |list| - j, |FillSpecUA(list[..j], u, a)| - i
    {
      if i == 0 {
        assert j == 0 && clone == list;
        j := 1;
        i := i + 1;
        continue;
      }
      var previousKline := clone[i - 1];
      var k := clone[i];
      ghost var j' := ScanStep(list, clone, i, j, u, a);
      ghost var spliced := ScanSplice(clone, i, u, a);
      HasGapsIsUA(previousKline.time, k.time, tf);
      if HasGaps(previousKline.time, k.time, tf) {
        var gapsCount := GapsCount(previousKline.time, k.time, tf);
        var gapsFilledKlines := GenerateMissingKlines(previousKline, gapsCount, tf);
        assert gapsCount == GapsOf(k.time - previousKline.time, u, a);
        assert gapsFilledKlines == Fills(previousKline, IterCount(gapsCount), a * u);
        assert HasGapsUA(previousKline.time, k.time, u, a);
        GapFillOfGap(previousKline, k, u, a);
        clone := clone[..i] + gapsFilledKlines + clone[i..];
      }
      assert clone == spliced;
      j := j';
      i := i + 1;
    }
    ScanDone(list, clone, i, j, u, a);
  }

  lemma FillStep(list: seq<Kline>, j: nat, u: int, a: int)
    requires u > 0 && a > 0 && 0 < j < |list|
    ensures FillSpecUA(list[..j + 1], u, a) ==
      FillSpecUA(list[..j], u, a) + GapFill(list[j - 1], list[j], u, a) + [list[j]]
  {
    assert list[..j + 1][..j] == list[..j];
  }

  /** Inside the block appended for list[j], no consecutive pair has a gap. */
  lemma NewBlockNoGaps(list: seq<Kline>, j: nat, u: int, a: int)
    requires u > 0 && a > 0 && 0 < j < |list|
    ensures var fs := FillSpecUA(list[..j], u, a);
      var all := fs + GapFill(list[j - 1], list[j], u, a) + [list[j]];
      NoGapsBetween(all, |fs| + 1, |all|, u, a)
  {
    var fs := FillSpecUA(list[..j], u, a);
    var x, y := list[j - 1], list[j];
    var g := GapFill(x, y, u, a);
    var all := fs + g + [y];
    var p := a * u;
    forall m | 1 <= m && |fs| + 1 <= m < |all|
      ensures !HasGapsUA(all[m - 1].time, all[m].time, u, a)
    {
      var t := m - |fs|;
      assert HasGapsUA(x.time, y.time, u, a);
      assert all[m - 1] == g[t - 1] == FillKline(x, t, p);
      if t < |g| {
        assert all[m] == g[t] == FillKline(x, t + 1, p);
        MulSucc(t, p);
        NoGapOnePeriod(x.time + t * p, u, a);
      } else {
        assert all[m] == y;
        NoGapAfterFills(x.time, y.time, u, a);
      }
    }
  }

  /** Processing the original list[j]: its predecessor in the scan is list[j - 1], and
      splicing the missing candles in front of it yields the next prefix's filled list. */
  lemma ProcessStep(list: seq<Kline>, j: nat, u: int, a: int)
    requires u > 0 && a > 0 && 0 < j < |list|
    ensures var fs := FillSpecUA(list[..j], u, a);
      var clone := fs + list[j..];
      var next := FillSpecUA(list[..j + 1], u, a);
      |fs| > 0 && clone[|fs| - 1] == list[j - 1] && clone[|fs|] == list[j] &&
      clone[..|fs|] == fs && clone[|fs|..] == list[j..] &&
      next + list[j + 1..] == fs + GapFill(list[j - 1], list[j], u, a) + list[j..] &&
      NoGapsBetween(next + list[j + 1..], |fs| + 1, |next|, u, a)
  {
    ProcessHead(list, j, u, a);
    ProcessNext(list, j, u, a);
    ProcessNoGaps(list, j, u, a);
  }

  lemma ProcessHead(list: seq<Kline>, j: nat, u: int, a: int)
    requires u > 0 && a > 0 && 0 < j < |list|
    ensures var fs := FillSpecUA(list[..j], u, a);
      var clone := fs + list[j..];
      |fs| > 0 && clone[|fs| - 1] == list[j - 1] && clone[|fs|] == list[j] &&
      clone[..|fs|] == fs && clone[|fs|..] == list[j..]
  {
    var fs := FillSpecUA(list[..j], u, a);
    assert fs[|fs| - 1] == list[..j][j - 1];
  }

  lemma ProcessNext(list: seq<Kline>, j: nat, u: int, a: int)
    requires u > 0 && a > 0 && 0 < j < |list|
    ensures FillSpecUA(list[..j + 1], u, a) + list[j + 1..] ==
      FillSpecUA(list[..j], u, a) + GapFill(list[j - 1], list[j], u, a) + list[j..]
  {
    FillStep(list, j, u, a);
    AppendAt(FillSpecUA(list[..j], u, a) + GapFill(list[j - 1], list[j], u, a), list, j);
  }

  lemma ProcessNoGaps(list: seq<Kline>, j: nat, u: int, a: int)
    requires u > 0 && a > 0 && 0 < j < |list|
    ensures var next := FillSpecUA(list[..j + 1], u, a);
      NoGapsBetween(next + list[j + 1..], |FillSpecUA(list[..j], u, a)| + 1, |next|, u, a)
  {
    var fs := FillSpecUA(list[..j], u, a);
    FillStep(list, j, u, a);
    NewBlockNoGaps(list, j, u, a);
    var next := FillSpecUA(list[..j + 1], u, a);
    var all := next + list[j + 1..];
    forall m | 1 <= m && |fs| + 1 <= m < |next|
      ensures !HasGapsUA(all[m - 1].time, all[m].time, u, a)
    {
      assert all[m - 1] == next[m - 1] && all[m] == next[m];
    }
  }

  // ---------------------------------------------------------------------------
  // Properties of the filled list

  lemma {:induction false} FillSpecPrefix(list: seq<Kline>, k: nat, u: int, a: int)
    requires u > 0 && a > 0 && k <= |list|
    ensures FillSpecUA(list[..k], u, a) <= FillSpecUA(list, u, a)
    decreases |list|
  {
    if k < |list| {
      var init := list[..|list| - 1];
      assert init[..k] == list[..k];
      FillSpecPrefix(init, k, u, a);
    } else {
      assert list[..k] == list;
    }
  }

  /** Every original candle appears in the filled list, in the original order, at the
      position where its own prefix's filled list ends. */
  lemma OriginalsKept(list: seq<Kline>, k: nat, u: int, a: int)
    requires u > 0 && a > 0 && k < |list|
    ensures 0 < |FillSpecUA(list[..k + 1], u, a)| <= |FillSpecUA(list, u, a)|
    ensures FillSpecUA(list, u, a)[|FillSpecUA(list[..k + 1], u, a)| - 1] == list[k]
    ensures k + 1 < |list| ==> |FillSpecUA(list[..k + 1], u, a)| < |FillSpecUA(list[..k + 2], u, a)|
  {
    FillSpecPrefix(list, k + 1, u, a);
    var pre := FillSpecUA(list[..k + 1], u, a);
    assert list[..k + 1][k] == list[k];
    assert pre[|pre| - 1] == list[k];
    if k + 1 < |list| {
      FillStep(list, k + 1, u, a);
    }
  }

  /** k is a flat, volume-free candle at prev's close. */
  predicate FlatAfter(k: Kline, prev: Kline) {
    k.open == k.high == k.low == k.close == prev.close && k.volume == 0.0
  }

  /** Every candle of r is one of `list` or flat at the close of the candle before it. */
  predicate KeptOrFlat(r: seq<Kline>, list: seq<Kline>) {
    forall m {:trigger r[m]} :: 0 <= m < |r| ==> r[m] in list || (m > 0 && FlatAfter(r[m], r[m - 1]))
  }

  /** Appending fills after fs's last candle x, then a candle of `list`, keeps KeptOrFlat. */
  lemma KeptOrFlatAppend(fs: seq<Kline>, g: seq<Kline>, y: Kline, x: Kline, list: seq<Kline>, p: int)
    requires KeptOrFlat(fs, list) && |fs| > 0 && fs[|fs| - 1] == x && y in list
    requires forall t :: 0 <= t < |g| ==> g[t] == FillKline(x, t + 1, p)
    ensures KeptOrFlat(fs + g + [y], list)
  {
    var r := fs + g + [y];
    forall m | 0 <= m < |r|
      ensures r[m] in list || (m > 0 && FlatAfter(r[m], r[m - 1]))
    {
      if m < |fs| {
        assert r[m] == fs[m];
        assert fs[m] in list || (m > 0 && FlatAfter(fs[m], fs[m - 1]));
        if m > 0 {
          assert r[m - 1] == fs[m - 1];
        }
      } else if m < |fs| + |g| {
        var t := m - |fs|;
        assert r[m] == g[t] == FillKline(x, t + 1, p);
        if t == 0 {
          assert r[m - 1] == x;
        } else {
          assert r[m - 1] == g[t - 1] == FillKline(x, t, p);
        }
        assert FlatAfter(r[m], r[m - 1]);
      } else {
        assert r[m] == y;
      }
    }
  }

  lemma KeptOrFlatWiden(r: seq<Kline>, init: seq<Kline>, list: seq<Kline>)
    requires KeptOrFlat(r, init) && init <= list
    ensures KeptOrFlat(r, list)
  {
    forall m | 0 <= m < |r| && r[m] in init
      ensures r[m] in list
    {
      var i :| 0 <= i < |init| && init[i] == r[m];
      assert list[i] == r[m];
    }
  }

  /** Every candle of the filled list is an original or a flat, volume-free candle at the
      close of the candle before it. */
  lemma {:induction false} FillsAreFlat(list: seq<Kline>, u: int, a: int)
    requires u > 0 && a > 0
    ensures KeptOrFlat(FillSpecUA(list, u, a), list)
  {
    if |list| > 1 {
      var init := list[..|list| - 1];
      FillsAreFlat(init, u, a);
      var fs := FillSpecUA(init, u, a);
      var x, y := init[|init| - 1], list[|list| - 1];
      KeptOrFlatWiden(fs, init, list);
      GapFillElems(x, y, u, a);
      KeptOrFlatAppend(fs, GapFill(x, y, u, a), y, x, list, a * u);
    } else {
      var r := FillSpecUA(list, u, a);
      forall m | 0 <= m < |r|
        ensures r[m] in list
      {
      }
    }
  }

  /** Candles on multiples of p with strictly increasing times. */
  predicate AlignedIncreasing(list: seq<Kline>, p: int)
    requires p > 0
  {
    (forall i :: 0 <= i < |list| ==> list[i].time % p == 0) &&
    (forall i :: 0 < i < |list| ==> list[i - 1].time < list[i].time)
  }

  /** How many candles GapFill inserts between two aligned candles k periods apart. */
  lemma GapFillAligned(x: Kline, y: Kline, u: int, a: int, k: int)
    requires u > 0 && a > 0 && k >= 1 && y.time - x.time == k * (a * u)
    ensures |GapFill(x, y, u, a)| == k - 1
  {
    MulAssoc(k, a, u);
    GapsOfAligned(k, u, a);
    if k > 1 {
      TruncDivExact(k * a, u);
      IterCountOfGaps(k * a, a);
      assert k * a - 1 == (k - 1) * a + (a - 1);
      DivUnique(k * a - 1, a, k - 1, a - 1);
    }
  }

  lemma AlignedIncreasingInit(list: seq<Kline>, p: int)
    requires p > 0 && AlignedIncreasing(list, p) && |list| > 0
    ensures AlignedIncreasing(list[..|list| - 1], p)
  {
    var init := list[..|list| - 1];
    forall i | 0 < i < |init|
      ensures init[i - 1].time < init[i].time
    {
      assert init[i - 1] == list[i - 1] && init[i] == list[i];
    }
  }

  /** Consecutive candles of r are exactly p apart. */
  predicate Contiguous(r: seq<Kline>, p: int) {
    forall m {:trigger r[m]} :: 0 < m < |r| ==> r[m].time == r[m - 1].time + p
  }

  /** Appending the k - 1 fills after fs's last candle x, then y k periods after x, keeps
      the list contiguous. */
  lemma ContiguousAppend(fs: seq<Kline>, g: seq<Kline>, y: Kline, x: Kline, p: int, k: int)
    requires Contiguous(fs, p) && |fs| > 0 && fs[|fs| - 1] == x
    requires k >= 1 && |g| == k - 1 && y.time == x.time + k * p
    requires forall t :: 0 <= t < |g| ==> g[t] == FillKline(x, t + 1, p)
    ensures Contiguous(fs + g + [y], p)
  {
    var r := fs + g + [y];
    forall m | 0 < m < |r|
      ensures r[m].time == r[m - 1].time + p
    {
      if m < |fs| {
        assert r[m] == fs[m] && r[m - 1] == fs[m - 1];
      } else {
        ContiguousAppendTail(fs, g, y, x, p, k, m);
      }
    }
  }

  /** The joints after fs in ContiguousAppend: each fill, then y, one period after its
      predecessor. */
  lemma ContiguousAppendTail(fs: seq<Kline>, g: seq<Kline>, y: Kline, x: Kline, p: int, k: int, m: int)
    requires |fs| > 0 && fs[|fs| - 1] == x
    requires k >= 1 && |g| == k - 1 && y.time == x.time + k * p
    requires forall t :: 0 <= t < |g| ==> g[t] == FillKline(x, t + 1, p)
    requires |fs| <= m <= |fs| + |g|
    ensures (fs + g + [y])[m].time == (fs + g + [y])[m - 1].time + p
  {
    var r := fs + g + [y];
    var t := m - |fs|;
    var prev := if t == 0 then x else g[t - 1];
    assert r[m - 1] == prev;
    assert prev.time == x.time + t * p;
    if t < |g| {
      assert r[m] == g[t];
    } else {
      assert r[m] == y;
    }
    MulSucc(t, p);
  }


  /** A contiguous list spans (|r| - 1) periods. */
  lemma {:induction false} ContiguousSpan(r: seq<Kline>, p: int)
    requires Contiguous(r, p) && |r| > 0
    ensures r[|r| - 1].time == r[0].time + (|r| - 1) * p
    decreases |r|
  {
    if |r| > 1 {
      var init := r[..|r| - 1];
      assert Contiguous(init, p) by {
        forall m | 0 < m < |init|
          ensures init[m].time == init[m - 1].time + p
        {
          assert init[m] == r[m] && init[m - 1] == r[m - 1];
        }
      }
      ContiguousSpan(init, p);
      assert r[|r| - 1].time == r[|r| - 2].time + p;
      assert (|r| - 1) * p == (|r| - 2) * p + p;
    }
  }

  /** For aligned, strictly increasing input, consecutive candles of the filled list are
      exactly one period apart, and the filled list starts with the first original. */
  lemma {:induction false} FillSpecContiguous(list: seq<Kline>, u: int, a: int)
    requires u > 0 && a > 0 && AlignedIncreasing(list, a * u) && |list| > 0
    ensures Contiguous(FillSpecUA(list, u, a), a * u)
    ensures FillSpecUA(list, u, a)[0] == list[0]
  {
    if |list| > 1 {
      var p := a * u;
      var init := list[..|list| - 1];
      AlignedIncreasingInit(list, p);
      FillSpecContiguous(init, u, a);
      var fs := FillSpecUA(init, u, a);
      var x, y := init[|init| - 1], list[|list| - 1];
      assert x == list[|list| - 2];
      var k := AlignedDistance(x.time, y.time, p);
      GapFillAligned(x, y, u, a, k);
      GapFillElems(x, y, u, a);
      ContiguousAppend(fs, GapFill(x, y, u, a), y, x, p, k);
    }
  }

  /** So the filled list covers first..last with nothing missing: it holds exactly one
      candle per period between the first and the last original. */
  lemma FillSpecSpan(list: seq<Kline>, u: int, a: int)
    requires u > 0 && a > 0 && AlignedIncreasing(list, a * u) && |list| > 0
    ensures var r := FillSpecUA(list, u, a);
      r[0] == list[0] && r[|r| - 1] == list[|list| - 1] &&
      list[|list| - 1].time == list[0].time + (|r| - 1) * (a * u)
  {
    FillSpecContiguous(list, u, a);
    ContiguousSpan(FillSpecUA(list, u, a), a * u);
  }

  /** Two aligned times t0 < t1 are a whole number k >= 1 of periods apart. */
  lemma AlignedDistance(t0: int, t1: int, p: int) returns (k: int)
    requires p > 0 && t0 % p == 0 && t1 % p == 0 && t0 < t1
    ensures k >= 1 && t1 - t0 == k * p
  {
    var q0, q1 := t0 / p, t1 / p;
    assert t0 == q0 * p && t1 == q1 * p;
    k := q1 - q0;
    assert t1 - t0 == k * p;
    if k < 1 {
      MulLe(k, 0, p);
    }
  }
}
