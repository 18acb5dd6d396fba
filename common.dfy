/** Shared value types: optional values, results carrying the source's error kinds,
    and the "last n elements" slice that JavaScript's `slice(-n)` / `splice(-n)` perform. */
module Common {

  datatype Option<+T> = None | Some(value: T)

  /** The error conditions the pipeline raises (thrown exceptions in the source). */
  datatype Failure =
    | UnsupportedUnit          // parseTimeFrameToMs on an unknown unit
    | UnknownTvResolution      // TradingView suffix that has no mapping
    | UnknownCcsResolution     // time-frame unit that has no TradingView mapping
    | ResampleUnsupported      // resampling a d/w/M/y time frame
    | BybitYearlyUnsupported   // bybit has no yearly klines
    | UnknownExchange          // no history loader for the market
    | NotImplemented           // bybit trade back-fill
    | ConfigNotInitialized     // scanner started without a configuration
    | ScannerNotStarted        // state manager started before the scanner
    | TypeError                // a property read on undefined/null

  datatype Result<+T> = Ok(value: T) | Err(error: Failure)

  /** `xs.slice(-n)` for a non-negative integer n: the last n elements, where
      `-0` is `0`, so n == 0 keeps everything. */
  function SliceLast<T>(xs: seq<T>, n: nat): (r: seq<T>)
    ensures n == 0 ==> r == xs
    ensures n > 0 ==> |r| == if n < |xs| then n else |xs|
    ensures r == xs[|xs| - |r|..]
  {
    if n == 0 || n >= |xs| then xs else xs[|xs| - n..]
  }

  lemma SliceLastMembers<T>(xs: seq<T>, n: nat)
    ensures forall x :: x in SliceLast(xs, n) ==> x in xs
  {
    var r := SliceLast(xs, n);
    forall x | x in r ensures x in xs {
      var k :| 0 <= k < |r| && r[k] == x;
      assert r[k] == xs[|xs| - |r| + k];
    }
  }

  function Last<T>(xs: seq<T>): T
    requires |xs| > 0
  {
    xs[|xs| - 1]
  }

  /** An element of a non-empty sequence is its last one or lies in the rest. */
  lemma InInitOrLast<T>(xs: seq<T>, x: T)
    requires x in xs
    ensures x in xs[..|xs| - 1] || x == xs[|xs| - 1]
  {
    var i :| 0 <= i < |xs| && xs[i] == x;
    if i < |xs| - 1 {
      assert xs[..|xs| - 1][i] == x;
    }
  }

  lemma AppendAssoc<T>(a: seq<T>, b: seq<T>, c: seq<T>)
    ensures a + (b + c) == a + b + c
  {
  }

  /** Putting s[j] back in front of s[j + 1..] after a prefix is appending s[j..]. */
  lemma AppendAt<T>(head: seq<T>, s: seq<T>, j: nat)
    requires j < |s|
    ensures head + [s[j]] + s[j + 1..] == head + s[j..]
  {
    assert s[j..] == [s[j]] + s[j + 1..];
    AppendAssoc(head, [s[j]], s[j + 1..]);
  }

  lemma MapSelfUpdate<K, V>(m: map<K, V>, k: K)
    requires k in m
    ensures m[k := m[k]] == m
  {
  }

  predicate NoDuplicates<T(==)>(xs: seq<T>) {
    forall i, j :: 0 <= i < j < |xs| ==> xs[i] != xs[j]
  }

  function Min(a: real, b: real): real { if a <= b then a else b }

  function Max(a: real, b: real): real { if a >= b then a else b }

  /** Removes every occurrence of x (the source's `filter(id => id !== x)`). */
  function RemoveAll<T(==, !new)>(xs: seq<T>, x: T): (r: seq<T>)
    ensures x !in r
    ensures forall y :: y in r <==> y in xs && y != x
    ensures |r| <= |xs|
  {
    if xs == [] then []
    else if xs[0] == x then RemoveAll(xs[1..], x)
    else [xs[0]] + RemoveAll(xs[1..], x)
  }
}
