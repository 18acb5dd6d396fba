/** Time-frame tokens such as `5m`: an amount followed by a one-character unit
    (s, m, h, d, w, M, y). Parsing to milliseconds, metadata extraction, the canonical
    ordering of a list of tokens, de-duplication of strings and slash removal. */
module TimeFrames {
  import opened Common
  import opened Strings

  /** `{ unit, amount }`: the unit is the last character ("" for the empty token),
      the amount is `+prefix`, None standing for NaN. */
  datatype TfMeta = TfMeta(unit: string, amount: Option<nat>)

  function GetTfMetadata(tf: string): (m: TfMeta)
  {
    if tf == [] then TfMeta("", Some(0))
    else TfMeta([tf[|tf| - 1]], ToNumber(tf[..|tf| - 1]))
  }

  /** Seconds per unit; months are 30 days and years 365 days. */
  function UnitSeconds(unit: string): Option<nat>
  {
    if unit == "y" then Some(60 * 60 * 24 * 365)
    else if unit == "M" then Some(60 * 60 * 24 * 30)
    else if unit == "w" then Some(60 * 60 * 24 * 7)
    else if unit == "d" then Some(60 * 60 * 24)
    else if unit == "h" then Some(60 * 60)
    else if unit == "m" then Some(60)
    else if unit == "s" then Some(1)
    else None
  }

  /** `parseTimeFrameToMs`: amount x scale x 1000; an unknown unit throws; a non-numeric
      amount yields NaN, written Ok(None). */
  function ParseTimeFrameToMs(tf: string): Result<Option<nat>>
  {
    var amount := ToNumber(if tf == [] then "" else tf[..|tf| - 1]);
    var unit := if tf == [] then "" else [tf[|tf| - 1]];
    match UnitSeconds(unit)
    case None => Err(UnsupportedUnit)
    case Some(scale) =>
      match amount
      case None => Ok(None)
      case Some(a) => Ok(Some(a * scale * 1000))
  }

  /** parseTimeFrameToMs agrees with the metadata: amount x scale(unit) x 1000, and it
      throws exactly when the metadata's unit has no scale. */
  lemma ParseAgreesWithMetadata(tf: string)
    ensures var m := GetTfMetadata(tf);
      match UnitSeconds(m.unit)
      case None => ParseTimeFrameToMs(tf) == Err(UnsupportedUnit)
      case Some(scale) =>
        ParseTimeFrameToMs(tf) == Ok(if m.amount.Some? then Some(m.amount.value * scale * 1000) else None)
  {
  }

  lemma FiveMinutesExample()
    ensures GetTfMetadata("5m") == TfMeta("m", Some(5))
    ensures ParseTimeFrameToMs("5m") == Ok(Some(300000))
  {
    assert "5m"[..1] == "5";
  }

  /** The units parseTimeFrameToMs knows. */
  predicate KnownUnit(c: char) {
    c == 's' || c == 'm' || c == 'h' || c == 'd' || c == 'w' || c == 'M' || c == 'y'
  }

  /** Seconds per unit character (0 for an unknown one). */
  function CharSeconds(c: char): nat
  {
    if c == 'y' then 31536000
    else if c == 'M' then 2592000
    else if c == 'w' then 604800
    else if c == 'd' then 86400
    else if c == 'h' then 3600
    else if c == 'm' then 60
    else if c == 's' then 1
    else 0
  }

  lemma UnitSecondsOfChar(c: char)
    ensures UnitSeconds([c]) == if KnownUnit(c) then Some(CharSeconds(c)) else None
    ensures KnownUnit(c) ==> CharSeconds(c) > 0
  {
  }

  /** A token the pipeline can compute with: a known unit after a positive decimal amount. */
  predicate ValidTf(tf: string) {
    |tf| >= 2 && KnownUnit(tf[|tf| - 1]) && IsDigits(tf[..|tf| - 1]) && DigitsValue(tf[..|tf| - 1]) > 0
  }

  function Amount(tf: string): (a: nat)
    requires ValidTf(tf)
    ensures a > 0
  {
    DigitsValue(tf[..|tf| - 1])
  }

  function UnitMs(tf: string): (u: nat)
    requires ValidTf(tf)
    ensures u > 0
  {
    CharSeconds(tf[|tf| - 1]) * 1000
  }

  /** The time frame's length in milliseconds. */
  function Period(tf: string): (p: nat)
    requires ValidTf(tf)
    ensures p > 0
  {
    MulPositive(Amount(tf), UnitMs(tf));
    Amount(tf) * UnitMs(tf)
  }

  lemma MulPositive(a: int, b: int)
    requires a > 0 && b > 0
    ensures a * b > 0
  {
  }

  /** ValidTf holds exactly when parseTimeFrameToMs returns a positive number of
      milliseconds, and that number is the period. */
  lemma ValidTfIff(tf: string)
    ensures ValidTf(tf) <==> ParseTimeFrameToMs(tf).Ok? && ParseTimeFrameToMs(tf).value.Some? &&
                             ParseTimeFrameToMs(tf).value.value > 0
    ensures ValidTf(tf) ==> ParseTimeFrameToMs(tf) == Ok(Some(Period(tf)))
  {
    if |tf| > 0 {
      var c := tf[|tf| - 1];
      var pre := tf[..|tf| - 1];
      UnitSecondsOfChar(c);
      if KnownUnit(c) && ToNumber(pre).Some? {
        var a := ToNumber(pre).value;
        MulAssocNat(a, CharSeconds(c), 1000);
        if a > 0 {
          MulPositive(a, CharSeconds(c) * 1000);
          assert pre != [];
        }
      }
    }
  }

  lemma MulAssocNat(a: nat, b: nat, c: nat)
    ensures a * b * c == a * (b * c)
  {
  }

  /** Units whose length in milliseconds never varies (gap arithmetic is exact for them). */
  predicate FixedWidthTf(tf: string) {
    ValidTf(tf) && (tf[|tf| - 1] == 's' || tf[|tf| - 1] == 'm' || tf[|tf| - 1] == 'h' ||
                    tf[|tf| - 1] == 'd' || tf[|tf| - 1] == 'w')
  }

  // ---------------------------------------------------------------------------
  // orderTFs

  /** Position of a unit in s < m < h < d < w < M < y. */
  function UnitRank(unit: string): Option<nat>
  {
    if unit == "s" then Some(0)
    else if unit == "m" then Some(1)
    else if unit == "h" then Some(2)
    else if unit == "d" then Some(3)
    else if unit == "w" then Some(4)
    else if unit == "M" then Some(5)
    else if unit == "y" then Some(6)
    else None
  }

  function UnitChar(k: nat): char
    requires k < 7
  {
    ['s', 'm', 'h', 'd', 'w', 'M', 'y'][k]
  }

  lemma RankOfUnitChar(k: nat)
    requires k < 7
    ensures UnitRank([UnitChar(k)]) == Some(k)
  {
  }

  /** Tokens of a known unit carry a numeric amount (a NaN amount would make the source's
      numeric comparator inconsistent). */
  predicate WellFormedTokens(tfs: seq<string>) {
    forall i :: 0 <= i < |tfs| ==>
      UnitRank(GetTfMetadata(tfs[i]).unit).Some? ==> GetTfMetadata(tfs[i]).amount.Some?
  }

  /** The amounts pushed into the bucket of rank k, in input order. */
  function AmountsOf(tfs: seq<string>, k: nat): seq<nat>
    requires WellFormedTokens(tfs)
  {
    if tfs == [] then []
    else
      var init := AmountsOf(tfs[..|tfs| - 1], k);
      var m := GetTfMetadata(tfs[|tfs| - 1]);
      if UnitRank(m.unit) == Some(k) then init + [m.amount.value] else init
  }

  predicate SortedNats(s: seq<nat>) {
    forall i, j :: 0 <= i < j < |s| ==> s[i] <= s[j]
  }

  function Insert(x: nat, s: seq<nat>): (r: seq<nat>)
  {
    if s == [] || x <= s[0] then [x] + s else [s[0]] + Insert(x, s[1..])
  }

  /** The numeric `sort((a, b) => a - b)`. */
  function Sort(s: seq<nat>): (r: seq<nat>)
  {
    if s == [] then [] else Insert(s[0], Sort(s[1..]))
  }

  lemma {:induction false} InsertMultiset(x: nat, s: seq<nat>)
    ensures multiset(Insert(x, s)) == multiset(s) + multiset{x}
  {
    if s != [] && x > s[0] {
      InsertMultiset(x, s[1..]);
      assert s == [s[0]] + s[1..];
    }
  }

  /** Inserting a value no smaller than a bound of s gives a sequence with that bound. */
  lemma {:induction false} InsertBounded(x: nat, s: seq<nat>, m: nat)
    requires m <= x && forall i :: 0 <= i < |s| ==> m <= s[i]
    ensures forall i :: 0 <= i < |Insert(x, s)| ==> m <= Insert(x, s)[i]
  {
    if s != [] && x > s[0] {
      InsertBounded(x, s[1..], m);
    }
  }

  lemma {:induction false} InsertSorted(x: nat, s: seq<nat>)
    requires SortedNats(s)
    ensures SortedNats(Insert(x, s))
  {
    if s != [] && x > s[0] {
      InsertSorted(x, s[1..]);
      InsertBounded(x, s[1..], s[0]);
      var t := Insert(x, s[1..]);
      var r := [s[0]] + t;
      forall i, j | 0 <= i < j < |r|
        ensures r[i] <= r[j]
      {
        assert r[j] == t[j - 1];
        if i > 0 {
          assert r[i] == t[i - 1];
        }
      }
    }
  }

  lemma {:induction false} SortProps(s: seq<nat>)
    ensures SortedNats(Sort(s))
    ensures multiset(Sort(s)) == multiset(s)
  {
    if s != [] {
      SortProps(s[1..]);
      InsertSorted(s[0], Sort(s[1..]));
      InsertMultiset(s[0], Sort(s[1..]));
      assert s == [s[0]] + s[1..];
    }
  }

  lemma {:induction false} SortKeepsSorted(s: seq<nat>)
    requires SortedNats(s)
    ensures Sort(s) == s
  {
    if s != [] {
      SortKeepsSorted(s[1..]);
    }
  }

  lemma SortLength(s: seq<nat>)
    ensures |Sort(s)| == |s|
  {
    SortProps(s);
    assert |multiset(Sort(s))| == |multiset(s)|;
  }

  function Token(a: nat, k: nat): string
    requires k < 7
  {
    NatToString(a) + [UnitChar(k)]
  }

  /** `amounts.map((u) => \`${u}<unit>\`)`. */
  function Render(amounts: seq<nat>, k: nat): (r: seq<string>)
    requires k < 7
    ensures |r| == |amounts|
    ensures forall i :: 0 <= i < |r| ==> r[i] == Token(amounts[i], k)
  {
    seq(|amounts|, i requires 0 <= i < |amounts| => Token(amounts[i], k))
  }

  /** The buckets of rank k..6, each sorted and rendered, concatenated. */
  function OrderedFrom(tfs: seq<string>, k: nat): seq<string>
    requires WellFormedTokens(tfs) && k <= 7
    decreases 7 - k
  {
    if k == 7 then [] else Render(Sort(AmountsOf(tfs, k)), k) + OrderedFrom(tfs, k + 1)
  }

  function OrderedTFs(tfs: seq<string>): seq<string>
    requires WellFormedTokens(tfs)
  {
    OrderedFrom(tfs, 0)
  }

  lemma AmountsOfStep(tfs: seq<string>, i: nat, k: nat)
    requires WellFormedTokens(tfs) && i < |tfs|
    ensures var m := GetTfMetadata(tfs[i]);
      AmountsOf(tfs[..i + 1], k) ==
        if UnitRank(m.unit) == Some(k) then AmountsOf(tfs[..i], k) + [m.amount.value] else AmountsOf(tfs[..i], k)
  {
    assert tfs[..i + 1][..i] == tfs[..i];
  }

  lemma BucketsPush(tfs: seq<string>, i: nat, buckets: seq<seq<nat>>, j: nat, pushed: seq<seq<nat>>)
    requires WellFormedTokens(tfs) && i < |tfs| && |buckets| == 7
    requires forall k :: 0 <= k < 7 ==> buckets[k] == AmountsOf(tfs[..i], k)
    requires UnitRank(GetTfMetadata(tfs[i]).unit) == Some(j)
    requires j < 7 && pushed == buckets[j := buckets[j] + [GetTfMetadata(tfs[i]).amount.value]]
    ensures forall k :: 0 <= k < 7 ==> pushed[k] == AmountsOf(tfs[..i + 1], k)
  {
    forall k | 0 <= k < 7
      ensures pushed[k] == AmountsOf(tfs[..i + 1], k)
    {
      AmountsOfStep(tfs, i, k);
    }
  }

  lemma BucketsSkip(tfs: seq<string>, i: nat, buckets: seq<seq<nat>>)
    requires WellFormedTokens(tfs) && i < |tfs| && |buckets| == 7
    requires forall k :: 0 <= k < 7 ==> buckets[k] == AmountsOf(tfs[..i], k)
    requires UnitRank(GetTfMetadata(tfs[i]).unit).None?
    ensures forall k :: 0 <= k < 7 ==> buckets[k] == AmountsOf(tfs[..i + 1], k)
  {
    forall k | 0 <= k < 7
      ensures buckets[k] == AmountsOf(tfs[..i + 1], k)
    {
      AmountsOfStep(tfs, i, k);
    }
  }

  /** The first pass of `orderTFs`: each token's amount is pushed into its unit's bucket. */
  method FillBuckets(tfs: seq<string>) returns (buckets: seq<seq<nat>>)
    requires WellFormedTokens(tfs)
    ensures |buckets| == 7
    ensures forall k :: 0 <= k < 7 ==> buckets[k] == AmountsOf(tfs, k)
  {
    buckets := [[], [], [], [], [], [], []];
    for i := 0 to |tfs|
      invariant |buckets| == 7
      invariant forall k :: 0 <= k < 7 ==> buckets[k] == AmountsOf(tfs[..i], k)
    {
      var m := GetTfMetadata(tfs[i]);
      match UnitRank(m.unit)
      case Some(j) =>
        var pushed := buckets[j := buckets[j] + [m.amount.value]];
        BucketsPush(tfs, i, buckets, j, pushed);
        buckets := pushed;
      case None =>
        BucketsSkip(tfs, i, buckets);
    }
    assert tfs[..|tfs|] == tfs;
  }

  /** `orderTFs`: buckets filled by one pass over the input, then sorted and concatenated. */
  method OrderTFs(tfs: seq<string>) returns (r: seq<string>)
    requires WellFormedTokens(tfs)
    ensures r == OrderedTFs(tfs)
  {
    var buckets := FillBuckets(tfs);
    r := [];
    for k := 0 to 7
      invariant r + OrderedFrom(tfs, k) == OrderedTFs(tfs)
    {
      var piece := Render(Sort(buckets[k]), k);
      OrderedFromStep(tfs, k);
      AppendAssoc(r, piece, OrderedFrom(tfs, k + 1));
      r := r + piece;
    }
  }

  lemma OrderedFromStep(tfs: seq<string>, k: nat)
    requires WellFormedTokens(tfs) && k < 7
    ensures OrderedFrom(tfs, k) == Render(Sort(AmountsOf(tfs, k)), k) + OrderedFrom(tfs, k + 1)
  {
  }

  /** The rank and amount a token carries as orderTFs reads them (-1 when absent). */
  function TokenRank(t: string): int {
    match UnitRank(GetTfMetadata(t).unit)
    case None => -1
    case Some(k) => k
  }

  function TokenAmount(t: string): int {
    match GetTfMetadata(t).amount
    case None => -1
    case Some(a) => a
  }

  /** Order by unit rank, then by amount. */
  predicate TokenLe(a: string, b: string) {
    TokenRank(a) < TokenRank(b) || (TokenRank(a) == TokenRank(b) && TokenAmount(a) <= TokenAmount(b))
  }

  lemma TokenMetadata(a: nat, k: nat)
    requires k < 7
    ensures GetTfMetadata(Token(a, k)) == TfMeta([UnitChar(k)], Some(a))
    ensures UnitRank(GetTfMetadata(Token(a, k)).unit) == Some(k)
  {
    var t := Token(a, k);
    assert t[..|t| - 1] == NatToString(a);
    NumberOfNatToString(a);
  }

  lemma {:induction false} OrderedFromProps(tfs: seq<string>, k: nat)
    requires WellFormedTokens(tfs) && k <= 7
    ensures forall i :: 0 <= i < |OrderedFrom(tfs, k)| ==> TokenRank(OrderedFrom(tfs, k)[i]) >= k
    ensures forall i, j :: 0 <= i < j < |OrderedFrom(tfs, k)| ==>
      TokenLe(OrderedFrom(tfs, k)[i], OrderedFrom(tfs, k)[j])
    decreases 7 - k
  {
    if k < 7 {
      OrderedFromProps(tfs, k + 1);
      var s := Sort(AmountsOf(tfs, k));
      SortProps(AmountsOf(tfs, k));
      var head := Render(s, k);
      var tail := OrderedFrom(tfs, k + 1);
      forall i | 0 <= i < |head|
        ensures TokenRank(head[i]) == k && TokenAmount(head[i]) == s[i]
      {
        TokenMetadata(s[i], k);
      }
      assert OrderedFrom(tfs, k) == head + tail;
    }
  }

  /** orderTFs output is sorted by unit rank, then amount. */
  lemma OrderedTFsSorted(tfs: seq<string>)
    requires WellFormedTokens(tfs)
    ensures forall i, j :: 0 <= i < j < |OrderedTFs(tfs)| ==>
      TokenLe(OrderedTFs(tfs)[i], OrderedTFs(tfs)[j])
  {
    OrderedFromProps(tfs, 0);
  }

  /** Number of tokens with a known unit. */
  function CountKnown(tfs: seq<string>): nat
  {
    if tfs == [] then 0
    else CountKnown(tfs[..|tfs| - 1]) + if UnitRank(GetTfMetadata(tfs[|tfs| - 1]).unit).Some? then 1 else 0
  }

  function SizeFrom(tfs: seq<string>, k: nat): nat
    requires WellFormedTokens(tfs) && k <= 7
    decreases 7 - k
  {
    if k == 7 then 0 else |AmountsOf(tfs, k)| + SizeFrom(tfs, k + 1)
  }

  lemma {:induction false} SizeFromIsLength(tfs: seq<string>, k: nat)
    requires WellFormedTokens(tfs) && k <= 7
    ensures |OrderedFrom(tfs, k)| == SizeFrom(tfs, k)
    decreases 7 - k
  {
    if k < 7 {
      SizeFromIsLength(tfs, k + 1);
      SortLength(AmountsOf(tfs, k));
    }
  }

  lemma {:induction false} SizeFromStep(tfs: seq<string>, k: nat)
    requires WellFormedTokens(tfs) && |tfs| > 0 && k <= 7
    ensures var rank := UnitRank(GetTfMetadata(tfs[|tfs| - 1]).unit);
      SizeFrom(tfs, k) == SizeFrom(tfs[..|tfs| - 1], k) + if rank.Some? && rank.value >= k then 1 else 0
    decreases 7 - k
  {
    if k < 7 {
      SizeFromStep(tfs, k + 1);
    }
  }

  lemma {:induction false} SizeIsCountKnown(tfs: seq<string>)
    requires WellFormedTokens(tfs)
    ensures SizeFrom(tfs, 0) == CountKnown(tfs)
  {
    if tfs != [] {
      SizeIsCountKnown(tfs[..|tfs| - 1]);
      SizeFromStep(tfs, 0);
    }
  }

  /** orderTFs drops exactly the tokens of an unknown unit. */
  lemma OrderedTFsLength(tfs: seq<string>)
    requires WellFormedTokens(tfs)
    ensures |OrderedTFs(tfs)| == CountKnown(tfs)
  {
    SizeFromIsLength(tfs, 0);
    SizeIsCountKnown(tfs);
  }

  lemma {:induction false} AmountsOfConcat(a: seq<string>, b: seq<string>, k: nat)
    requires WellFormedTokens(a) && WellFormedTokens(b)
    ensures WellFormedTokens(a + b)
    ensures AmountsOf(a + b, k) == AmountsOf(a, k) + AmountsOf(b, k)
    decreases |b|
  {
    if b != [] {
      var b' := b[..|b| - 1];
      assert (a + b)[..|a + b| - 1] == a + b';
      AmountsOfConcat(a, b', k);
    } else {
      assert a + b == a;
    }
  }

  lemma RenderWellFormed(amounts: seq<nat>, j: nat)
    requires j < 7
    ensures WellFormedTokens(Render(amounts, j))
    ensures forall i :: 0 <= i < |amounts| ==>
      GetTfMetadata(Render(amounts, j)[i]) == TfMeta([UnitChar(j)], Some(amounts[i]))
  {
    forall i | 0 <= i < |amounts|
      ensures GetTfMetadata(Render(amounts, j)[i]) == TfMeta([UnitChar(j)], Some(amounts[i]))
    {
      TokenMetadata(amounts[i], j);
    }
  }

  /** Tokens that all carry unit j fill bucket j with their amounts, in order, and no other. */
  lemma {:induction false} AmountsOfUniform(tfs: seq<string>, amounts: seq<nat>, j: nat, k: nat)
    requires j < 7 && |tfs| == |amounts|
    requires Uniform(tfs, amounts, j)
    ensures WellFormedTokens(tfs)
    ensures AmountsOf(tfs, k) == if j == k then amounts else []
    decreases |tfs|
  {
    UniformWellFormed(tfs, amounts, j);
    if tfs != [] {
      var n := |tfs| - 1;
      UniformPrefix(tfs, amounts, j, n);
      AmountsOfUniform(tfs[..n], amounts[..n], j, k);
      AmountsOfLast(tfs, k);
      RankOfUnitChar(j);
      assert GetTfMetadata(tfs[n]) == TfMeta([UnitChar(j)], Some(amounts[n]));
      if j == k {
        assert amounts == amounts[..n] + [amounts[n]];
      }
    }
  }

  /** Every token carries unit j, with the matching amount. */
  predicate Uniform(tfs: seq<string>, amounts: seq<nat>, j: nat)
    requires j < 7 && |tfs| == |amounts|
  {
    forall i :: 0 <= i < |tfs| ==> GetTfMetadata(tfs[i]) == TfMeta([UnitChar(j)], Some(amounts[i]))
  }

  lemma UniformWellFormed(tfs: seq<string>, amounts: seq<nat>, j: nat)
    requires j < 7 && |tfs| == |amounts| && Uniform(tfs, amounts, j)
    ensures WellFormedTokens(tfs)
  {
    RankOfUnitChar(j);
  }

  lemma UniformPrefix(tfs: seq<string>, amounts: seq<nat>, j: nat, n: nat)
    requires j < 7 && |tfs| == |amounts| && Uniform(tfs, amounts, j) && n <= |tfs|
    ensures Uniform(tfs[..n], amounts[..n], j)
  {
    forall i | 0 <= i < n
      ensures GetTfMetadata(tfs[..n][i]) == TfMeta([UnitChar(j)], Some(amounts[..n][i]))
    {
      assert tfs[..n][i] == tfs[i] && amounts[..n][i] == amounts[i];
    }
  }

  /** One unfolding of AmountsOf: the last token's amount joins bucket k when its unit has
      rank k. */
  lemma AmountsOfLast(tfs: seq<string>, k: nat)
    requires WellFormedTokens(tfs) && tfs != []
    ensures WellFormedTokens(tfs[..|tfs| - 1])
    ensures var m := GetTfMetadata(tfs[|tfs| - 1]);
      AmountsOf(tfs, k) == AmountsOf(tfs[..|tfs| - 1], k) + (if UnitRank(m.unit) == Some(k) then [m.amount.value] else [])
  {
  }

  lemma AmountsOfRender(amounts: seq<nat>, j: nat, k: nat)
    requires j < 7
    ensures WellFormedTokens(Render(amounts, j))
    ensures AmountsOf(Render(amounts, j), k) == if j == k then amounts else []
  {
    RenderWellFormed(amounts, j);
    AmountsOfUniform(Render(amounts, j), amounts, j, k);
  }

  lemma AmountsOfOrderedFrom(tfs: seq<string>, j: nat, k: nat)
    requires WellFormedTokens(tfs) && j <= 7
    ensures WellFormedTokens(OrderedFrom(tfs, j))
    ensures AmountsOf(OrderedFrom(tfs, j), k) == if j <= k < 7 then Sort(AmountsOf(tfs, k)) else []
  {
    OrderedFromWellFormed(tfs, j);
    if j <= k < 7 {
      BucketInOrderedFrom(tfs, j, k);
    } else {
      BucketNotInOrderedFrom(tfs, j, k);
    }
  }

  /** Bucket k (j <= k < 7) comes out of OrderedFrom(tfs, j) sorted. */
  lemma {:induction false} BucketInOrderedFrom(tfs: seq<string>, j: nat, k: nat)
    requires WellFormedTokens(tfs) && j <= k < 7
    ensures WellFormedTokens(OrderedFrom(tfs, j))
    ensures AmountsOf(OrderedFrom(tfs, j), k) == Sort(AmountsOf(tfs, k))
    decreases 7 - j
  {
    if j == k {
      BucketAtOwnRank(tfs, k);
    } else {
      BucketInOrderedFrom(tfs, j + 1, k);
      BucketPassedOver(tfs, j, k);
    }
  }

  /** Bucket k holds nothing in OrderedFrom(tfs, j) when k < j or k is not a rank. */
  lemma {:induction false} BucketNotInOrderedFrom(tfs: seq<string>, j: nat, k: nat)
    requires WellFormedTokens(tfs) && j <= 7 && (k < j || k >= 7)
    ensures WellFormedTokens(OrderedFrom(tfs, j))
    ensures AmountsOf(OrderedFrom(tfs, j), k) == []
    decreases 7 - j
  {
    OrderedFromWellFormed(tfs, j);
    if j < 7 {
      BucketNotInOrderedFrom(tfs, j + 1, k);
      BucketPassedOver(tfs, j, k);
    }
  }

  /** OrderedFrom(tfs, k) starts with bucket k, sorted, and holds no other amount of rank k. */
  lemma BucketAtOwnRank(tfs: seq<string>, k: nat)
    requires WellFormedTokens(tfs) && k < 7
    ensures WellFormedTokens(OrderedFrom(tfs, k))
    ensures AmountsOf(OrderedFrom(tfs, k), k) == Sort(AmountsOf(tfs, k))
  {
    BucketNotInOrderedFrom(tfs, k + 1, k);
    BucketsStep(tfs, k, k);
    var sorted := Sort(AmountsOf(tfs, k));
    assert sorted + [] == sorted;
  }

  /** The rendered bucket j adds nothing to bucket k != j. */
  lemma BucketPassedOver(tfs: seq<string>, j: nat, k: nat)
    requires WellFormedTokens(tfs) && j < 7 && j != k
    ensures WellFormedTokens(OrderedFrom(tfs, j)) && WellFormedTokens(OrderedFrom(tfs, j + 1))
    ensures AmountsOf(OrderedFrom(tfs, j), k) == AmountsOf(OrderedFrom(tfs, j + 1), k)
  {
    OrderedFromWellFormed(tfs, j + 1);
    BucketsStep(tfs, j, k);
    var rest := AmountsOf(OrderedFrom(tfs, j + 1), k);
    assert [] + rest == rest;
  }

  lemma {:induction false} OrderedFromWellFormed(tfs: seq<string>, j: nat)
    requires WellFormedTokens(tfs) && j <= 7
    ensures WellFormedTokens(OrderedFrom(tfs, j))
    decreases 7 - j
  {
    if j < 7 {
      OrderedFromWellFormed(tfs, j + 1);
      BucketsStep(tfs, j, 0);
    }
  }

  /** Bucket j rendered in front of the buckets j + 1..6, as seen by AmountsOf. */
  lemma BucketsStep(tfs: seq<string>, j: nat, k: nat)
    requires WellFormedTokens(tfs) && j < 7 && WellFormedTokens(OrderedFrom(tfs, j + 1))
    ensures WellFormedTokens(OrderedFrom(tfs, j))
    ensures AmountsOf(OrderedFrom(tfs, j), k) ==
      (if j == k then Sort(AmountsOf(tfs, j)) else []) + AmountsOf(OrderedFrom(tfs, j + 1), k)
  {
    var sorted := Sort(AmountsOf(tfs, j));
    var head := Render(sorted, j);
    AmountsOfRender(sorted, j, k);
    AmountsOfConcat(head, OrderedFrom(tfs, j + 1), k);
  }


  lemma {:induction false} OrderedFromSameBuckets(a: seq<string>, b: seq<string>, k: nat)
    requires WellFormedTokens(a) && WellFormedTokens(b) && k <= 7
    requires forall j :: k <= j < 7 ==> Sort(AmountsOf(a, j)) == Sort(AmountsOf(b, j))
    ensures OrderedFrom(a, k) == OrderedFrom(b, k)
    decreases 7 - k
  {
    if k < 7 {
      OrderedFromSameBuckets(a, b, k + 1);
    }
  }

  /** orderTFs applied to its own output returns the same list. */
  lemma OrderedTFsIdempotent(tfs: seq<string>)
    requires WellFormedTokens(tfs)
    ensures WellFormedTokens(OrderedTFs(tfs))
    ensures OrderedTFs(OrderedTFs(tfs)) == OrderedTFs(tfs)
  {
    var r := OrderedTFs(tfs);
    AmountsOfOrderedFrom(tfs, 0, 0);
    forall j | 0 <= j < 7
      ensures Sort(AmountsOf(r, j)) == Sort(AmountsOf(tfs, j))
    {
      AmountsOfOrderedFrom(tfs, 0, j);
      SortProps(AmountsOf(tfs, j));
      SortKeepsSorted(Sort(AmountsOf(tfs, j)));
    }
    OrderedFromSameBuckets(r, tfs, 0);
  }

  // ---------------------------------------------------------------------------
  // getDistinctStrings, removeSymbolSlash

  /** `[...new Set(strings)]`: each string at its first occurrence, in input order. */
  function Distinct(s: seq<string>): (r: seq<string>)
    ensures forall x :: x in r <==> x in s
  {
    if s == [] then []
    else
      var d := Distinct(s[..|s| - 1]);
      assert forall x :: x in s <==> x in s[..|s| - 1] || x == s[|s| - 1];
      if s[|s| - 1] in s[..|s| - 1] then d else d + [s[|s| - 1]]
  }

  /** Index of the first occurrence of x. */
  function Pos(s: seq<string>, x: string): (p: nat)
    requires x in s
    ensures p < |s| && s[p] == x && x !in s[..p]
  {
    if s[0] == x then 0 else 1 + Pos(s[1..], x)
  }

  lemma {:induction false} DistinctProps(s: seq<string>)
    ensures forall i, j :: 0 <= i < j < |Distinct(s)| ==> Distinct(s)[i] != Distinct(s)[j]
    ensures forall i, j :: 0 <= i < j < |Distinct(s)| ==> Pos(s, Distinct(s)[i]) < Pos(s, Distinct(s)[j])
  {
    if s != [] {
      var init := s[..|s| - 1];
      var x := s[|s| - 1];
      DistinctProps(init);
      forall y | y in init
        ensures Pos(s, y) == Pos(init, y)
      {
        PosPrefix(init, [x], y);
        assert s == init + [x];
      }
      if x !in init {
        assert s == init + [x];
        PosLast(init, x);
      }
    }
  }

  lemma {:induction false} PosPrefix(a: seq<string>, b: seq<string>, y: string)
    requires y in a
    ensures Pos(a + b, y) == Pos(a, y)
  {
    if a[0] != y {
      assert (a + b)[1..] == a[1..] + b;
      PosPrefix(a[1..], b, y);
    }
  }

  lemma PosLast(a: seq<string>, x: string)
    requires x !in a
    ensures Pos(a + [x], x) == |a|
  {
  }

  /** `sym.replace('/', '')`. */
  function RemoveSymbolSlash(sym: string): string
  {
    ReplaceFirst(sym, "/", "")
  }

  /** Only the first slash goes; later ones stay. */
  lemma RemoveSymbolSlashFirstOnly(a: string, b: string)
    requires '/' !in a
    ensures RemoveSymbolSlash(a + "/" + b) == a + b
  {
    var s := a + "/" + b;
    assert OccursAt(s, "/", |a|);
    forall k | 0 <= k < |a|
      ensures !OccursAt(s, "/", k)
    {
      assert s[k] == a[k];
    }
    FirstIndexIs(s, "/", |a|);
    assert s[..|a|] == a && s[|a| + 1..] == b;
  }

  lemma RemoveSymbolSlashNoSlash(a: string)
    requires '/' !in a
    ensures RemoveSymbolSlash(a) == a
  {
    forall k | 0 <= k <= |a|
      ensures !OccursAt(a, "/", k)
    {
      if k < |a| {
        assert a[k..k + 1] == [a[k]];
      }
    }
    ReplaceFirstAbsent(a, "/", "");
  }
}
