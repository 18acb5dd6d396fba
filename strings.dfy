/** The string operations the pipeline relies on, stated for `seq<char>`:
    JavaScript's `String.prototype.replace` with a string pattern (first occurrence only),
    `startsWith`/`endsWith`, ASCII lower-casing, number-to-string and string-to-number
    coercion for non-negative integers, and `split('~')` of request tickers. */
module Strings {
  import opened Common

  predicate StartsWith(s: string, prefix: string) {
    |prefix| <= |s| && s[..|prefix|] == prefix
  }

  predicate EndsWith(s: string, suffix: string) {
    |suffix| <= |s| && s[|s| - |suffix|..] == suffix
  }

  predicate OccursAt(s: string, pat: string, k: nat) {
    k + |pat| <= |s| && s[k..k + |pat|] == pat
  }

  /** Index of the first occurrence of pat in s, if any. */
  function FirstIndexOf(s: string, pat: string): (r: Option<nat>)
    ensures r.Some? ==> OccursAt(s, pat, r.value)
    ensures r.Some? ==> forall k :: 0 <= k < r.value ==> !OccursAt(s, pat, k)
    ensures r.None? ==> forall k :: 0 <= k <= |s| ==> !OccursAt(s, pat, k)
    decreases |s|
  {
    if OccursAt(s, pat, 0) then Some(0)
    else if |s| == 0 then None
    else
      match FirstIndexOf(s[1..], pat)
      case None =>
        NoOccurrenceShift(s, pat, |s| - 1);
        None
      case Some(k) =>
        OccursShift(s, pat, k);
        NoOccurrenceShift(s, pat, k - 1);
        Some(k + 1)
  }

  lemma OccursShift(s: string, pat: string, k: nat)
    requires k < |s|
    ensures OccursAt(s[1..], pat, k) <==> OccursAt(s, pat, k + 1)
  {
    if k + 1 + |pat| <= |s| {
      assert s[1..][k..k + |pat|] == s[k + 1..k + 1 + |pat|];
    }
  }

  /** No occurrence in s[1..] up to index n, and none at 0, means none in s up to n + 1. */
  lemma NoOccurrenceShift(s: string, pat: string, n: int)
    requires |s| > 0 && n < |s| && !OccursAt(s, pat, 0)
    requires forall k :: 0 <= k <= n ==> !OccursAt(s[1..], pat, k)
    ensures forall k :: 0 <= k <= n + 1 ==> !OccursAt(s, pat, k)
  {
    forall k | 1 <= k <= n + 1
      ensures !OccursAt(s, pat, k)
    {
      OccursShift(s, pat, k - 1);
    }
  }

  /** `s.replace(pat, rep)`: only the first occurrence of pat is replaced. */
  function ReplaceFirst(s: string, pat: string, rep: string): (r: string)
  {
    match FirstIndexOf(s, pat)
    case None => s
    case Some(k) => s[..k] + rep + s[k + |pat|..]
  }

  lemma ReplaceFirstAbsent(s: string, pat: string, rep: string)
    requires forall k :: 0 <= k <= |s| ==> !OccursAt(s, pat, k)
    ensures ReplaceFirst(s, pat, rep) == s
  {
  }

  /** A character that does not occur is not replaced. */
  lemma ReplaceAbsentChar(s: string, c: char, rep: string)
    requires c !in s
    ensures ReplaceFirst(s, [c], rep) == s
  {
    forall k | 0 <= k <= |s|
      ensures !OccursAt(s, [c], k)
    {
      if k < |s| {
        assert s[k..k + 1] == [s[k]];
      }
    }
  }

  /** Replacing a single character that occurs only as the final character drops or swaps it. */
  lemma {:induction false} ReplaceFinalChar(s: string, c: char, rep: string)
    requires c !in s
    ensures ReplaceFirst(s + [c], [c], rep) == s + rep
  {
    var t := s + [c];
    assert OccursAt(t, [c], |s|);
    forall k | 0 <= k < |s|
      ensures !OccursAt(t, [c], k)
    {
      assert t[k] == s[k];
    }
    FirstIndexIs(t, [c], |s|);
    assert t[..|s|] == s;
  }

  /** Any occurrence that has no earlier occurrence is the one FirstIndexOf finds. */
  lemma {:induction false} FirstIndexIs(s: string, pat: string, k: nat)
    requires OccursAt(s, pat, k)
    requires forall j :: 0 <= j < k ==> !OccursAt(s, pat, j)
    ensures FirstIndexOf(s, pat) == Some(k)
  {
  }

  function LowerChar(c: char): char {
    if 'A' <= c <= 'Z' then (c as int + 32) as char else c
  }

  /** `toLowerCase()` restricted to ASCII letters. */
  function ToLower(s: string): (r: string)
    ensures |r| == |s|
    ensures forall i :: 0 <= i < |s| ==> r[i] == LowerChar(s[i])
  {
    seq(|s|, i requires 0 <= i < |s| => LowerChar(s[i]))
  }

  predicate IsDigit(c: char) { '0' <= c <= '9' }

  predicate IsDigits(s: string) {
    |s| > 0 && forall i :: 0 <= i < |s| ==> IsDigit(s[i])
  }

  function DigitValue(c: char): nat
    requires IsDigit(c)
  {
    c as int - '0' as int
  }

  /** Decimal value of a non-empty string of digits (leading zeros allowed). */
  function DigitsValue(s: string): nat
    requires IsDigits(s)
  {
    if |s| == 1 then DigitValue(s[0])
    else DigitsValue(s[..|s| - 1]) * 10 + DigitValue(s[|s| - 1])
  }

  function DigitChar(d: nat): char
    requires d < 10
  {
    ('0' as int + d) as char
  }

  /** `n.toString()` for a non-negative integer. */
  function NatToString(n: nat): (r: string)
    ensures IsDigits(r)
  {
    if n < 10 then [DigitChar(n)] else NatToString(n / 10) + [DigitChar(n % 10)]
  }

  lemma {:induction false} NatToStringRoundTrip(n: nat)
    ensures DigitsValue(NatToString(n)) == n
  {
    if n >= 10 {
      var s := NatToString(n);
      assert s[..|s| - 1] == NatToString(n / 10);
      NatToStringRoundTrip(n / 10);
    }
  }

  lemma NatToStringHasNo(n: nat, c: char)
    requires !IsDigit(c)
    ensures c !in NatToString(n)
  {
  }

  /** JavaScript's unary `+s`, restricted to integer amounts: the empty string is 0, a
      string of decimal digits is its value, and anything else is taken as NaN (None). The
      decimal, signed, padded, exponent and hexadecimal strings that `+s` also reads as
      numbers are outside the model. */
  function ToNumber(s: string): (r: Option<nat>)
    ensures IsDigits(s) ==> r == Some(DigitsValue(s))
    ensures s != [] && !IsDigits(s) ==> r == None
  {
    if s == [] then Some(0)
    else if IsDigits(s) then Some(DigitsValue(s))
    else None
  }

  lemma NumberOfNatToString(n: nat)
    ensures ToNumber(NatToString(n)) == Some(n)
  {
    NatToStringRoundTrip(n);
  }

  /** `s.split(sep)` for a single-character separator. */
  function Split(s: string, sep: char): (r: seq<string>)
    ensures |r| >= 1
    ensures sep !in s ==> r == [s]
  {
    if s == [] then [[]]
    else
      var rest := Split(s[1..], sep);
      if s[0] == sep then [[]] + rest
      else
        assert sep !in s ==> [s[0]] + s[1..] == s;
        [[s[0]] + rest[0]] + rest[1..]
  }

  lemma {:induction false} SplitAppend(a: string, b: string, sep: char)
    requires sep !in a
    ensures Split(a + [sep] + b, sep) == [a] + Split(b, sep)
  {
    if a == [] {
      assert (a + [sep] + b)[1..] == b;
    } else {
      assert (a + [sep] + b)[1..] == a[1..] + [sep] + b;
      SplitAppend(a[1..], b, sep);
      assert [a[0]] + a[1..] == a;
    }
  }

  /** Splitting a ticker built as `x~y~z` gives back its three parts when none contains `~`. */
  lemma SplitThree(x: string, y: string, z: string)
    requires '~' !in x && '~' !in y && '~' !in z
    ensures Split(x + "~" + y + "~" + z, '~') == [x, y, z]
  {
    assert x + "~" + y + "~" + z == x + ['~'] + (y + ['~'] + z);
    SplitAppend(x, y + ['~'] + z, '~');
    SplitAppend(y, z, '~');
  }
}
