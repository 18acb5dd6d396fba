/** Conversion between TradingView resolution strings (`15`, `120`, `1S`, `1D`, `1W`, `1M`)
    and the pipeline's time-frame tokens (`15m`, `2h`, `1s`, `1d`, `1w`, `1M`, `1y`). */
module Mapping {
  import opened Common
  import opened Strings
  import opened TimeFrames

  /** `(mins / 60).toFixed(0)` for a non-negative integer: halves round up. */
  function RoundedHours(mins: nat): (h: nat)
    ensures 60 * h <= mins + 30 < 60 * h + 60
  {
    (mins + 30) / 60
  }

  /** `mapMinutesToHoursIfNeeded`. */
  function MapMinutesToHoursIfNeeded(mins: nat): string
  {
    if mins >= 60 then NatToString(RoundedHours(mins)) + "h" else NatToString(mins) + "m"
  }

  /** `TradingViewResolutionToCCSResolution`: numeric strings are minutes; otherwise the last
      character selects the unit; an unknown suffix throws. */
  function TvToCcs(res: string): (r: Result<string>)
    ensures r.Err? <==> ToNumber(res).None? && res[|res| - 1] !in "SHhDWM"
    ensures r.Err? ==> r.error == UnknownTvResolution
  {
    match ToNumber(res)
    case Some(n) => Ok(MapMinutesToHoursIfNeeded(n))
    case None =>
      var u := res[|res| - 1];
      if u == 'S' then Ok(ReplaceFirst(res, "S", "") + "s")
      else if u == 'H' || u == 'h' then Ok(ReplaceFirst(ReplaceFirst(res, "h", ""), "H", "") + "h")
      else if u == 'D' then Ok(ReplaceFirst(res, "D", "") + "d")
      else if u == 'W' then Ok(ReplaceFirst(res, "W", "") + "w")
      else if u == 'M' then Ok(res)
      else Err(UnknownTvResolution)
  }

  /** `CCSResolutionToTradingViewResolution`; a NaN amount prints as `NaN`. */
  function CcsToTv(res: string): (r: Result<string>)
    ensures r.Err? <==> res == [] || res[|res| - 1] !in "smhdwMy"
    ensures r.Err? ==> r.error == UnknownCcsResolution
  {
    if res == [] then Err(UnknownCcsResolution)
    else
      var u := res[|res| - 1];
      if u == 's' then Ok(ReplaceFirst(res, "s", "S"))
      else if u == 'm' then Ok(ReplaceFirst(res, "m", ""))
      else if u == 'h' then
        Ok(match ToNumber(ReplaceFirst(res, "h", ""))
           case Some(n) => NatToString(n * 60)
           case None => "NaN")
      else if u == 'd' then Ok(ReplaceFirst(res, "d", "D"))
      else if u == 'w' then Ok(ReplaceFirst(res, "w", "W"))
      else if u == 'M' then Ok(res)
      else if u == 'y' then
        Ok(match ToNumber(Split(res, 'y')[0])
           case Some(n) => NatToString(12 * n) + "M"
           case None => "NaNM")
      else Err(UnknownCcsResolution)
  }

  /** `hoursToMinutes`: the token's amount times 60 (None for NaN). */
  function HoursToMinutes(tf: string): (r: Option<nat>)
  {
    match GetTfMetadata(tf).amount
    case None => None
    case Some(a) => Some(a * 60)
  }

  lemma HoursToMinutesOfToken(n: nat, u: char)
    requires !IsDigit(u)
    ensures HoursToMinutes(NatToString(n) + [u]) == Some(n * 60)
  {
    var t := NatToString(n) + [u];
    assert t[..|t| - 1] == NatToString(n);
    NumberOfNatToString(n);
  }

  lemma NotNumeric(n: nat, u: char)
    requires !IsDigit(u)
    ensures ToNumber(NatToString(n) + [u]) == None
  {
    var t := NatToString(n) + [u];
    assert !IsDigit(t[|t| - 1]);
  }

  /** A numeric TradingView resolution n is n minutes below 60 and rounded hours from 60 on. */
  lemma TvNumeric(n: nat)
    ensures TvToCcs(NatToString(n)) ==
      Ok(if n < 60 then NatToString(n) + "m" else NatToString(RoundedHours(n)) + "h")
  {
    NumberOfNatToString(n);
  }

  /** TradingView suffixes: S, H/h, D, W map to s, h, d, w; M is kept; others throw. */
  lemma TvSuffix(n: nat, u: char)
    requires !IsDigit(u)
    ensures u == 'S' ==> TvToCcs(NatToString(n) + [u]) == Ok(NatToString(n) + "s")
    ensures u == 'H' || u == 'h' ==> TvToCcs(NatToString(n) + [u]) == Ok(NatToString(n) + "h")
    ensures u == 'D' ==> TvToCcs(NatToString(n) + [u]) == Ok(NatToString(n) + "d")
    ensures u == 'W' ==> TvToCcs(NatToString(n) + [u]) == Ok(NatToString(n) + "w")
    ensures u == 'M' ==> TvToCcs(NatToString(n) + [u]) == Ok(NatToString(n) + "M")
    ensures u !in "SHhDWM" ==> TvToCcs(NatToString(n) + [u]) == Err(UnknownTvResolution)
  {
    var d := NatToString(n);
    var t := d + [u];
    NotNumeric(n, u);
    NatToStringHasNo(n, u);
    assert t[|t| - 1] == u;
    if u == 'H' {
      NatToStringHasNo(n, 'h');
      ReplaceAbsentChar(t, 'h', "");
      ReplaceFinalChar(d, u, "");
      assert ReplaceFirst(t, "h", "") == t;
      assert ReplaceFirst(t, [u], "") == d;
      assert TvToCcs(t) == Ok(ReplaceFirst(ReplaceFirst(t, "h", ""), "H", "") + "h");
    } else if u == 'h' {
      NatToStringHasNo(n, 'H');
      ReplaceAbsentChar(d, 'H', "");
      ReplaceFinalChar(d, u, "");
      assert ReplaceFirst(t, [u], "") == d;
      assert ReplaceFirst(d, "H", "") == d;
      assert TvToCcs(t) == Ok(ReplaceFirst(ReplaceFirst(t, "h", ""), "H", "") + "h");
    } else if u == 'W' {
      ReplaceFinalChar(d, u, "");
      assert ReplaceFirst(t, [u], "") == d;
      assert TvToCcs(t) == Ok(ReplaceFirst(t, "W", "") + "w");
    } else if u == 'S' {
      ReplaceFinalChar(d, u, "");
      assert ReplaceFirst(t, [u], "") == d;
      assert TvToCcs(t) == Ok(ReplaceFirst(t, "S", "") + "s");
    } else if u == 'D' {
      ReplaceFinalChar(d, u, "");
      assert ReplaceFirst(t, [u], "") == d;
      assert TvToCcs(t) == Ok(ReplaceFirst(t, "D", "") + "d");
    }
  }

  /** Pipeline tokens to TradingView: s to S, m dropped, h to minutes, d to D, w to W,
      M kept, y to 12 x amount months. */
  lemma CcsToTvOfToken(n: nat, u: char)
    requires !IsDigit(u)
    ensures u == 's' ==> CcsToTv(NatToString(n) + [u]) == Ok(NatToString(n) + "S")
    ensures u == 'm' ==> CcsToTv(NatToString(n) + [u]) == Ok(NatToString(n))
    ensures u == 'h' ==> CcsToTv(NatToString(n) + [u]) == Ok(NatToString(n * 60))
    ensures u == 'd' ==> CcsToTv(NatToString(n) + [u]) == Ok(NatToString(n) + "D")
    ensures u == 'w' ==> CcsToTv(NatToString(n) + [u]) == Ok(NatToString(n) + "W")
    ensures u == 'M' ==> CcsToTv(NatToString(n) + [u]) == Ok(NatToString(n) + "M")
    ensures u == 'y' ==> CcsToTv(NatToString(n) + [u]) == Ok(NatToString(12 * n) + "M")
    ensures u !in "smhdwMy" ==> CcsToTv(NatToString(n) + [u]) == Err(UnknownCcsResolution)
  {
    var d := NatToString(n);
    var t := d + [u];
    NatToStringHasNo(n, u);
    assert t[|t| - 1] == u;
    if u == 's' {
      ReplaceFinalChar(d, u, "S");
      assert ReplaceFirst(t, [u], "S") == d + "S";
    } else if u == 'm' {
      ReplaceFinalChar(d, u, "");
      assert ReplaceFirst(t, [u], "") == d;
    } else if u == 'h' {
      ReplaceFinalChar(d, u, "");
      assert ReplaceFirst(t, [u], "") == d;
      NumberOfNatToString(n);
    } else if u == 'd' {
      ReplaceFinalChar(d, u, "D");
      assert ReplaceFirst(t, [u], "D") == d + "D";
    } else if u == 'w' {
      ReplaceFinalChar(d, u, "W");
      assert ReplaceFirst(t, [u], "W") == d + "W";
    } else if u == 'y' {
      SplitAppend(d, [], 'y');
      assert t == d + ['y'] + [];
      assert Split(t, 'y')[0] == d;
      NumberOfNatToString(n);
    }
  }

  /** TradingView to pipeline after pipeline to TradingView gives the token back for
      s, d, w, M, for h with a positive amount and for m below 60 minutes. */
  lemma RoundTrip(n: nat, u: char)
    requires u in "sdwM" || (u == 'h' && n >= 1) || (u == 'm' && n < 60)
    ensures CcsToTv(NatToString(n) + [u]).Ok?
    ensures TvToCcs(CcsToTv(NatToString(n) + [u]).value) == Ok(NatToString(n) + [u])
  {
    var d := NatToString(n);
    CcsToTvOfToken(n, u);
    if u == 's' {
      assert CcsToTv(d + [u]) == Ok(d + "S");
      TvSuffix(n, 'S');
    } else if u == 'd' {
      assert CcsToTv(d + [u]) == Ok(d + "D");
      TvSuffix(n, 'D');
    } else if u == 'w' {
      assert CcsToTv(d + [u]) == Ok(d + "W");
      TvSuffix(n, 'W');
    } else if u == 'M' {
      assert CcsToTv(d + [u]) == Ok(d + "M");
      TvSuffix(n, 'M');
    } else if u == 'h' {
      assert CcsToTv(d + [u]) == Ok(NatToString(n * 60));
      TvNumeric(n * 60);
      assert RoundedHours(n * 60) == n;
    } else {
      assert CcsToTv(d + [u]) == Ok(d);
      TvNumeric(n);
    }
  }

  /** A yearly token comes back as the equivalent number of months. */
  lemma YearRoundTrip(n: nat)
    ensures TvToCcs(CcsToTv(NatToString(n) + "y").value) == Ok(NatToString(12 * n) + "M")
  {
    CcsToTvOfToken(n, 'y');
    TvSuffix(12 * n, 'M');
  }
}
